/** The part of the file system the server touches: directories it creates and the
    files it writes, recorded by path. File contents are not modelled. */
module Files {

  /** `path.join(a, b)` for a directory without a trailing separator and a relative name. */
  function PathJoin(a: string, b: string): string
  {
    a + "/" + b
  }

  class Disk {
    var dirs: set<string>
    var written: seq<string>

    constructor ()
      ensures dirs == {} && written == []
    {
      dirs := {};
      written := [];
    }

    /** `fs.mkdir(dir, {recursive: true})`: succeeds whether or not `dir` exists. */
    method MakeDirectory(dir: string)
      modifies this
      ensures dirs == old(dirs) + {dir} && written == old(written)
    {
      dirs := dirs + {dir};
    }

    /** Records that a file was written at `path`. */
    method Write(path: string)
      modifies this
      ensures written == old(written) + [path] && dirs == old(dirs)
    {
      written := written + [path];
    }
  }
}
