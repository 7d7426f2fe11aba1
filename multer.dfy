/** The upload storage of the server: each uploaded avatar is written under the public
    directory as `images/<uuid><extension of the original name>`. */
module Multer {
  import opened Wrappers
  import opened Files
  import opened Uuid

  const ImagesPrefix := "images/"

  /** The position of the last `c` in `s`, if any. */
  function LastIndexOf(s: string, c: char): (r: Option<nat>)
    ensures r.Some? ==> r.value < |s| && s[r.value] == c && c !in s[r.value + 1..]
    ensures r.None? ==> c !in s
  {
    if s == [] then None
    else if s[|s| - 1] == c then Some(|s| - 1)
    else
      match LastIndexOf(s[..|s| - 1], c)
      case None => None
      case Some(i) =>
        assert s[i + 1..] == s[..|s| - 1][i + 1..] + [s[|s| - 1]];
        Some(i)
  }

  /** `s` without its trailing `/` characters. */
  function TrimTrailingSlashes(s: string): (r: string)
    ensures |r| <= |s| && r == s[..|r|]
    ensures r == [] || r[|r| - 1] != '/'
  {
    if s != [] && s[|s| - 1] == '/' then TrimTrailingSlashes(s[..|s| - 1]) else s
  }

  /** The last segment of a POSIX path, trailing separators ignored: the slash-free tail
      of the trimmed path that is either all of it or starts right after a `/`. */
  function BaseName(p: string): (b: string)
    ensures '/' !in b
    ensures var t := TrimTrailingSlashes(p);
      && |b| <= |t| && b == t[|t| - |b|..]
      && (|b| == |t| || t[|t| - |b| - 1] == '/')
  {
    var t := TrimTrailingSlashes(p);
    match LastIndexOf(t, '/')
    case None =>
      assert t[|t| - |t|..] == t;
      t
    case Some(i) => t[i + 1..]
  }

  /** `path.extname(p)` (POSIX): the base name from its last `.` on, except that a base
      name whose only `.` leads it (`.profile`) and the name `..` have none. */
  function ExtName(p: string): string
  {
    Extension(BaseName(p))
  }

  /** The extension of a base name `b`. */
  function Extension(b: string): string
  {
    match LastIndexOf(b, '.')
    case None => ""
    case Some(d) => if d == 0 || b == ".." then "" else b[d..]
  }

  /** The `filename` callback: `'images/' + randomUUID() + path.extname(originalname)`. */
  function StoredName(id: Uuid, originalName: string): string
  {
    ImagesPrefix + id + ExtName(originalName)
  }

  /** An extension is empty or a `.` followed by a dot-free, slash-free tail of the
      original name's base name; it is empty exactly when the base name has no `.`
      after its first character, or is `..`. */
  lemma ExtNameShape(p: string)
    ensures var e := ExtName(p);
      && (e == [] || (e[0] == '.' && '.' !in e[1..] && '/' !in e))
      && |e| <= |BaseName(p)| && e == BaseName(p)[|BaseName(p)| - |e|..]
      && (e == [] <==> BaseName(p) == [] || BaseName(p) == ".." || '.' !in BaseName(p)[1..])
  {
    ExtensionShape(BaseName(p));
  }

  /** `ExtNameShape` for a given slash-free base name. */
  lemma ExtensionShape(b: string)
    requires '/' !in b
    ensures var e := Extension(b);
      && (e == [] || (e[0] == '.' && '.' !in e[1..] && '/' !in e))
      && |e| <= |b| && e == b[|b| - |e|..]
      && (e == [] <==> b == [] || b == ".." || '.' !in b[1..])
  {
    match LastIndexOf(b, '.')
    case None =>
      assert b[|b|..] == [];
      if b != [] { assert forall k :: 0 <= k < |b[1..]| ==> b[1..][k] == b[k + 1]; }
    case Some(d) =>
      if d == 0 {
        assert b[1..] == b[d + 1..];
      } else if b != ".." {
        assert b[d..][1..] == b[d + 1..];
        assert b[1..][d - 1] == '.';
      }
  }

  /** Every stored name begins with `images/`, and, since a UUID has a `-` where the
      placeholder has a letter, it is never the default avatar's path. */
  lemma StoredNameShape(id: Uuid, originalName: string)
    ensures |StoredName(id, originalName)| >= |ImagesPrefix| + 36
    ensures StoredName(id, originalName)[..|ImagesPrefix|] == ImagesPrefix
    ensures StoredName(id, originalName) != "images/default-avatar.png"
  {
    HyphenAfterEight(id);
    NotPlaceholder(id, ExtName(originalName));
  }

  lemma HyphenAfterEight(id: Uuid)
    ensures |id| == 36 && id[8] == '-'
  {
    assert IsHyphenPosition(8);
  }

  lemma NotPlaceholder(id: string, ext: string)
    requires |id| == 36 && id[8] == '-'
    ensures (ImagesPrefix + id + ext)[..|ImagesPrefix|] == ImagesPrefix
    ensures ImagesPrefix + id + ext != "images/default-avatar.png"
  {
    var n := ImagesPrefix + id + ext;
    assert n[15] == '-';
    var placeholder := "images/default-avatar.png";
    assert placeholder[15] == 'a';
  }

  /** A file as the upload middleware hands it to the route: `req.file`. */
  datatype StoredFile = StoredFile(filename: string, path: string)

  /** The `destination` callback: it creates `<publicPath>/images` (with `recursive: true`)
      and then answers `publicPath`. */
  method Destination(disk: Disk, publicPath: string) returns (dest: string)
    modifies disk
    ensures dest == publicPath
    ensures disk.dirs == old(disk.dirs) + {PathJoin(publicPath, "images")}
    ensures disk.written == old(disk.written)
  {
    disk.MakeDirectory(PathJoin(publicPath, "images"));
    dest := publicPath;
  }

  /** One upload through `imageStorage`: the destination callback, then the filename
      callback, then the write at `path.join(destination, filename)`. */
  method Store(disk: Disk, publicPath: string, id: Uuid, originalName: string) returns (file: StoredFile)
    modifies disk
    ensures file.filename == StoredName(id, originalName)
    ensures file.path == PathJoin(publicPath, file.filename)
    ensures file.path == PathJoin(PathJoin(publicPath, "images"), id + ExtName(originalName))
    ensures PathJoin(publicPath, "images") in disk.dirs
    ensures disk.dirs == old(disk.dirs) + {PathJoin(publicPath, "images")}
    ensures disk.written == old(disk.written) + [file.path]
  {
    var dest := Destination(disk, publicPath);
    var name := StoredName(id, originalName);
    file := StoredFile(name, PathJoin(dest, name));
    UnderImages(publicPath, id, ExtName(originalName));
    disk.Write(file.path);
  }

  /** `<root>/images/<id><ext>` read either way round. */
  lemma UnderImages(root: string, id: string, ext: string)
    ensures PathJoin(root, ImagesPrefix + id + ext) == PathJoin(PathJoin(root, "images"), id + ext)
  {
    assert ImagesPrefix + id + ext == ImagesPrefix + (id + ext);
  }
}
