/** Base 64 as the browser and the token library use it. `Atob` is `window.atob`: the
    forgiving-base64 decode of the WHATWG Infra standard over the standard alphabet of
    section 4 of RFC 4648, answering a binary string (one character per byte).
    `UrlEncode` is the unpadded base64url encoding of section 5 of RFC 4648 in which
    JSON Web Token segments are written. */
module Base64 {
  import opened Wrappers

  type Byte = b: int | 0 <= b < 256
  type Sextet = v: int | 0 <= v < 64

  /** The character of the standard alphabet `A-Z a-z 0-9 + /` for a 6-bit value. */
  function StdChar(v: Sextet): char
  {
    if v < 26 then ('A' as int + v) as char
    else if v < 52 then ('a' as int + v - 26) as char
    else if v < 62 then ('0' as int + v - 52) as char
    else if v == 62 then '+'
    else '/'
  }

  /** The base64url alphabet: `-` and `_` in place of `+` and `/`. */
  function UrlChar(v: Sextet): char
  {
    if v == 62 then '-' else if v == 63 then '_' else StdChar(v)
  }

  /** The value of a character of the standard alphabet. */
  function StdValue(c: char): (r: Option<Sextet>)
    ensures r.Some? ==> StdChar(r.value) == c
  {
    if 'A' <= c <= 'Z' then Some(c as int - 'A' as int)
    else if 'a' <= c <= 'z' then Some(c as int - 'a' as int + 26)
    else if '0' <= c <= '9' then Some(c as int - '0' as int + 52)
    else if c == '+' then Some(62)
    else if c == '/' then Some(63)
    else None
  }

  lemma StdValueOfChar(v: Sextet)
    ensures StdValue(StdChar(v)) == Some(v)
  {
  }

  /** ASCII whitespace, which forgiving-base64 removes first. */
  predicate IsAsciiWhitespace(c: char)
  {
    c == '\t' || c == '\n' || c == '\U{C}' || c == '\r' || c == ' '
  }

  function RemoveWhitespace(s: string): (r: string)
    ensures forall c :: c in r ==> c in s && !IsAsciiWhitespace(c)
  {
    if s == [] then []
    else (if IsAsciiWhitespace(s[0]) then [] else [s[0]]) + RemoveWhitespace(s[1..])
  }

  /** A length that divides by 4 lets one or two trailing `=` go. */
  function StripPadding(s: string): (r: string)
    ensures |r| <= |s| && r == s[..|r|]
    ensures forall c :: c in r ==> c in s
  {
    if |s| % 4 != 0 then s
    else if |s| >= 2 && s[|s| - 2..] == "==" then s[..|s| - 2]
    else if |s| >= 1 && s[|s| - 1] == '=' then s[..|s| - 1]
    else s
  }

  /** The values of a string of the standard alphabet. */
  function Values(s: string): (r: Option<seq<Sextet>>)
    ensures r.Some? <==> forall c :: c in s ==> StdValue(c).Some?
    ensures r.Some? ==> |r.value| == |s|
  {
    if s == [] then Some([])
    else match (StdValue(s[0]), Values(s[1..]))
      case (Some(v), Some(vs)) => Some([v] + vs)
      case _ => assert s[0] in s; None
  }

  /** Four 6-bit values make three bytes; a tail of three makes two, a tail of two makes
      one, and the left-over low bits are dropped. */
  function DecodeSextets(vs: seq<Sextet>): seq<Byte>
    requires |vs| % 4 != 1
  {
    if |vs| >= 4 then
      var v0, v1, v2, v3: int := vs[0], vs[1], vs[2], vs[3];
      var block: seq<Byte> := [v0 * 4 + v1 / 16, (v1 % 16) * 16 + v2 / 4, (v2 % 4) * 64 + v3];
      block + DecodeSextets(vs[4..])
    else if |vs| == 3 then
      var v0, v1, v2: int := vs[0], vs[1], vs[2];
      [v0 * 4 + v1 / 16, (v1 % 16) * 16 + v2 / 4]
    else if |vs| == 2 then
      var v0, v1: int := vs[0], vs[1];
      [v0 * 4 + v1 / 16]
    else []
  }

  /** The bytes as a JavaScript binary string. */
  function BinaryString(bytes: seq<Byte>): (s: string)
    ensures |s| == |bytes| && forall k :: 0 <= k < |s| ==> s[k] as int == bytes[k]
  {
    if bytes == [] then [] else [bytes[0] as char] + BinaryString(bytes[1..])
  }

  /** The forgiving-base64 decode: whitespace removed, padding removed, then failure for a
      length of the form 4n+1 or a character outside the standard alphabet. */
  function ForgivingDecode(data: string): Option<seq<Byte>>
  {
    var d := StripPadding(RemoveWhitespace(data));
    if |d| % 4 == 1 then None
    else match Values(d)
      case None => None
      case Some(vs) => Some(DecodeSextets(vs))
  }

  /** `atob(data)`; `None` is the `InvalidCharacterError` it throws. */
  function Atob(data: string): Option<string>
  {
    match ForgivingDecode(data)
    case None => None
    case Some(bytes) => Some(BinaryString(bytes))
  }

  /** The 6-bit values of the unpadded encoding of `bytes`. */
  function EncodeSextets(bytes: seq<Byte>): (vs: seq<Sextet>)
    ensures |vs| % 4 != 1
    ensures |vs| == (|bytes| / 3) * 4 + (if |bytes| % 3 == 0 then 0 else |bytes| % 3 + 1)
  {
    if |bytes| >= 3 then
      var b0, b1, b2 := bytes[0], bytes[1], bytes[2];
      [b0 / 4, (b0 % 4) * 16 + b1 / 16, (b1 % 16) * 4 + b2 / 64, b2 % 64] + EncodeSextets(bytes[3..])
    else if |bytes| == 2 then [bytes[0] / 4, (bytes[0] % 4) * 16 + bytes[1] / 16, (bytes[1] % 16) * 4]
    else if |bytes| == 1 then [bytes[0] / 4, (bytes[0] % 4) * 16]
    else []
  }

  function StdString(vs: seq<Sextet>): (s: string)
    ensures |s| == |vs| && forall k :: 0 <= k < |s| ==> s[k] == StdChar(vs[k])
  {
    if vs == [] then [] else [StdChar(vs[0])] + StdString(vs[1..])
  }

  function UrlString(vs: seq<Sextet>): (s: string)
    ensures |s| == |vs| && forall k :: 0 <= k < |s| ==> s[k] == UrlChar(vs[k])
  {
    if vs == [] then [] else [UrlChar(vs[0])] + UrlString(vs[1..])
  }

  /** Unpadded base64 over the standard alphabet. */
  function StdEncode(bytes: seq<Byte>): string
  {
    StdString(EncodeSextets(bytes))
  }

  /** Unpadded base64url, as JSON Web Token segments are written. */
  function UrlEncode(bytes: seq<Byte>): string
  {
    UrlString(EncodeSextets(bytes))
  }

  /** Decoding the sextets of an encoding gives back the bytes. */
  lemma {:induction false} DecodeEncodeSextets(bytes: seq<Byte>)
    ensures DecodeSextets(EncodeSextets(bytes)) == bytes
    decreases |bytes|
  {
    var vs := EncodeSextets(bytes);
    if |bytes| >= 3 {
      DecodeEncodeSextets(bytes[3..]);
      assert vs[4..] == EncodeSextets(bytes[3..]);
      BlockRoundTrip(bytes[0], bytes[1], bytes[2]);
      assert bytes == bytes[..3] + bytes[3..];
    } else if |bytes| == 2 {
      PairRoundTrip(bytes[0], bytes[1]);
    } else if |bytes| == 1 {
      assert (bytes[0] / 4) * 4 + ((bytes[0] % 4) * 16) / 16 == bytes[0];
    }
  }

  lemma BlockRoundTrip(b0: Byte, b1: Byte, b2: Byte)
    ensures var s0, s1, s2, s3 := b0 / 4, (b0 % 4) * 16 + b1 / 16, (b1 % 16) * 4 + b2 / 64, b2 % 64;
      s0 * 4 + s1 / 16 == b0 && (s1 % 16) * 16 + s2 / 4 == b1 && (s2 % 4) * 64 + s3 == b2
  {
  }

  lemma PairRoundTrip(b0: Byte, b1: Byte)
    ensures var s0, s1, s2 := b0 / 4, (b0 % 4) * 16 + b1 / 16, (b1 % 16) * 4;
      s0 * 4 + s1 / 16 == b0 && (s1 % 16) * 16 + s2 / 4 == b1
  {
  }

  /** The standard encoding has no whitespace, no `=`, a length `atob` accepts, and only
      alphabet characters, so `atob` decodes it to the bytes it encodes. */
  lemma AtobStdEncode(bytes: seq<Byte>)
    ensures Atob(StdEncode(bytes)) == Some(BinaryString(bytes))
  {
    var vs := EncodeSextets(bytes);
    ValuesOfStd(vs);
    CleanDecode(StdEncode(bytes), vs);
    DecodeEncodeSextets(bytes);
  }

  /** Text with no whitespace and no `=`, of a length `atob` accepts, decodes as its values. */
  lemma CleanDecode(s: string, vs: seq<Sextet>)
    requires forall k :: 0 <= k < |s| ==> !IsAsciiWhitespace(s[k]) && s[k] != '='
    requires Values(s) == Some(vs) && |vs| % 4 != 1
    ensures ForgivingDecode(s) == Some(DecodeSextets(vs))
  {
    NoWhitespaceKept(s);
    NoPaddingKept(s);
  }

  lemma NoPaddingKept(s: string)
    requires forall k :: 0 <= k < |s| ==> s[k] != '='
    ensures StripPadding(s) == s
  {
    if |s| >= 2 {
      assert s[|s| - 2..][1] == s[|s| - 1] != '=';
    } else if |s| == 1 {
      assert s[0] != '=';
    }
  }

  lemma {:induction false} ValuesOfStd(vs: seq<Sextet>)
    ensures Values(StdString(vs)) == Some(vs)
  {
    if vs != [] {
      ValuesOfStd(vs[1..]);
      StdValueOfChar(vs[0]);
      var s := StdString(vs);
      assert s[0] == StdChar(vs[0]);
      assert s[1..] == StdString(vs[1..]);
      assert vs == [vs[0]] + vs[1..];
    }
  }

  lemma {:induction false} NoWhitespaceKept(s: string)
    requires forall k :: 0 <= k < |s| ==> !IsAsciiWhitespace(s[k])
    ensures RemoveWhitespace(s) == s
  {
    if s != [] { NoWhitespaceKept(s[1..]); }
  }

  /** A string without whitespace whose length has the form 4n+1 is refused. */
  lemma AtobRejectsLength(data: string)
    requires forall k :: 0 <= k < |data| ==> !IsAsciiWhitespace(data[k])
    requires |data| % 4 == 1
    ensures Atob(data) == None
  {
    NoWhitespaceKept(data);
  }

  /** `atob(undefined)` decodes the nine characters of `"undefined"` and fails. */
  lemma AtobUndefined()
    ensures Atob("undefined") == None
  {
    var u := "undefined";
    assert |u| == 9;
    assert forall k :: 0 <= k < |u| ==> !IsAsciiWhitespace(u[k]);
    AtobRejectsLength(u);
  }

  /** `atob` refuses any string holding `-` or `_`: they are not whitespace, not padding,
      and not in the standard alphabet. */
  lemma AtobRejectsUrlChars(data: string)
    requires '-' in data || '_' in data
    ensures Atob(data) == None
  {
    var c := if '-' in data then '-' else '_';
    KeptByRemoveWhitespace(data, c);
    var d := StripPadding(RemoveWhitespace(data));
    KeptByStripPadding(RemoveWhitespace(data), c);
    assert c in d;
  }

  lemma {:induction false} KeptByRemoveWhitespace(s: string, c: char)
    requires c in s && !IsAsciiWhitespace(c)
    ensures c in RemoveWhitespace(s)
  {
    if s[0] != c { KeptByRemoveWhitespace(s[1..], c); }
  }

  lemma KeptByStripPadding(s: string, c: char)
    requires c in s && c != '='
    ensures c in StripPadding(s)
  {
    var i :| 0 <= i < |s| && s[i] == c;
    var r := StripPadding(s);
    if |s| % 4 == 0 && |s| >= 2 && s[|s| - 2..] == "==" {
      assert s[|s| - 2..][0] == s[|s| - 2] && s[|s| - 2..][1] == s[|s| - 1];
      assert r[i] == c;
    } else if |s| % 4 == 0 && |s| >= 1 && s[|s| - 1] == '=' {
      assert r[i] == c;
    }
  }

  /** The corrected decode: base64url mapped back onto the standard alphabet first. */
  function ToStdAlphabet(s: string): (r: string)
    ensures |r| == |s|
    ensures forall k :: 0 <= k < |s| ==> r[k] == (if s[k] == '-' then '+' else if s[k] == '_' then '/' else s[k])
  {
    if s == [] then [] else [if s[0] == '-' then '+' else if s[0] == '_' then '/' else s[0]] + ToStdAlphabet(s[1..])
  }

  function AtobUrl(data: string): Option<string>
  {
    Atob(ToStdAlphabet(data))
  }

  /** The corrected decode gives back the bytes of every base64url segment. */
  lemma AtobUrlDecodesUrlEncode(bytes: seq<Byte>)
    ensures AtobUrl(UrlEncode(bytes)) == Some(BinaryString(bytes))
  {
    var vs := EncodeSextets(bytes);
    assert ToStdAlphabet(UrlEncode(bytes)) == StdEncode(bytes);
    AtobStdEncode(bytes);
  }

  /** `atob` decodes a base64url segment exactly when the segment holds no `-` or `_`. */
  lemma AtobOnUrlEncode(bytes: seq<Byte>)
    ensures Atob(UrlEncode(bytes)).Some? <==> '-' !in UrlEncode(bytes) && '_' !in UrlEncode(bytes)
    ensures Atob(UrlEncode(bytes)).Some? ==> Atob(UrlEncode(bytes)) == Some(BinaryString(bytes))
  {
    var u := UrlEncode(bytes);
    if '-' in u || '_' in u {
      AtobRejectsUrlChars(u);
    } else {
      assert ToStdAlphabet(u) == u;
      AtobUrlDecodesUrlEncode(bytes);
    }
  }

  /** The last character of the `k`-th group of four encodes the low six bits of the
      group's third byte. */
  lemma {:induction false} LastSextetOfGroup(bytes: seq<Byte>, k: nat)
    requires 3 * k + 2 < |bytes|
    ensures EncodeSextets(bytes)[4 * k + 3] == bytes[3 * k + 2] % 64
    decreases k
  {
    if k > 0 {
      LastSextetOfGroup(bytes[3..], k - 1);
      assert bytes[3..][3 * (k - 1) + 2] == bytes[3 * k + 2];
    }
  }

  /** A byte at an offset of the form 3k+2 whose low six bits are 62 or 63 (such as `>`,
      `?` or `~`) puts a `-` or `_` into the base64url text. */
  lemma UrlCharFromByte(bytes: seq<Byte>, k: nat)
    requires 3 * k + 2 < |bytes| && bytes[3 * k + 2] % 64 >= 62
    ensures '-' in UrlEncode(bytes) || '_' in UrlEncode(bytes)
  {
    LastSextetOfGroup(bytes, k);
    var u := UrlEncode(bytes);
    assert u[4 * k + 3] == UrlChar(EncodeSextets(bytes)[4 * k + 3]);
  }

  /** Three `~` bytes are written `fn5-` in base64url and `fn5+` in the standard alphabet. */
  lemma TildesEncoding()
    ensures UrlEncode([126, 126, 126]) == "fn5-"
    ensures StdEncode([126, 126, 126]) == "fn5+"
  {
    var vs := EncodeSextets([126, 126, 126]);
    assert vs == [31, 39, 57, 62];
  }
}
