/** String operations of the JavaScript runtime that the core relies on:
    `indexOf`, `split` with a one-character separator, and `length`, which
    counts UTF-16 code units rather than Unicode scalar values. */
module Text {
  import opened Wrappers

  /** `s.indexOf(c)`: the position of the first `c` in `s`, if any. */
  function IndexOf(s: string, c: char): (r: Option<nat>)
    ensures r.Some? ==> r.value < |s| && s[r.value] == c && c !in s[..r.value]
    ensures r.None? ==> c !in s
  {
    if s == [] then None
    else if s[0] == c then Some(0)
    else match IndexOf(s[1..], c)
      case None => None
      case Some(i) => assert s[1..][..i] == s[1..i + 1]; Some(i + 1)
  }

  /** A character found at `i` and nowhere else is found first at `i`. */
  lemma IndexOfUnique(s: string, c: char, i: nat)
    requires i < |s| && s[i] == c
    requires forall p :: 0 <= p < |s| && p != i ==> s[p] != c
    ensures IndexOf(s, c) == Some(i)
  {
    assert c in s;
    var j := IndexOf(s, c).value;
    assert s[j] == c;
  }

  /** The number of occurrences of `c` in `s`. */
  function Count(s: string, c: char): nat
  {
    if s == [] then 0 else (if s[0] == c then 1 else 0) + Count(s[1..], c)
  }

  /** `s.split(sep)` for a one-character separator: the pieces between the separators,
      from left to right; there is always at least one piece. */
  function Split(s: string, sep: char): (parts: seq<string>)
    ensures |parts| >= 1
    ensures forall k :: 0 <= k < |parts| ==> sep !in parts[k]
    decreases |s|
  {
    match IndexOf(s, sep)
    case None => [s]
    case Some(i) => [s[..i]] + Split(s[i + 1..], sep)
  }

  /** `parts.join(sep)`: the inverse of `Split`. */
  function Join(parts: seq<string>, sep: char): string
    requires |parts| >= 1
  {
    if |parts| == 1 then parts[0] else parts[0] + [sep] + Join(parts[1..], sep)
  }

  /** `s.split(c)[0]`: the text before the first `c`, or all of `s` when it has none. */
  function BeforeFirst(s: string, c: char): (r: string)
    ensures |r| <= |s| && r == s[..|r|] && c !in r
    ensures |r| == |s| || s[|r|] == c
    ensures IndexOf(s, c).None? ==> r == s
    ensures IndexOf(s, c).Some? ==> r == s[..IndexOf(s, c).value]
  {
    Split(s, c)[0]
  }

  /** `s.length` in JavaScript: a scalar value above U+FFFF takes two UTF-16 code units. */
  function JsLength(s: string): (n: nat)
    ensures |s| <= n <= 2 * |s|
  {
    if s == [] then 0 else (if s[0] as int > 0xFFFF then 2 else 1) + JsLength(s[1..])
  }

  /** Joining the pieces of a split gives back the original string. */
  lemma {:induction false} JoinSplit(s: string, sep: char)
    ensures Join(Split(s, sep), sep) == s
    decreases |s|
  {
    match IndexOf(s, sep)
    case None =>
    case Some(i) =>
      var rest := Split(s[i + 1..], sep);
      assert Split(s, sep) == [s[..i]] + rest;
      JoinSplit(s[i + 1..], sep);
      assert ([s[..i]] + rest)[1..] == rest;
      assert Join(Split(s, sep), sep) == s[..i] + [sep] + Join(rest, sep);
      assert s == s[..i] + [sep] + s[i + 1..];
  }

  /** Splitting a join of separator-free pieces gives back the pieces. */
  lemma {:induction false} SplitJoin(parts: seq<string>, sep: char)
    requires |parts| >= 1
    requires forall k :: 0 <= k < |parts| ==> sep !in parts[k]
    ensures Split(Join(parts, sep), sep) == parts
    decreases |parts|
  {
    if |parts| > 1 {
      var rest := Join(parts[1..], sep);
      var s := parts[0] + [sep] + rest;
      IndexOfAfterFree(parts[0], sep, rest);
      assert s[..|parts[0]|] == parts[0];
      assert s[|parts[0]| + 1..] == rest;
      SplitJoin(parts[1..], sep);
    } else {
      assert Join(parts, sep) == parts[0];
    }
  }

  /** The first `sep` of `a + [sep] + b` is the one after `a` when `a` has none. */
  lemma IndexOfAfterFree(a: string, sep: char, b: string)
    requires sep !in a
    ensures IndexOf(a + [sep] + b, sep) == Some(|a|)
  {
    var s := a + [sep] + b;
    assert s[|a|] == sep;
    assert forall k :: 0 <= k < |a| ==> s[k] == a[k];
  }

  /** When `s` holds exactly one `c`, at position `i`, every other position holds something else. */
  lemma {:induction false} CountOneElsewhere(s: string, c: char, i: nat, p: nat)
    requires i < |s| && p < |s| && i != p
    requires s[i] == c && s[p] == c
    ensures Count(s, c) >= 2
  {
    if i == 0 {
      CountPositive(s[1..], c, p - 1);
    } else if p == 0 {
      CountPositive(s[1..], c, i - 1);
    } else {
      CountOneElsewhere(s[1..], c, i - 1, p - 1);
    }
  }

  /** A string holding `c` at position `p` counts at least one `c`. */
  lemma {:induction false} CountPositive(s: string, c: char, p: nat)
    requires p < |s| && s[p] == c
    ensures Count(s, c) >= 1
  {
    if p > 0 { CountPositive(s[1..], c, p - 1); }
  }

  /** A string holding `c` at position `i` and nowhere else counts exactly one `c`. */
  lemma {:induction false} CountExactlyOne(s: string, c: char, i: nat)
    requires i < |s| && s[i] == c
    requires forall p :: 0 <= p < |s| && p != i ==> s[p] != c
    ensures Count(s, c) == 1
  {
    if i == 0 {
      CountZero(s[1..], c);
    } else {
      CountExactlyOne(s[1..], c, i - 1);
    }
  }

  /** A string without `c` counts no `c`. */
  lemma {:induction false} CountZero(s: string, c: char)
    requires forall p :: 0 <= p < |s| ==> s[p] != c
    ensures Count(s, c) == 0
  {
    if s != [] { CountZero(s[1..], c); }
  }
}
