/** The strings `crypto.randomUUID()` returns: RFC 9562 version-4 identifiers in
    lower-case hexadecimal, `xxxxxxxx-xxxx-4xxx-Vxxx-xxxxxxxxxxxx` with `V` one of `89ab`.
    The generator itself is not modelled: identifiers are passed in. */
module Uuid {

  predicate IsLowerHex(c: char)
  {
    ('0' <= c <= '9') || ('a' <= c <= 'f')
  }

  predicate IsHyphenPosition(k: int)
  {
    k == 8 || k == 13 || k == 18 || k == 23
  }

  predicate IsUuid(s: string)
  {
    |s| == 36
    && (forall k :: 0 <= k < 36 ==> if IsHyphenPosition(k) then s[k] == '-' else IsLowerHex(s[k]))
    && s[14] == '4'
    && (s[19] == '8' || s[19] == '9' || s[19] == 'a' || s[19] == 'b')
  }

  type Uuid = s: string | IsUuid(s) witness "00000000-0000-4000-8000-000000000000"
}
