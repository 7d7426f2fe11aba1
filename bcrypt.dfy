/** A stand-in for bcrypt with cost factor 10 (`SALT_WORK_FACTOR`). A hash is
    `$2b$10$`, the 22-character salt, then the digest. The real digest is a one-way
    function of the password and the salt; here the password itself stands in for it, so
    that `Compare` can be computed. The model relies on bcrypt for three things only:
    comparing a password with its own hash succeeds, comparing any other password fails,
    and different salts give different hashes. */
module Bcrypt {

  const SaltWorkFactor := 10
  const Prefix := "$2b$10$"

  /** bcrypt's own base-64 alphabet `./A-Za-z0-9`. */
  predicate IsSaltChar(c: char)
  {
    c == '.' || c == '/' || ('A' <= c <= 'Z') || ('a' <= c <= 'z') || ('0' <= c <= '9')
  }

  predicate IsSalt(s: string)
  {
    |s| == 22 && forall k :: 0 <= k < |s| ==> IsSaltChar(s[k])
  }

  /** What `bcrypt.genSalt(SaltWorkFactor)` yields, without its `$2b$10$` prefix. */
  type Salt = s: string | IsSalt(s) witness "......................"

  /** `bcrypt.hash(password, salt)`. */
  function Hash(password: string, salt: Salt): (h: string)
    ensures |h| == |Prefix| + 22 + |password|
    ensures h[..|Prefix|] == Prefix && h[|Prefix|..|Prefix| + 22] == salt
  {
    Prefix + salt + password
  }

  /** A string shaped like a bcrypt hash of this cost factor. */
  predicate IsHash(h: string)
  {
    |h| >= |Prefix| + 22 && h[..|Prefix|] == Prefix && IsSalt(h[|Prefix|..|Prefix| + 22])
  }

  /** `bcrypt.compare(password, h)`. */
  predicate Compare(password: string, h: string)
  {
    IsHash(h) && h[|Prefix| + 22..] == password
  }

  /** Every hash is shaped like one. */
  lemma HashIsHash(password: string, salt: Salt)
    ensures IsHash(Hash(password, salt))
  {
    var h := Hash(password, salt);
    assert h[|Prefix|..|Prefix| + 22] == salt;
  }

  /** A password compares equal to its own hash, whatever the salt. */
  lemma CompareOwnHash(password: string, salt: Salt)
    ensures Compare(password, Hash(password, salt))
  {
    HashIsHash(password, salt);
    var h := Hash(password, salt);
    assert h[|Prefix| + 22..] == password;
  }

  /** Any other password compares unequal. */
  lemma CompareOtherFails(password: string, other: string, salt: Salt)
    requires other != password
    ensures !Compare(other, Hash(password, salt))
  {
    var h := Hash(password, salt);
    assert h[|Prefix| + 22..] == password;
  }
}
