/**
  The bcrypt library as the account service uses it: `bcrypt.hash(p, 8)` and
  `bcrypt.compare(p, h)`. The digest itself is not modelled: `Hash` is a stand-in whose
  only properties used elsewhere are those in its contract (the hash verifies against its
  own plaintext and no other, is never the plaintext, and depends on the salt).
*/
module Bcrypt {

  /** Modular-crypt prefix of a cost-8 hash. */
  const Prefix: string := "$2a$08$"

  /** bcrypt salts are 22 characters long; a fresh one is drawn for every hash. */
  const SaltLength: nat := 22

  type Salt = s: string | |s| == SaltLength witness "......................"

  /** `bcrypt.hash(password, 8)` with the salt it drew. */
  function Hash(password: string, salt: Salt): (h: string)
    ensures Compare(password, h)
    ensures forall other :: Compare(other, h) ==> other == password
    ensures |h| > |password| && |h| >= |Prefix| + SaltLength
  {
    Prefix + salt + password
  }

  /** `bcrypt.compare(password, h)`; false for a string that is not a hash. */
  function Compare(password: string, h: string): (r: bool)
    ensures r <==> exists salt: Salt :: h == Prefix + salt + password
    ensures r ==> |h| == |Prefix| + SaltLength + |password|
  {
    if |Prefix| + SaltLength <= |h| && h[..|Prefix|] == Prefix && h[|Prefix| + SaltLength..] == password then
      var salt: Salt := h[|Prefix|..|Prefix| + SaltLength];
      assert h == Prefix + salt + password;
      true
    else
      assert forall salt: Salt :: h != Prefix + salt + password by {
        forall salt: Salt | h == Prefix + salt + password
          ensures false
        {
        }
      }
      false
  }

  /** Hashing the same plaintext with two different salts gives two different hashes. */
  lemma SaltedHashesDiffer(password: string, s1: Salt, s2: Salt)
    requires s1 != s2
    ensures Hash(password, s1) != Hash(password, s2)
  {
    var n := |Prefix|;
    assert Hash(password, s1)[n..n + SaltLength] == s1;
    assert Hash(password, s2)[n..n + SaltLength] == s2;
  }

  /** A hash never verifies against itself: hashing twice loses the original plaintext. */
  lemma RehashRejectsPlaintext(password: string, s1: Salt, s2: Salt)
    ensures !Compare(password, Hash(Hash(password, s1), s2))
  {
  }
}
