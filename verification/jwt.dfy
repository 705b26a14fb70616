/**
  The jsonwebtoken library as the account service uses it: `jwt.sign({ _id, role },
  secret, { expiresIn: "1h" })` and `jwt.verify(token, secret)`. A token is modelled as
  the text `<_id>.<role>.<iat>.<exp>`, times in whole seconds; the header, the base64url
  encoding and the signature are not modelled.
*/
module Jwt {
  import opened Results
  import opened Text
  import opened Roles

  /** `expiresIn: "1h"`, in seconds (the `exp` claim, section 4.1.4 of RFC 7519). */
  const Lifetime: nat := 3600

  datatype Claims = Claims(sub: nat, role: Role, iat: nat, exp: nat)

  /** The four claims as text: the decimal id, the role's name and the two decimal times. */
  function ClaimParts(c: Claims): seq<string> {
    [Digits(c.sub), RoleName(c.role), Digits(c.iat), Digits(c.exp)]
  }

  /** A token's text: its claims joined by '.'; it decodes back to those claims and holds no space. */
  function Encode(c: Claims): (token: string)
    ensures Decode(token) == Some(c)
    ensures ' ' !in token
  {
    DecodeJoin(c);
    RoleNameLetters(c.role);
    JoinAvoids(ClaimParts(c), '.', ' ');
    Join(ClaimParts(c), '.')
  }

  /** The claims a token carries, if it is well formed; text without a '.' never is. */
  function Decode(token: string): (r: Option<Claims>)
    ensures '.' !in token ==> r.None?
  {
    var parts := Split(token, '.');
    if '.' !in token then
      SplitSeparatorFree(token, '.', "");
      assert token + "" == token;
      None
    else if |parts| != 4 then None
    else
      match (ParseNat(parts[0]), ParseRole(parts[1]), ParseNat(parts[2]), ParseNat(parts[3]))
      case (Some(sub), Some(role), Some(iat), Some(exp)) => Some(Claims(sub, role, iat, exp))
      case _ => None
  }

  lemma DecodeJoin(c: Claims)
    ensures Decode(Join(ClaimParts(c), '.')) == Some(c)
  {
    var parts := ClaimParts(c);
    forall i | 0 <= i < |parts|
      ensures '.' !in parts[i]
    {
      if i == 1 {
        RoleNameLetters(c.role);
      } else {
        assert AllDigits(parts[i]);
      }
    }
    SplitJoin(parts, '.');
    ParseDigits(c.sub);
    ParseDigits(c.iat);
    ParseDigits(c.exp);
  }

  /** `jwt.sign({ _id: sub, role }, secret, { expiresIn: "1h" })` issued at `now`. */
  function Sign(sub: nat, role: Role, now: nat): (token: string)
    ensures Decode(token) == Some(Claims(sub, role, now, now + Lifetime))
    ensures ' ' !in token
  {
    Encode(Claims(sub, role, now, now + Lifetime))
  }

  /** `jwt.verify(token, secret)` at `now`: the claims of a well-formed token that has not expired. */
  function Verify(token: string, now: nat): (r: Option<Claims>)
    ensures r.Some? <==> Decode(token).Some? && now < Decode(token).value.exp
    ensures r.Some? ==> r == Decode(token)
  {
    match Decode(token)
    case None => None
    case Some(c) => if now < c.exp then Some(c) else None
  }

  /** A token issued at `iat` is accepted, with the claims it was issued with, exactly while `now < iat + 3600`. */
  lemma VerifySigned(sub: nat, role: Role, iat: nat, now: nat)
    ensures Verify(Sign(sub, role, iat), now)
         == if now < iat + Lifetime then Some(Claims(sub, role, iat, iat + Lifetime)) else None
  {
  }
}
