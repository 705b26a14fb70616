/**
  The access gates put in front of the handlers. `auth` lets a request through when its
  bearer token (section 2.1 of RFC 6750) verifies and names a stored user; `adminAuth`
  further requires that stored user to be an ADMIN or a SUPERADMIN. Letting a request
  through means setting `req.user` and calling `next` once; otherwise a 401 or 403 is sent.
*/
module AuthMiddleware {
  import opened Results
  import opened Text
  import opened Roles
  import opened UserModel
  import opened Http
  import Jwt

  const PleaseAuthenticate: string := "Please authenticate."
  const AdminsOnly: string := "Access denied: Admins only"
  const BearerPrefix: string := "Bearer "

  /** `header.replace("Bearer ", "")`: the first "Bearer " is removed wherever it occurs. */
  function BearerToken(header: string): (token: string)
    ensures |header| >= |BearerPrefix| && header[..|BearerPrefix|] == BearerPrefix ==> token == header[|BearerPrefix|..]
    ensures forall k: nat :: OccursAt(header, BearerPrefix, k) && (forall j: nat :: j < k ==> !OccursAt(header, BearerPrefix, j))
                        ==> token == header[..k] + header[k + |BearerPrefix|..]
    ensures (forall k :: 0 <= k <= |header| ==> !OccursAt(header, BearerPrefix, k)) ==> token == header
    ensures |token| <= |header|
  {
    ReplaceAtStart(header, BearerPrefix, "");
    ReplaceFirst(header, BearerPrefix, "")
  }

  /** Why `auth` refuses: the header is absent (`replace` on undefined throws), the token does not verify, or names no one. */
  datatype AuthFailure = MissingHeader | InvalidToken | UnknownUser

  /** Lines 6-12 (and 24-30): the stored user the request's token names. */
  function Authenticate(store: Store, header: Option<string>, now: nat): (r: Result<UserId, AuthFailure>)
    ensures r.Success? <==>
      && header.Some?
      && Jwt.Verify(BearerToken(header.value), now).Some?
      && Jwt.Verify(BearerToken(header.value), now).value.sub in store
    ensures r.Success? ==> r.value == Jwt.Verify(BearerToken(header.value), now).value.sub
    ensures r.Failure? && header.None? ==> r.error == MissingHeader
  {
    match header
    case None => Failure(MissingHeader)
    case Some(h) =>
      match Jwt.Verify(BearerToken(h), now)
      case None => Failure(InvalidToken)
      case Some(claims) => if claims.sub in store then Success(claims.sub) else Failure(UnknownUser)
  }

  /** A gate's decision: call `next` with the user of this id, or send this response. */
  datatype Verdict = Next(id: UserId) | Halt(response: Response)

  /** Line 35's role test: ADMIN and SUPERADMIN pass, USER and CLIENT do not. */
  predicate IsAdmin(r: Role)
    ensures IsAdmin(r) <==> r != USER && r != CLIENT
  {
    r == ADMIN || r == SUPERADMIN
  }

  /** `auth`: every refusal is the same 401, whichever check failed. */
  function AuthVerdict(store: Store, header: Option<string>, now: nat): (v: Verdict)
    ensures v.Next? <==> Authenticate(store, header, now).Success?
    ensures v.Next? ==> v.id == Authenticate(store, header, now).value && v.id in store
    ensures v.Halt? ==> v.response == Response(401, Message(PleaseAuthenticate))
  {
    match Authenticate(store, header, now)
    case Failure(_) => Halt(Response(401, Message(PleaseAuthenticate)))
    case Success(id) => Next(id)
  }

  /**
    `adminAuth`: the 401 of `auth` for a request that does not authenticate, 403 for a
    stored USER or CLIENT, `next` for a stored ADMIN or SUPERADMIN. The role is the one
    stored, not the one the token claims.
  */
  function AdminVerdict(store: Store, header: Option<string>, now: nat): (v: Verdict)
    ensures v.Next? <==>
      Authenticate(store, header, now).Success? && IsAdmin(store[Authenticate(store, header, now).value].role)
    ensures v.Next? ==> v.id == Authenticate(store, header, now).value
    ensures v.Halt? && Authenticate(store, header, now).Failure? ==> v.response == Response(401, Message(PleaseAuthenticate))
    ensures v.Halt? && Authenticate(store, header, now).Success? ==> v.response == Response(403, Message(AdminsOnly))
  {
    match Authenticate(store, header, now)
    case Failure(_) => Halt(Response(401, Message(PleaseAuthenticate)))
    case Success(id) => if IsAdmin(store[id].role) then Next(id) else Halt(Response(403, Message(AdminsOnly)))
  }

  /** Whatever `adminAuth` lets through, `auth` lets through too. */
  lemma AdminPassesAuth(store: Store, header: Option<string>, now: nat)
    requires AdminVerdict(store, header, now).Next?
    ensures AuthVerdict(store, header, now) == AdminVerdict(store, header, now)
  {
  }

  /** "Bearer " followed by a token yields the token. */
  lemma BearerStripped(token: string)
    ensures BearerToken(BearerPrefix + token) == token
  {
    var header := BearerPrefix + token;
    assert header[..|BearerPrefix|] == BearerPrefix && header[|BearerPrefix|..] == token;
  }

  /** The strip is loose: a signed token sent without the "Bearer " scheme is used as it is. */
  lemma BareTokenAccepted(sub: UserId, role: Role, iat: nat)
    ensures BearerToken(Jwt.Sign(sub, role, iat)) == Jwt.Sign(sub, role, iat)
  {
    ReplaceAbsent(Jwt.Sign(sub, role, iat), BearerPrefix, "", ' ');
  }

  /**
    A token signed at `iat` for a stored user lets `auth` through, with that user, exactly
    while `now < iat + 3600`; after that it gets the 401. The same holds for a bare token.
  */
  lemma SignedTokenAdmits(store: Store, id: UserId, role: Role, iat: nat, now: nat)
    requires id in store
    ensures AuthVerdict(store, Some(BearerPrefix + Jwt.Sign(id, role, iat)), now)
         == if now < iat + Jwt.Lifetime then Next(id) else Halt(Response(401, Message(PleaseAuthenticate)))
    ensures AuthVerdict(store, Some(Jwt.Sign(id, role, iat)), now)
         == AuthVerdict(store, Some(BearerPrefix + Jwt.Sign(id, role, iat)), now)
  {
    BearerStripped(Jwt.Sign(id, role, iat));
    BareTokenAccepted(id, role, iat);
    Jwt.VerifySigned(id, role, iat, now);
  }

  /** A token for an id with no stored user gets the 401 even while it is fresh. */
  lemma UnknownSubjectRefused(store: Store, id: UserId, role: Role, iat: nat, now: nat)
    requires id !in store
    ensures AuthVerdict(store, Some(BearerPrefix + Jwt.Sign(id, role, iat)), now) == Halt(Response(401, Message(PleaseAuthenticate)))
    ensures AdminVerdict(store, Some(BearerPrefix + Jwt.Sign(id, role, iat)), now) == Halt(Response(401, Message(PleaseAuthenticate)))
  {
    BearerStripped(Jwt.Sign(id, role, iat));
    Jwt.VerifySigned(id, role, iat, now);
  }

  /**
    `adminAuth` reads the role from the stored user, not from the token: two fresh tokens
    for the same id that claim different roles get the same decision, so a USER holding a
    token that claims ADMIN gets the 403.
  */
  lemma AdminChecksStoredRole(store: Store, id: UserId, claimed: Role, other: Role, iat: nat, now: nat)
    requires id in store && now < iat + Jwt.Lifetime
    ensures AdminVerdict(store, Some(BearerPrefix + Jwt.Sign(id, claimed, iat)), now)
         == AdminVerdict(store, Some(BearerPrefix + Jwt.Sign(id, other, iat)), now)
         == if IsAdmin(store[id].role) then Next(id) else Halt(Response(403, Message(AdminsOnly)))
  {
    SignedTokenAdmits(store, id, claimed, iat, now);
    SignedTokenAdmits(store, id, other, iat, now);
  }

  /** The request and response objects a gate works on: `req.user`, the calls to `next`, and what was sent. */
  class Exchange {
    const authorization: Option<string>
    var user: Option<(UserId, User)>
    var nextCalls: nat
    var sent: Option<Response>

    constructor (authorization: Option<string>)
      ensures this.authorization == authorization
      ensures user == None && nextCalls == 0 && sent == None
    {
      this.authorization := authorization;
      user, nextCalls, sent := None, 0, None;
    }

    /** `auth(req, res, next)`: on success `req.user` is the stored user and `next` is called once; otherwise the 401 is sent. */
    method Auth(store: Store, now: nat)
      modifies this
      ensures match AuthVerdict(store, authorization, now)
        case Next(id) => user == Some((id, store[id])) && nextCalls == old(nextCalls) + 1 && sent == old(sent)
        case Halt(r) => user == old(user) && nextCalls == old(nextCalls) && sent == Some(r)
    {
      match Authenticate(store, authorization, now)
      case Failure(_) =>
        sent := Some(Response(401, Message(PleaseAuthenticate)));
      case Success(id) =>
        user := Some((id, store[id]));
        nextCalls := nextCalls + 1;
    }

    /**
      `adminAuth(req, res, next)`: `req.user` is set as soon as the user is found, before
      the role test, so a refused USER or CLIENT leaves it set.
    */
    method AdminAuth(store: Store, now: nat)
      modifies this
      ensures user == match Authenticate(store, authorization, now)
                      case Success(id) => Some((id, store[id]))
                      case Failure(_) => old(user)
      ensures match AdminVerdict(store, authorization, now)
        case Next(_) => nextCalls == old(nextCalls) + 1 && sent == old(sent)
        case Halt(r) => nextCalls == old(nextCalls) && sent == Some(r)
    {
      match Authenticate(store, authorization, now)
      case Failure(_) =>
        sent := Some(Response(401, Message(PleaseAuthenticate)));
      case Success(id) =>
        user := Some((id, store[id]));
        if !IsAdmin(store[id].role) {
          sent := Some(Response(403, Message(AdminsOnly)));
        } else {
          nextCalls := nextCalls + 1;
        }
    }
  }
}
