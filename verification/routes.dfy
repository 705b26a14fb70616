/**
  The routing table: which gate stands in front of which handler. A request reaches its
  handler only when its gate lets it through; otherwise the gate's response is the answer
  and nothing is written.
*/
module Routes {
  import opened Results
  import opened Roles
  import opened UserModel
  import opened Http
  import opened UsersController
  import opened AuthMiddleware
  import Bcrypt
  import Jwt

  datatype Request =
    | SignUpRequest(body: Body)                                    // POST /signup
    | LoginRequest(body: Body)                                     // POST /login
    | GetUserRequest(id: UserId)                                   // GET /users/:id
    | ListRequest(selector: string)                                // GET /:role
    | UpdateRequest(id: UserId, body: Body, file: Option<string>)  // PUT /users/:id

  datatype Gate = Open | Authenticated | AdminOnly

  /** The gate each route is mounted behind. */
  function GateOf(req: Request): (g: Gate)
    ensures g == AdminOnly <==> req.ListRequest?
    ensures g == Authenticated <==> req.GetUserRequest?
  {
    match req
    case SignUpRequest(_) => Open
    case LoginRequest(_) => Open
    case GetUserRequest(_) => Authenticated
    case ListRequest(_) => AdminOnly
    case UpdateRequest(_, _, _) => Open
  }

  /** What the service takes from outside: the id a new document gets, the salts bcrypt draws, the clock. */
  datatype Environment = Environment(newId: UserId, hashSalt: Bcrypt.Salt, saveSalt: Bcrypt.Salt, now: nat)

  /** The response a gate sends instead of calling `next`, if any. */
  function Refusal(store: Store, gate: Gate, header: Option<string>, now: nat): (r: Option<Response>)
    ensures gate == Open ==> r.None?
    ensures gate == Authenticated ==> (r.None? <==> AuthVerdict(store, header, now).Next?)
    ensures gate == AdminOnly ==> (r.None? <==> AdminVerdict(store, header, now).Next?)
    ensures r.Some? ==> r.value.status in {401, 403} && (r.value.status == 403 ==> gate == AdminOnly)
  {
    match gate
    case Open => None
    case Authenticated =>
      (match AuthVerdict(store, header, now) case Halt(r) => Some(r) case Next(_) => None)
    case AdminOnly =>
      (match AdminVerdict(store, header, now) case Halt(r) => Some(r) case Next(_) => None)
  }

  function Handle(store: Store, req: Request, env: Environment): (r: (Response, Store))
    requires EmailsUnique(store)
    ensures r.1 != store ==> req.SignUpRequest? || req.UpdateRequest?
    ensures r.0.status == 401 ==> req.LoginRequest?
    ensures r.0.status != 403
  {
    match req
    case SignUpRequest(body) => SignUpOutcome(store, body, env.newId, env.saveSalt, env.now)
    case LoginRequest(body) => (Login(store, body, env.now), store)
    case GetUserRequest(id) => (GetOneUser(store, id), store)
    case ListRequest(selector) => (GetAllUsers(store, selector), store)
    case UpdateRequest(id, body, file) => UpdateOutcome(store, id, body, file, env.hashSalt, env.saveSalt)
  }

  /** A request with its Authorization header, through its gate and then its handler. */
  function Dispatch(store: Store, req: Request, header: Option<string>, env: Environment): (r: (Response, Store))
    requires EmailsUnique(store)
    ensures r.1 != store ==> req.SignUpRequest? || req.UpdateRequest?
    ensures r.0.status in {401, 403} ==> r.1 == store
    ensures r.0.status == 403 ==> req.ListRequest?
    ensures r.0.status == 401 ==> req.LoginRequest? || GateOf(req) != Open
  {
    match Refusal(store, GateOf(req), header, env.now)
    case Some(r) => (r, store)
    case None => Handle(store, req, env)
  }

  /** Every route keeps the collection's invariant, whatever the gate decides. */
  lemma DispatchPreservesInvariant(store: Store, req: Request, header: Option<string>, env: Environment)
    requires StoreInvariant(store)
    ensures StoreInvariant(Dispatch(store, req, header, env).1)
  {
    if Refusal(store, GateOf(req), header, env.now).None? {
      match req
      case SignUpRequest(body) => SignUpPreservesInvariant(store, body, env.newId, env.saveSalt, env.now);
      case UpdateRequest(id, body, file) => UpdatePreservesInvariant(store, id, body, file, env.hashSalt, env.saveSalt);
      case _ =>
    }
  }

  /**
    PUT /users/:id has no gate: a request without any Authorization header reaches
    `updateUser`, for any id, exactly as an authenticated one would.
  */
  lemma UpdateIsUngated(store: Store, id: UserId, body: Body, file: Option<string>, header: Option<string>, env: Environment)
    requires EmailsUnique(store)
    ensures Dispatch(store, UpdateRequest(id, body, file), header, env)
         == UpdateOutcome(store, id, body, file, env.hashSalt, env.saveSalt)
  {
  }

  /** The listing is answered only to a stored ADMIN or SUPERADMIN; anyone else gets the 401 or the 403. */
  lemma ListingNeedsAdmin(store: Store, selector: string, header: Option<string>, env: Environment)
    requires EmailsUnique(store)
    ensures var r := Dispatch(store, ListRequest(selector), header, env).0;
      && (r.status == 200 <==> AdminVerdict(store, header, env.now).Next?)
      && (r.status == 200 ==> r == GetAllUsers(store, selector))
      && (r.status != 200 ==> r.status in {401, 403})
  {
  }

  /**
    An administrator's GET /admin lists exactly the stored ADMIN users, each without its
    password: neither a SUPERADMIN nor any other role appears.
  */
  lemma AdminListingShowsAdmins(store: Store, header: Option<string>, env: Environment)
    requires EmailsUnique(store)
    requires AdminVerdict(store, header, env.now).Next?
    ensures var r := Dispatch(store, ListRequest("admin"), header, env).0;
      && r.status == 200 && r.payload.Listing?
      && (forall v :: v in r.payload.users ==> v.id in store && store[v.id].role == ADMIN && v == View(v.id, store[v.id]))
      && (forall id :: id in store && store[id].role == ADMIN ==> View(id, store[id]) in r.payload.users)
  {
    assert RoleFilter("admin") == Some(ADMIN);
  }

  /** Any authenticated user can read any stored user's profile: the gate does not compare ids. */
  lemma ProfileNeedsOnlyAuthentication(store: Store, id: UserId, header: Option<string>, env: Environment)
    requires EmailsUnique(store)
    ensures var r := Dispatch(store, GetUserRequest(id), header, env).0;
      && (AuthVerdict(store, header, env.now).Next? ==> r == GetOneUser(store, id))
      && (AuthVerdict(store, header, env.now).Halt? ==> r == Response(401, Message(PleaseAuthenticate)))
  {
  }

  /** A bearer token that verifies at `now` and names a stored user opens that user's profile. */
  lemma VerifiedTokenOpensProfile(store: Store, id: UserId, token: string, env: Environment)
    requires EmailsUnique(store) && id in store
    requires Jwt.Verify(token, env.now).Some? && Jwt.Verify(token, env.now).value.sub == id
    ensures Dispatch(store, GetUserRequest(id), Some(BearerPrefix + token), env).0 == GetOneUser(store, id)
    ensures Dispatch(store, GetUserRequest(id), Some(BearerPrefix + token), env).0.status == 200
  {
    BearerStripped(token);
  }

  /**
    The token a sign-up returns (only a 201 carries one) opens the new user's own profile
    for an hour: sent as a bearer token at any `later` before it expires, GET /users/:id
    answers 200.
  */
  lemma SignUpTokenOpensProfile(store: Store, body: Body, env: Environment, later: nat)
    requires StoreInvariant(store)
    requires SignUpOutcome(store, body, env.newId, env.saveSalt, env.now).0.status == 201
    requires later < env.now + Jwt.Lifetime
    ensures var out := SignUpOutcome(store, body, env.newId, env.saveSalt, env.now);
      && StoreInvariant(out.1)
      && out.0.payload.SignedUp?
      && Dispatch(out.1, GetUserRequest(env.newId), Some(BearerPrefix + out.0.payload.token), env.(now := later)).0.status == 200
  {
    var out := SignUpOutcome(store, body, env.newId, env.saveSalt, env.now);
    SignUpCreates(store, body, env.newId, env.saveSalt, env.now);
    SignUpPreservesInvariant(store, body, env.newId, env.saveSalt, env.now);
    var token := out.0.payload.token;
    assert Jwt.Verify(token, later).Some?;
    VerifiedTokenOpensProfile(out.1, env.newId, token, env.(now := later));
  }
}
