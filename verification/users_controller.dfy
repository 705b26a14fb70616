/**
  The account handlers: `signUp`, `login`, `getOneUser`, `getAllUsers` and `updateUser`,
  and the upload filter. Each handler is a chain of checks ending in a status code; the
  ones that write go through a `UserDocument` and its `Save`. Each handler's outcome is a
  function of the store and the request, and the handlers that work on a document are
  methods proved to produce exactly that outcome.
*/
module UsersController {
  import opened Results
  import opened Text
  import opened Roles
  import opened UserModel
  import opened Http
  import Bcrypt
  import Jwt

  const FieldsRequired: string := "Email, password, and role are required"
  const InvalidRole: string := "Invalid role"
  const EmailInUse: string := "Email already in use"
  const InvalidData: string := "Invalid data"
  const DuplicateKeyError: string := "Duplicate key error"
  const CredentialsRequired: string := "Email and password are required"
  const InvalidCredentials: string := "Invalid email or password"
  const UserNotFound: string := "User not found"
  const InvalidUpdates: string := "Invalid updates"
  const Unexpected: string := "An unexpected error occurred"
  const ImageFormatRequired: string := "Please upload an image in JPG or PNG format"

  /** The body keys `updateUser` accepts. */
  const AllowedUpdates: set<string> := {"name", "password", "profilePicture"}

  // ---------------------------------------------------------------- upload filter

  datatype FileVerdict = Accept | Reject(message: string)

  /** `fileFilter`: JPEG and PNG images pass, anything else is refused with an error. */
  function FileFilter(mimetype: string): (v: FileVerdict)
    ensures v.Accept? <==> mimetype == "image/jpeg" || mimetype == "image/png"
    ensures v.Reject? ==> v.message == ImageFormatRequired
  {
    if mimetype == "image/jpeg" || mimetype == "image/png" then Accept else Reject(ImageFormatRequired)
  }

  /** A body value JavaScript treats as true: present and not the empty string. */
  predicate Truthy(body: Body, key: string)
    ensures !Truthy(body, key) <==> key !in body || |body[key]| == 0
  {
    key in body && body[key] != ""
  }

  // ---------------------------------------------------------------- signUp

  /**
    `signUp`: the required fields and the role are checked, then the email is looked up,
    then the document is built from the whole body and saved. `newId` is the id the new
    document receives, `salt` the one the save hook draws and `now` the signing time.
  */
  function SignUpOutcome(store: Store, body: Body, newId: UserId, salt: Bcrypt.Salt, now: nat): (r: (Response, Store))
    requires EmailsUnique(store)
    ensures r.0.status in {201, 400, 409}
    ensures r.0.status != 201 ==> r.1 == store
  {
    if !Truthy(body, "email") || !Truthy(body, "password") || !Truthy(body, "role") then
      (Response(400, Message(FieldsRequired)), store)
    else if ParseRole(body["role"]).None? then
      (Response(400, Message(InvalidRole)), store)
    else if FindByEmail(store, body["email"]).Some? then
      (Response(409, Message(EmailInUse)), store)
    else
      SignUpReply(store, newId, SaveOutcome(store, Created(newId, body), salt), now)
  }

  /**
    Lines 65-90 after the save: a validation error answers 400 and a unique-index refusal
    409, both leaving the store as it was; a saved record answers 201 with a token.
  */
  function SignUpReply(store: Store, newId: UserId, saved: Result<User, SaveError>, now: nat): (r: (Response, Store))
    ensures r.0.status in {201, 400, 409}
    ensures r.0.status == 201 <==> saved.Success?
    ensures saved.Failure? && saved.error.Invalid? ==> r == (Response(400, Message(InvalidData)), store)
    ensures saved == Failure(DuplicateKey) ==> r == (Response(409, Message(DuplicateKeyError)), store)
  {
    match saved
    case Failure(Invalid(_)) => (Response(400, Message(InvalidData)), store)
    case Failure(DuplicateKey) => (Response(409, Message(DuplicateKeyError)), store)
    case Success(u) => (Response(201, SignedUp(newId, u, Jwt.Sign(newId, u.role, now))), store[newId := u])
  }

  /** The handler itself: build the document from the body and save it. */
  method SignUp(store: Store, body: Body, newId: UserId, salt: Bcrypt.Salt, now: nat) returns (response: Response, store': Store)
    requires EmailsUnique(store)
    ensures (response, store') == SignUpOutcome(store, body, newId, salt, now)
  {
    if !Truthy(body, "email") || !Truthy(body, "password") || !Truthy(body, "role") {
      return Response(400, Message(FieldsRequired)), store;
    }
    if ParseRole(body["role"]).None? {
      return Response(400, Message(InvalidRole)), store;
    }
    if FindByEmail(store, body["email"]).Some? {
      return Response(409, Message(EmailInUse)), store;
    }
    var doc := new UserDocument.FromBody(newId, body);
    var saved;
    saved, store' := doc.Save(store, salt);
    match saved
    case Failure(Invalid(_)) =>
      response := Response(400, Message(InvalidData));
    case Failure(DuplicateKey) =>
      response := Response(409, Message(DuplicateKeyError));
    case Success(u) =>
      var token := Jwt.Sign(newId, u.role, now);
      response := Response(201, SignedUp(newId, u, token));
  }

  /** Lines 44-61 pass: email, password and role are present, the role is one of the four and the address is free. */
  predicate Admitted(store: Store, body: Body)
    requires EmailsUnique(store)
  {
    && Truthy(body, "email") && Truthy(body, "password") && Truthy(body, "role")
    && ParseRole(body["role"]).Some?
    && FindByEmail(store, body["email"]).None?
  }

  /** A request the first checks turn away answers 400 or 409 and writes nothing; an admitted one is answered by its save. */
  lemma SignUpChecksFirst(store: Store, body: Body, newId: UserId, salt: Bcrypt.Salt, now: nat)
    requires EmailsUnique(store)
    ensures !Admitted(store, body) ==>
      SignUpOutcome(store, body, newId, salt, now).0.status in {400, 409}
      && SignUpOutcome(store, body, newId, salt, now).1 == store
    ensures Admitted(store, body) ==>
      SignUpOutcome(store, body, newId, salt, now) == SignUpReply(store, newId, SaveOutcome(store, Created(newId, body), salt), now)
  {
    if !Truthy(body, "email") || !Truthy(body, "password") || !Truthy(body, "role") {
    } else if ParseRole(body["role"]).None? {
    } else if FindByEmail(store, body["email"]).Some? {
    }
  }

  /**
    An admitted request whose save fails: a cast body that breaks a validator answers 400
    "Invalid data", and a valid one refused by the unique index on `_id` answers 409
    "Duplicate key error"; the email index cannot refuse it, the address being free.
  */
  lemma SignUpSaveRefusals(store: Store, body: Body, newId: UserId, salt: Bcrypt.Salt, now: nat)
    requires EmailsUnique(store)
    ensures Admitted(store, body) ==>
      (SignUpOutcome(store, body, newId, salt, now) == (Response(400, Message(InvalidData)), store)
       <==> Violations(Cast(body)) != {})
    ensures Admitted(store, body) ==>
      (SignUpOutcome(store, body, newId, salt, now) == (Response(409, Message(DuplicateKeyError)), store)
       <==> Violations(Cast(body)) == {} && newId in store)
  {
    SignUpChecksFirst(store, body, newId, salt, now);
    if Admitted(store, body) {
      var st := Created(newId, body);
      assert st.draft == Cast(body);
      assert forall other :: other in store ==> store[other].email != st.draft.email;
    }
  }

  /** After a successful save: 201 with the record and its token, and the record added under the new id. */
  lemma SignUpReplies(store: Store, newId: UserId, saved: Result<User, SaveError>, now: nat)
    ensures saved.Success? ==>
      && SignUpReply(store, newId, saved, now).1 == store[newId := saved.value]
      && SignUpReply(store, newId, saved, now).0.payload == SignedUp(newId, saved.value, Jwt.Sign(newId, saved.value.role, now))
  {
  }

  /** On 201 the store gains exactly one record, under the new id, and every other record is kept. */
  lemma SignUpAddsOneRecord(store: Store, body: Body, newId: UserId, salt: Bcrypt.Salt, now: nat)
    requires EmailsUnique(store)
    requires SignUpOutcome(store, body, newId, salt, now).0.status == 201
    ensures var store' := SignUpOutcome(store, body, newId, salt, now).1;
      && newId !in store && store'.Keys == store.Keys + {newId}
      && |store'.Keys| == |store.Keys| + 1
      && forall id :: id in store ==> store'[id] == store[id]
  {
    SignUpChecksFirst(store, body, newId, salt, now);
    var st := Created(newId, body);
    var saved := SaveOutcome(store, st, salt);
    SignUpReplies(store, newId, saved, now);
    assert saved.Success? && st.isNew;
    assert newId !in store;
    InsertFresh(store, newId, saved.value);
  }

  /** Adding a record under an id not yet used grows the collection by exactly that record. */
  lemma InsertFresh(store: Store, id: UserId, u: User)
    requires id !in store
    ensures store[id := u].Keys == store.Keys + {id}
    ensures |store[id := u].Keys| == |store.Keys| + 1
    ensures forall other :: other in store ==> store[id := u][other] == store[other]
  {
  }

  /** A missing (or empty) email, password or role, or a role outside the enum, answers 400 and writes nothing. */
  lemma SignUpRejectsIncomplete(store: Store, body: Body, newId: UserId, salt: Bcrypt.Salt, now: nat)
    requires EmailsUnique(store)
    requires !Truthy(body, "email") || !Truthy(body, "password") || !Truthy(body, "role")
             || ParseRole(body["role"]).None?
    ensures SignUpOutcome(store, body, newId, salt, now).0.status == 400
    ensures SignUpOutcome(store, body, newId, salt, now).1 == store
  {
  }

  /** A complete request for an address already stored (after lower-casing and trimming) answers 409 and writes nothing. */
  lemma SignUpRejectsTakenEmail(store: Store, body: Body, newId: UserId, salt: Bcrypt.Salt, now: nat, holder: UserId)
    requires EmailsUnique(store)
    requires Truthy(body, "email") && Truthy(body, "password") && Truthy(body, "role")
    requires ParseRole(body["role"]).Some?
    requires holder in store && store[holder].email == NormalizeEmail(body["email"])
    ensures SignUpOutcome(store, body, newId, salt, now) == (Response(409, Message(EmailInUse)), store)
  {
  }

  /**
    Sign-up answers 201 exactly when the request is complete, the role valid, the address
    free, the id new and the cast body valid.
  */
  lemma SignUpSucceedsIff(store: Store, body: Body, newId: UserId, salt: Bcrypt.Salt, now: nat)
    requires EmailsUnique(store)
    ensures SignUpOutcome(store, body, newId, salt, now).0.status == 201 <==>
      && Truthy(body, "email") && Truthy(body, "password") && Truthy(body, "role")
      && ParseRole(body["role"]).Some?
      && (forall id :: id in store ==> store[id].email != NormalizeEmail(body["email"]))
      && newId !in store
      && Validate(Cast(body)).Success?
  {
    SignUpChecksFirst(store, body, newId, salt, now);
    var st := Created(newId, body);
    var saved := SaveOutcome(store, st, salt);
    if Admitted(store, body) {
      SignUpReplies(store, newId, saved, now);
      if Validate(Cast(body)).Success? && newId !in store {
        assert Violations(st.draft) == {};
        assert Hooked(st, salt).draft.email == NormalizeEmail(body["email"]);
        assert saved.Success?;
      }
    } else if && Truthy(body, "email") && Truthy(body, "password") && Truthy(body, "role")
              && ParseRole(body["role"]).Some? {
      var holder := FindByEmail(store, body["email"]).value;
      assert store[holder].email == NormalizeEmail(body["email"]);
    }
  }

  /**
    What a 201 carries: the new record holds the normalised address, the role asked for
    and a hash of the password, which `comparePassword` accepts; the token carries the
    record's id and role and is accepted until an hour after `now`.
  */
  lemma SignUpCreates(store: Store, body: Body, newId: UserId, salt: Bcrypt.Salt, now: nat)
    requires EmailsUnique(store)
    requires SignUpOutcome(store, body, newId, salt, now).0.status == 201
    ensures var out := SignUpOutcome(store, body, newId, salt, now);
      && out.0.payload.SignedUp? && out.0.payload.id == newId && out.1 == store[newId := out.0.payload.user]
      && var u := out.0.payload.user;
      && u.email == NormalizeEmail(body["email"])
      && Some(u.role) == ParseRole(body["role"])
      && u.password == Bcrypt.Hash(body["password"], salt)
      && u.ComparePassword(body["password"])
      && Jwt.Verify(out.0.payload.token, now) == Some(Jwt.Claims(newId, u.role, now, now + Jwt.Lifetime))
  {
    SignUpChecksFirst(store, body, newId, salt, now);
    var st := Created(newId, body);
    var saved := SaveOutcome(store, st, salt);
    SignUpReplies(store, newId, saved, now);
    SaveHashesWhenModified(store, st, salt);
    assert "password" in st.modified;
    Jwt.VerifySigned(newId, saved.value.role, now, now);
  }

  /** Sign-up keeps the unique index and leaves every stored document valid and normalised. */
  lemma SignUpPreservesInvariant(store: Store, body: Body, newId: UserId, salt: Bcrypt.Salt, now: nat)
    requires StoreInvariant(store)
    ensures StoreInvariant(SignUpOutcome(store, body, newId, salt, now).1)
  {
    SignUpChecksFirst(store, body, newId, salt, now);
    if Admitted(store, body) {
      var st := Created(newId, body);
      var saved := SaveOutcome(store, st, salt);
      SignUpReplies(store, newId, saved, now);
      if saved.Success? {
        SavePreservesInvariant(store, st, salt);
      }
    }
  }

  // ---------------------------------------------------------------- login

  /**
    `login`: 400 without an email and a password; the same 401 for an unknown address
    and for a wrong password; otherwise 200 with the user's summary and a fresh token.
  */
  function Login(store: Store, body: Body, now: nat): (r: Response)
    requires EmailsUnique(store)
    ensures r.status in {200, 400, 401}
    ensures r.status == 400 <==> !Truthy(body, "email") || !Truthy(body, "password")
    ensures r.status == 200 <==>
      && Truthy(body, "email") && Truthy(body, "password")
      && exists id :: id in store && store[id].email == NormalizeEmail(body["email"])
                   && store[id].ComparePassword(body["password"])
    ensures r.status == 401 ==> r == Response(401, Message(InvalidCredentials))
  {
    if !Truthy(body, "email") || !Truthy(body, "password") then
      Response(400, Message(CredentialsRequired))
    else
      match FindByEmail(store, body["email"])
      case None => Response(401, Message(InvalidCredentials))
      case Some(id) =>
        var u := store[id];
        if !u.ComparePassword(body["password"]) then Response(401, Message(InvalidCredentials))
        else Response(200, LoggedIn(LoginView(u.email, u.name, u.role, id), Jwt.Sign(id, u.role, now)))
  }

  /**
    A 200 from `login` describes the stored user the address belongs to, whose password
    matched, and its token carries that user's id and role for one hour.
  */
  lemma LoginGrants(store: Store, body: Body, now: nat)
    requires EmailsUnique(store)
    requires Login(store, body, now).status == 200
    ensures var r := Login(store, body, now);
      && r.payload.LoggedIn?
      && var v := r.payload.view;
      && v.userId in store
      && var u := store[v.userId];
      && u.email == NormalizeEmail(body["email"]) && u.ComparePassword(body["password"])
      && v == LoginView(u.email, u.name, u.role, v.userId)
      && Jwt.Verify(r.payload.token, now) == Some(Jwt.Claims(v.userId, u.role, now, now + Jwt.Lifetime))
  {
    var id := FindByEmail(store, body["email"]).value;
    Jwt.VerifySigned(id, store[id].role, now, now);
  }

  /** Non-enumeration: an unknown address and a known address with a wrong password get the same answer. */
  lemma LoginDoesNotRevealAccounts(store: Store, unknown: Body, wrong: Body, now: nat)
    requires EmailsUnique(store)
    requires Truthy(unknown, "email") && Truthy(unknown, "password")
    requires forall id :: id in store ==> store[id].email != NormalizeEmail(unknown["email"])
    requires Truthy(wrong, "email") && Truthy(wrong, "password")
    requires exists id :: id in store && store[id].email == NormalizeEmail(wrong["email"])
    requires forall id :: id in store && store[id].email == NormalizeEmail(wrong["email"])
                          ==> !store[id].ComparePassword(wrong["password"])
    ensures Login(store, unknown, now) == Login(store, wrong, now) == Response(401, Message(InvalidCredentials))
  {
  }

  /** Logging in with a stored user's own address: 200 if the password matches its hash, 401 otherwise. */
  lemma LoginKnownUser(store: Store, id: UserId, password: string, now: nat)
    requires StoreInvariant(store) && id in store && password != ""
    ensures Login(store, map["email" := store[id].email, "password" := password], now).status
         == if store[id].ComparePassword(password) then 200 else 401
  {
    var e := store[id].email;
    var body := map["email" := e, "password" := password];
    NormalizeNormalized(e);
    assert Conforms(store[id]);
    assert body["email"] == e && body["password"] == password;
    assert Truthy(body, "email") && Truthy(body, "password");
    assert FindByEmail(store, body["email"]) == Some(id);
  }

  /** The account sign-up creates can log in with the same email and password. */
  lemma LoginAfterSignUp(store: Store, body: Body, newId: UserId, salt: Bcrypt.Salt, now: nat, later: nat)
    requires StoreInvariant(store)
    requires SignUpOutcome(store, body, newId, salt, now).0.status == 201
    ensures StoreInvariant(SignUpOutcome(store, body, newId, salt, now).1)
    ensures Login(SignUpOutcome(store, body, newId, salt, now).1, body, later).status == 200
  {
    SignUpPreservesInvariant(store, body, newId, salt, now);
    SignUpCreates(store, body, newId, salt, now);
    var store' := SignUpOutcome(store, body, newId, salt, now).1;
    assert newId in store' && store'[newId].email == NormalizeEmail(body["email"]);
  }

  // ---------------------------------------------------------------- getOneUser

  /** `getOneUser`: 404 for an unknown id, otherwise the document without its password. */
  function GetOneUser(store: Store, id: UserId): (r: Response)
    ensures r.status == 404 <==> id !in store
    ensures r.status != 404 ==>
      && r.status == 200 && r.payload.Profile? && r.payload.record.id == id
      && r.payload.record.email == store[id].email && r.payload.record.name == store[id].name
      && r.payload.record.role == store[id].role && r.payload.record.profilePicture == store[id].profilePicture
    ensures r.status == 404 ==> r.payload == Message(UserNotFound)
  {
    if id !in store then Response(404, Message(UserNotFound)) else Response(200, Profile(View(id, store[id])))
  }

  // ---------------------------------------------------------------- getAllUsers

  /** The role filter `getAllUsers` derives from its path parameter; no selector picks SUPERADMIN alone. */
  function RoleFilter(selector: string): (f: Option<Role>)
    ensures selector == "users" ==> f == Some(USER)
    ensures selector == "client" ==> f == Some(CLIENT)
    ensures selector == "admin" ==> f == Some(ADMIN)
    ensures f.None? <==> selector != "users" && selector != "client" && selector != "admin"
    ensures f != Some(SUPERADMIN)
  {
    if selector == "users" then Some(USER)
    else if selector == "client" then Some(CLIENT)
    else if selector == "admin" then Some(ADMIN)
    else None
  }

  /** `find(filter)`: no filter passes everyone; a role filter passes exactly the users holding that role. */
  predicate Passes(f: Option<Role>, u: User)
    ensures f.None? ==> Passes(f, u)
    ensures f.Some? ==> (Passes(f, u) <==> u.role == f.value)
  {
    f.None? || u.role == f.value
  }

  /** `getAllUsers`: every stored user the filter passes, each without its password, and no one else. */
  function GetAllUsers(store: Store, selector: string): (r: Response)
    ensures r.status == 200 && r.payload.Listing?
    ensures forall v :: v in r.payload.users ==>
      v.id in store && v == View(v.id, store[v.id]) && Passes(RoleFilter(selector), store[v.id])
    ensures forall id :: id in store && Passes(RoleFilter(selector), store[id]) ==> View(id, store[id]) in r.payload.users
  {
    var f := RoleFilter(selector);
    Response(200, Listing(set id | id in store && Passes(f, store[id]) :: View(id, store[id])))
  }

  /** A selector other than the three named ones lists every stored user, administrators included. */
  lemma UnknownSelectorListsEveryone(store: Store, selector: string, id: UserId)
    requires selector != "users" && selector != "client" && selector != "admin"
    requires id in store
    ensures View(id, store[id]) in GetAllUsers(store, selector).payload.users
  {
  }

  // ---------------------------------------------------------------- updateUser

  /** Lines 202-211: each body key assigned once, then the uploaded file's path. */
  function Staged(st: DocState, body: Body, file: Option<string>): (r: DocState)
    requires body.Keys <= SchemaPaths
    ensures r.id == st.id && r.isNew == st.isNew
    ensures st.modified <= r.modified <= st.modified + body.Keys + {"profilePicture"}
  {
    var s := AssignedAll(st, body, body.Keys);
    if file.Some? then Assigned(s, "profilePicture", file.value) else s
  }

  /** Lines 213-216: a truthy body password replaces the document's password by its hash. */
  function Rehashed(st: DocState, body: Body, salt: Bcrypt.Salt): (r: DocState)
    ensures !Truthy(body, "password") ==> r == st
    ensures Truthy(body, "password") ==>
      && r.id == st.id && r.isNew == st.isNew && "password" in r.modified
      && Bcrypt.Compare(st.draft.password, r.draft.password)
  {
    if Truthy(body, "password") then Assigned(st, "password", Bcrypt.Hash(st.draft.password, salt)) else st
  }

  /** Lines 218-222: save, then send the document; every failure ends in the generic 500. */
  function SavedResponse(store: Store, st: DocState, salt: Bcrypt.Salt): (r: (Response, Store))
    ensures r.0.status == 200 <==> SaveOutcome(store, st, salt).Success?
    ensures r.0.status != 200 ==> r == (Response(500, Message(Unexpected)), store)
    ensures r.0.status == 200 ==> r.0.payload.Document? && r.0.payload.id == st.id && r.1 == store[st.id := r.0.payload.user]
  {
    match SaveOutcome(store, st, salt)
    case Success(u) => (Response(200, Document(st.id, u)), store[st.id := u])
    case Failure(_) => (Response(500, Message(Unexpected)), store)
  }

  /**
    `updateUser` as written: whitelist, lookup, assignments, the controller's own hash of
    a truthy password with `hashSalt`, then the save, whose hook hashes with `saveSalt`.
  */
  function UpdateOutcome(store: Store, id: UserId, body: Body, file: Option<string>,
                         hashSalt: Bcrypt.Salt, saveSalt: Bcrypt.Salt): (r: (Response, Store))
    ensures r.0.status in {200, 400, 404, 500}
    ensures r.0.status == 400 <==> !(body.Keys <= AllowedUpdates)
    ensures r.0.status == 404 <==> body.Keys <= AllowedUpdates && id !in store
    ensures r.0.status != 200 ==> r.1 == store
  {
    if !(body.Keys <= AllowedUpdates) then (Response(400, Message(InvalidUpdates)), store)
    else if id !in store then (Response(404, Message(UserNotFound)), store)
    else SavedResponse(store, Rehashed(Staged(Loaded(id, store[id]), body, file), body, hashSalt), saveSalt)
  }

  /** `updateUser` without line 215: the save hook alone hashes a new password. */
  function CorrectedUpdateOutcome(store: Store, id: UserId, body: Body, file: Option<string>,
                                  saveSalt: Bcrypt.Salt): (r: (Response, Store))
    ensures r.0.status in {200, 400, 404, 500}
    ensures r.0.status == 400 <==> !(body.Keys <= AllowedUpdates)
    ensures r.0.status == 404 <==> body.Keys <= AllowedUpdates && id !in store
    ensures r.0.status != 200 ==> r.1 == store
  {
    if !(body.Keys <= AllowedUpdates) then (Response(400, Message(InvalidUpdates)), store)
    else if id !in store then (Response(404, Message(UserNotFound)), store)
    else SavedResponse(store, Staged(Loaded(id, store[id]), body, file), saveSalt)
  }

  /** Lines 202-211 on a loaded document: the `forEach` over the body keys, then the upload. */
  method Stage(doc: UserDocument, body: Body, file: Option<string>)
    requires body.Keys <= SchemaPaths
    modifies doc
    ensures doc.State() == Staged(old(doc.State()), body, file)
  {
    AssignEach(doc, body);
    if file.Some? {
      doc.Set("profilePicture", file.value);
    }
  }

  /** Lines 203-205: `user[update] = req.body[update]` for each body key, in any order. */
  method AssignEach(doc: UserDocument, body: Body)
    requires body.Keys <= SchemaPaths
    modifies doc
    ensures doc.State() == AssignedAll(old(doc.State()), body, body.Keys)
  {
    ghost var start := doc.State();
    var pending := body.Keys;
    ghost var done: set<string> := {};
    AssignedNone(start, body);
    while pending != {}
      invariant pending <= body.Keys && done == body.Keys - pending
      invariant doc.State() == AssignedAll(start, body, done)
      decreases |pending|
    {
      var key :| key in pending;
      AssignedOneMore(start, body, done, key);
      doc.Set(key, body[key]);
      pending := pending - {key};
      done := done + {key};
    }
  }

  /** Lines 218-222 on a document. */
  method SaveAndSend(doc: UserDocument, store: Store, salt: Bcrypt.Salt) returns (response: Response, store': Store)
    modifies doc
    ensures (response, store') == SavedResponse(store, old(doc.State()), salt)
    ensures doc.State() == match SaveOutcome(store, old(doc.State()), salt)
                           case Success(u) => DocState(doc.id, false, DraftOf(u), {})
                           case Failure(Invalid(_)) => old(doc.State())
                           case Failure(DuplicateKey) => Hooked(old(doc.State()), salt)
  {
    var saved;
    saved, store' := doc.Save(store, salt);
    match saved
    case Success(u) =>
      response := Response(200, Document(doc.id, u));
    case Failure(_) =>
      response := Response(500, Message(Unexpected));
  }

  /** The handler as written. */
  method UpdateUser(store: Store, id: UserId, body: Body, file: Option<string>,
                    hashSalt: Bcrypt.Salt, saveSalt: Bcrypt.Salt) returns (response: Response, store': Store)
    ensures (response, store') == UpdateOutcome(store, id, body, file, hashSalt, saveSalt)
  {
    if !(body.Keys <= AllowedUpdates) {
      return Response(400, Message(InvalidUpdates)), store;
    }
    if id !in store {
      return Response(404, Message(UserNotFound)), store;
    }
    var doc := new UserDocument.Load(id, store[id]);
    Stage(doc, body, file);
    if Truthy(body, "password") {
      doc.Set("password", Bcrypt.Hash(doc.password, hashSalt));
    }
    response, store' := SaveAndSend(doc, store, saveSalt);
  }

  /** The handler with line 215 removed. */
  method CorrectedUpdateUser(store: Store, id: UserId, body: Body, file: Option<string>,
                             saveSalt: Bcrypt.Salt) returns (response: Response, store': Store)
    ensures (response, store') == CorrectedUpdateOutcome(store, id, body, file, saveSalt)
  {
    if !(body.Keys <= AllowedUpdates) {
      return Response(400, Message(InvalidUpdates)), store;
    }
    if id !in store {
      return Response(404, Message(UserNotFound)), store;
    }
    var doc := new UserDocument.Load(id, store[id]);
    Stage(doc, body, file);
    response, store' := SaveAndSend(doc, store, saveSalt);
  }

  /** What the staging does to a loaded user: only the name, password and picture can change; the name is trimmed. */
  lemma StagedFields(u: User, id: UserId, body: Body, file: Option<string>)
    requires body.Keys <= AllowedUpdates
    ensures var st := Staged(Loaded(id, u), body, file);
      && st.id == id && !st.isNew
      && st.draft.email == u.email && st.draft.role == RoleName(u.role)
      && st.draft.name == (if "name" in body then Trim(body["name"]) else u.name)
      && st.draft.password == (if "password" in body then body["password"] else u.password)
      && st.draft.profilePicture
         == (if file.Some? then file.value else if "profilePicture" in body then body["profilePicture"] else u.profilePicture)
      && ("password" in st.modified <==> "password" in body && body["password"] != u.password)
  {
    var start := Loaded(id, u);
    NameIsNotRole();
    assert "role" !in body && "email" !in body;
    FieldOfAssignedAll(start, body, body.Keys, "email");
    FieldOfAssignedAll(start, body, body.Keys, "password");
    FieldOfAssignedAll(start, body, body.Keys, "name");
    FieldOfAssignedAll(start, body, body.Keys, "role");
    FieldOfAssignedAll(start, body, body.Keys, "profilePicture");
  }

  /** A body key outside name, password and profilePicture (an email or a role, say) answers 400 before any lookup. */
  lemma UpdateRejectsUnlisted(store: Store, id: UserId, body: Body, file: Option<string>,
                              hashSalt: Bcrypt.Salt, saveSalt: Bcrypt.Salt, key: string)
    requires key in body && key !in AllowedUpdates
    ensures UpdateOutcome(store, id, body, file, hashSalt, saveSalt) == (Response(400, Message(InvalidUpdates)), store)
    ensures CorrectedUpdateOutcome(store, id, body, file, saveSalt) == (Response(400, Message(InvalidUpdates)), store)
  {
  }

  /** An unknown id answers 404 and writes nothing. */
  lemma UpdateUnknownUser(store: Store, id: UserId, body: Body, file: Option<string>,
                          hashSalt: Bcrypt.Salt, saveSalt: Bcrypt.Salt)
    requires body.Keys <= AllowedUpdates && id !in store
    ensures UpdateOutcome(store, id, body, file, hashSalt, saveSalt) == (Response(404, Message(UserNotFound)), store)
    ensures CorrectedUpdateOutcome(store, id, body, file, saveSalt) == (Response(404, Message(UserNotFound)), store)
  {
  }

  /**
    A 200 from `updateUser` as written: the record under `id` is replaced and nothing else;
    its email and role are kept, its name and picture are the ones sent, and a password
    sent is stored hashed twice, first by the handler and again by the save hook; without
    a password the stored hash is kept. Any other outcome writes nothing.
  */
  lemma UpdateSavedFields(store: Store, id: UserId, body: Body, file: Option<string>,
                          hashSalt: Bcrypt.Salt, saveSalt: Bcrypt.Salt)
    ensures var out := UpdateOutcome(store, id, body, file, hashSalt, saveSalt);
      out.0.status != 200 ==> out.1 == store
    ensures var out := UpdateOutcome(store, id, body, file, hashSalt, saveSalt);
      out.0.status == 200 ==>
        && id in store && out.0.payload.Document? && out.0.payload.id == id
        && out.1 == store[id := out.0.payload.user]
        && var u, v := store[id], out.0.payload.user;
        && v.email == u.email && v.role == u.role
        && v.name == (if "name" in body then Trim(body["name"]) else u.name)
        && v.profilePicture
           == (if file.Some? then file.value else if "profilePicture" in body then body["profilePicture"] else u.profilePicture)
        && v.password == (if "password" in body then Bcrypt.Hash(Bcrypt.Hash(body["password"], hashSalt), saveSalt) else u.password)
  {
    if body.Keys <= AllowedUpdates && id in store {
      var u := store[id];
      var staged := Staged(Loaded(id, u), body, file);
      StagedFields(u, id, body, file);
      var st := Rehashed(staged, body, hashSalt);
      var saved := SaveOutcome(store, st, saveSalt);
      if saved.Success? {
        SaveHashesWhenModified(store, st, saveSalt);
        ParseRoleName(u.role);
        if "password" in body {
          assert Violations(st.draft) == {};
          assert Truthy(body, "password");
          assert "password" in st.modified;
        }
      }
    }
  }

  /** A 200 from the corrected handler: as above, but a changed password is hashed once, by the save hook. */
  lemma CorrectedUpdateSavedFields(store: Store, id: UserId, body: Body, file: Option<string>, saveSalt: Bcrypt.Salt)
    ensures var out := CorrectedUpdateOutcome(store, id, body, file, saveSalt);
      out.0.status != 200 ==> out.1 == store
    ensures var out := CorrectedUpdateOutcome(store, id, body, file, saveSalt);
      out.0.status == 200 ==>
        && id in store && out.0.payload.Document? && out.0.payload.id == id
        && out.1 == store[id := out.0.payload.user]
        && var u, v := store[id], out.0.payload.user;
        && v.email == u.email && v.role == u.role
        && v.name == (if "name" in body then Trim(body["name"]) else u.name)
        && v.profilePicture
           == (if file.Some? then file.value else if "profilePicture" in body then body["profilePicture"] else u.profilePicture)
        && v.password == (if "password" in body && body["password"] != u.password
                          then Bcrypt.Hash(body["password"], saveSalt) else u.password)
  {
    if body.Keys <= AllowedUpdates && id in store {
      var u := store[id];
      var st := Staged(Loaded(id, u), body, file);
      StagedFields(u, id, body, file);
      var saved := SaveOutcome(store, st, saveSalt);
      if saved.Success? {
        SaveHashesWhenModified(store, st, saveSalt);
        ParseRoleName(u.role);
      }
    }
  }

  /** Both versions of the handler keep the unique index and leave every document valid and normalised. */
  lemma UpdatePreservesInvariant(store: Store, id: UserId, body: Body, file: Option<string>,
                                 hashSalt: Bcrypt.Salt, saveSalt: Bcrypt.Salt)
    requires StoreInvariant(store)
    ensures StoreInvariant(UpdateOutcome(store, id, body, file, hashSalt, saveSalt).1)
    ensures StoreInvariant(CorrectedUpdateOutcome(store, id, body, file, saveSalt).1)
  {
    if body.Keys <= AllowedUpdates && id in store {
      var u := store[id];
      var staged := Staged(Loaded(id, u), body, file);
      StagedFields(u, id, body, file);
      var st := Rehashed(staged, body, hashSalt);
      if SaveOutcome(store, st, saveSalt).Success? {
        SavePreservesInvariant(store, st, saveSalt);
      }
      if SaveOutcome(store, staged, saveSalt).Success? {
        SavePreservesInvariant(store, staged, saveSalt);
      }
    }
  }

  /**
    As written, a password changed through `updateUser` locks its owner out: logging in
    with the stored address and the new password answers 401.
  */
  lemma UpdatedPasswordLocksOut(store: Store, id: UserId, body: Body, file: Option<string>,
                                hashSalt: Bcrypt.Salt, saveSalt: Bcrypt.Salt, now: nat)
    requires StoreInvariant(store)
    requires UpdateOutcome(store, id, body, file, hashSalt, saveSalt).0.status == 200
    requires Truthy(body, "password")
    ensures var store' := UpdateOutcome(store, id, body, file, hashSalt, saveSalt).1;
      && StoreInvariant(store')
      && Login(store', map["email" := store[id].email, "password" := body["password"]], now)
         == Response(401, Message(InvalidCredentials))
  {
    UpdateSavedFields(store, id, body, file, hashSalt, saveSalt);
    UpdatePreservesInvariant(store, id, body, file, hashSalt, saveSalt);
    var store' := UpdateOutcome(store, id, body, file, hashSalt, saveSalt).1;
    Bcrypt.RehashRejectsPlaintext(body["password"], hashSalt, saveSalt);
    LoginKnownUser(store', id, body["password"], now);
  }

  /**
    As written, any non-empty new password is accepted, however short: the length check
    runs on the handler's hash instead of on the password.
  */
  lemma UpdateAcceptsShortPassword(store: Store, id: UserId, p: string, hashSalt: Bcrypt.Salt, saveSalt: Bcrypt.Salt)
    requires StoreInvariant(store) && id in store
    requires p != ""
    ensures UpdateOutcome(store, id, map["password" := p], None, hashSalt, saveSalt).0.status == 200
  {
    var body := map["password" := p];
    var u := store[id];
    StagedFields(u, id, body, None);
    var st := Rehashed(Staged(Loaded(id, u), body, None), body, hashSalt);
    ParseRoleName(u.role);
    assert Violations(st.draft) == {};
  }

  /** With the fix, a changed password is at least 6 characters long and logs in. */
  lemma CorrectedUpdateLogsIn(store: Store, id: UserId, body: Body, file: Option<string>, saveSalt: Bcrypt.Salt, now: nat)
    requires StoreInvariant(store)
    requires CorrectedUpdateOutcome(store, id, body, file, saveSalt).0.status == 200
    requires "password" in body && body["password"] != store[id].password
    ensures var store' := CorrectedUpdateOutcome(store, id, body, file, saveSalt).1;
      && StoreInvariant(store')
      && |body["password"]| >= MinPasswordLength
      && Login(store', map["email" := store[id].email, "password" := body["password"]], now).status == 200
  {
    CorrectedUpdateSavedFields(store, id, body, file, saveSalt);
    UpdatePreservesInvariant(store, id, body, file, saveSalt, saveSalt);
    var store' := CorrectedUpdateOutcome(store, id, body, file, saveSalt).1;
    assert Conforms(store'[id]);
    LoginKnownUser(store', id, body["password"], now);
  }

  /**
    Saving a loaded document that keeps its stored address: the unique index cannot refuse
    it, so the save succeeds exactly when every validator passes.
  */
  lemma SaveKeepingEmail(store: Store, st: DocState, salt: Bcrypt.Salt)
    requires EmailsUnique(store)
    requires !st.isNew && st.id in store && st.draft.email == store[st.id].email
    ensures SaveOutcome(store, st, salt).Success? <==> Violations(st.draft) == {}
  {
    assert forall other :: other in store && other != st.id ==> store[other].email != st.draft.email;
  }

  /**
    `updateUser` as written answers 200 exactly when the keys are allowed, the user exists,
    a name sent trims to 3 to 50 characters and a password sent is not empty: a non-empty
    one is hashed by the handler before `minlength` sees it, an empty one is not.
  */
  lemma UpdateSucceedsIff(store: Store, id: UserId, body: Body, file: Option<string>,
                          hashSalt: Bcrypt.Salt, saveSalt: Bcrypt.Salt)
    requires StoreInvariant(store)
    ensures UpdateOutcome(store, id, body, file, hashSalt, saveSalt).0.status == 200 <==>
      && body.Keys <= AllowedUpdates && id in store
      && ("name" in body ==> MinNameLength <= |Trim(body["name"])| <= MaxNameLength)
      && ("password" in body ==> body["password"] != "")
  {
    if body.Keys <= AllowedUpdates && id in store {
      var u := store[id];
      StagedFields(u, id, body, file);
      assert Conforms(u);
      RehashedValid(u, id, body, file, hashSalt);
      SaveKeepingEmail(store, Rehashed(Staged(Loaded(id, u), body, file), body, hashSalt), saveSalt);
    }
  }

  /** The validators on a stored user after the as-written staging and hash of lines 202-216. */
  lemma RehashedValid(u: User, id: UserId, body: Body, file: Option<string>, hashSalt: Bcrypt.Salt)
    requires Conforms(u) && body.Keys <= AllowedUpdates
    ensures var st := Rehashed(Staged(Loaded(id, u), body, file), body, hashSalt);
      && !st.isNew && st.id == id && st.draft.email == u.email
      && (Violations(st.draft) == {} <==>
          && ("name" in body ==> MinNameLength <= |Trim(body["name"])| <= MaxNameLength)
          && ("password" in body ==> body["password"] != ""))
  {
    StagedFields(u, id, body, file);
    ParseRoleName(u.role);
    var staged := Staged(Loaded(id, u), body, file);
    var st := Rehashed(staged, body, hashSalt);
    assert Violations(DraftOf(u)) == {};
    assert st.draft.email == u.email && st.draft.name == staged.draft.name && st.draft.role == RoleName(u.role);
    assert |st.draft.password| >= MinPasswordLength <==> ("password" in body ==> body["password"] != "") by {
      if Truthy(body, "password") {
        assert |st.draft.password| > |Bcrypt.Prefix| + Bcrypt.SaltLength;
      } else {
        assert st == staged;
      }
    }
  }

  /**
    With the fix, `updateUser` answers 200 exactly when the keys are allowed, the user
    exists, a name sent trims to 3 to 50 characters and a password sent has at least 6.
  */
  lemma CorrectedUpdateSucceedsIff(store: Store, id: UserId, body: Body, file: Option<string>, saveSalt: Bcrypt.Salt)
    requires StoreInvariant(store)
    ensures CorrectedUpdateOutcome(store, id, body, file, saveSalt).0.status == 200 <==>
      && body.Keys <= AllowedUpdates && id in store
      && ("name" in body ==> MinNameLength <= |Trim(body["name"])| <= MaxNameLength)
      && ("password" in body ==> |body["password"]| >= MinPasswordLength)
  {
    if body.Keys <= AllowedUpdates && id in store {
      var u := store[id];
      StagedFields(u, id, body, file);
      var st := Staged(Loaded(id, u), body, file);
      ParseRoleName(u.role);
      assert Conforms(u);
      SaveKeepingEmail(store, st, saveSalt);
    }
  }

  /** With the fix, a new password under 6 characters answers 500 and writes nothing. */
  lemma CorrectedUpdateRejectsShortPassword(store: Store, id: UserId, body: Body, file: Option<string>, saveSalt: Bcrypt.Salt)
    requires StoreInvariant(store)
    requires body.Keys <= AllowedUpdates && id in store
    requires "password" in body && |body["password"]| < MinPasswordLength
    ensures CorrectedUpdateOutcome(store, id, body, file, saveSalt) == (Response(500, Message(Unexpected)), store)
  {
    var u := store[id];
    StagedFields(u, id, body, file);
    assert Violations(Staged(Loaded(id, u), body, file).draft) != {};
  }
}
