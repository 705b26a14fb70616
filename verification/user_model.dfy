/**
  The user schema and the collection it is stored in: casting a request body into a
  document (setters and defaults), the validators run on save, the unique index on email,
  the `pre("save")` hook that hashes the password, and `comparePassword`.
*/
module UserModel {
  import opened Results
  import opened Text
  import opened Roles
  import Bcrypt

  type UserId = nat

  /** A parsed request body: field name to string value. */
  type Body = map<string, string>

  const DefaultRole: string := "USER"
  const DefaultProfilePicture: string := "default_profile_picture.png"
  const MinPasswordLength: nat := 6
  const MinNameLength: nat := 3
  const MaxNameLength: nat := 50

  const SchemaPaths: set<string> := {"email", "password", "name", "role", "profilePicture"}

  /** A stored user document; `password` holds what the save hook left there, normally a bcrypt hash. */
  datatype User = User(email: string, password: string, name: string, role: Role, profilePicture: string)
  {
    /** `comparePassword(candidate)`: bcrypt's verdict on `candidate` against the stored hash. */
    function ComparePassword(candidate: string): (r: bool)
      ensures r <==> exists salt: Bcrypt.Salt :: password == Bcrypt.Hash(candidate, salt)
    {
      if Bcrypt.Compare(candidate, password) then
        var salt: Bcrypt.Salt := password[|Bcrypt.Prefix|..|Bcrypt.Prefix| + Bcrypt.SaltLength];
        assert password == Bcrypt.Hash(candidate, salt);
        true
      else
        false
    }
  }

  /** The values of a document's schema paths before validation; an absent value is "". */
  datatype Draft = Draft(email: string, password: string, name: string, role: string, profilePicture: string)

  /** A stored user seen as document values (the role as its stored string). */
  function DraftOf(u: User): Draft {
    Draft(u.email, u.password, u.name, RoleName(u.role), u.profilePicture)
  }

  /** The two schema paths of equal length differ in their first letter. */
  lemma NameIsNotRole()
    ensures "name" != "role"
  {
    assert "name"[0] != "role"[0];
  }

  function Field(d: Draft, path: string): string
    requires path in SchemaPaths
  {
    if path == "email" then d.email
    else if path == "password" then d.password
    else if path == "name" then d.name
    else if path == "role" then d.role
    else d.profilePicture
  }

  function WithField(d: Draft, path: string, v: string): (r: Draft)
    requires path in SchemaPaths
    ensures Field(r, path) == v
    ensures forall p :: p in SchemaPaths && p != path ==> Field(r, p) == Field(d, p)
  {
    if path == "email" then d.(email := v)
    else if path == "password" then d.(password := v)
    else if path == "name" then d.(name := v)
    else if path == "role" then d.(role := v)
    else d.(profilePicture := v)
  }

  predicate IsNormalizedEmail(s: string) {
    IsTrimmed(s) && forall k :: 0 <= k < |s| ==> !IsUpper(s[k])
  }

  /** The email path's setters, `lowercase: true` then `trim: true`. */
  function NormalizeEmail(s: string): (r: string)
    ensures IsNormalizedEmail(r)
  {
    Trim(Lower(s))
  }

  /** The setters are idempotent: a stored address goes through them unchanged. */
  lemma NormalizeNormalized(s: string)
    requires IsNormalizedEmail(s)
    ensures NormalizeEmail(s) == s
  {
    LowerNoUpper(s);
    TrimTrimmed(s);
  }

  /** The setters a value assigned to `path` goes through. */
  function Setter(path: string, v: string): (r: string)
    ensures path == "email" ==> IsNormalizedEmail(r)
    ensures path == "name" ==> IsTrimmed(r)
    ensures path != "email" && path != "name" ==> r == v
  {
    if path == "email" then NormalizeEmail(v) else if path == "name" then Trim(v) else v
  }

  /** Assigning a value the setters produced assigns it unchanged, so repeating an assignment changes nothing. */
  lemma SetterIdempotent(path: string, v: string)
    ensures Setter(path, Setter(path, v)) == Setter(path, v)
  {
    if path == "email" {
      NormalizeNormalized(NormalizeEmail(v));
    } else if path == "name" {
      TrimTrimmed(Trim(v));
    }
  }

  /**
    `new User(body)`: each schema path present in the body goes through its setters,
    `role` and `profilePicture` fall back to their defaults, other keys are dropped.
  */
  function Cast(body: Body): (d: Draft)
    ensures d.email == if "email" in body then NormalizeEmail(body["email"]) else ""
    ensures d.password == if "password" in body then body["password"] else ""
    ensures d.name == if "name" in body then Trim(body["name"]) else ""
    ensures d.role == if "role" in body then body["role"] else DefaultRole
    ensures d.profilePicture == if "profilePicture" in body then body["profilePicture"] else DefaultProfilePicture
  {
    Draft(
      if "email" in body then NormalizeEmail(body["email"]) else "",
      if "password" in body then body["password"] else "",
      if "name" in body then Trim(body["name"]) else "",
      if "role" in body then body["role"] else DefaultRole,
      if "profilePicture" in body then body["profilePicture"] else DefaultProfilePicture)
  }

  /**
    The email path's `match: /\S+@\S+\.\S+/`. The expression is not anchored, so it is
    enough that some infix has the shape: a non-space, '@', non-spaces, '.', a non-space.
  */
  predicate MatchesEmailPattern(s: string)
    ensures MatchesEmailPattern(s) ==> |s| >= 5 && '@' in s && '.' in s
  {
    exists i, j | 0 < i < j < |s| :: EmailShapeAt(s, i, j)
  }

  /**
    An infix of `s` has the pattern's shape with its '@' at `i` and its '.' at `j`: a
    non-space before the '@', non-spaces between, a non-space after the '.'.
  */
  predicate EmailShapeAt(s: string, i: int, j: int)
    ensures EmailShapeAt(s, i, j) ==> 0 < i && j + 2 <= |s| && forall k :: i - 1 <= k <= j + 1 ==> !IsSpace(s[k])
  {
    && 0 < i < |s| && i + 1 < j < |s| - 1 && s[i] == '@' && s[j] == '.'
    && !IsSpace(s[i - 1]) && !IsSpace(s[j + 1])
    && forall k :: i < k < j ==> !IsSpace(s[k])
  }

  /** The pattern is unanchored: any text around a matching string, spaces included, still matches. */
  lemma PatternIsUnanchored(p: string, s: string, q: string)
    requires MatchesEmailPattern(s)
    ensures MatchesEmailPattern(p + s + q)
  {
    var i, j :| 0 < i < j < |s| && EmailShapeAt(s, i, j);
    var t, n := p + s + q, |p|;
    forall k | 0 <= k < |s|
      ensures t[n + k] == s[k]
    {
    }
    forall k | i + n < k < j + n
      ensures !IsSpace(t[k])
    {
      assert t[n + (k - n)] == s[k - n];
    }
    assert EmailShapeAt(t, i + n, j + n);
  }

  /** A string in which no '.' follows an '@' never matches, whatever else it holds. */
  lemma PatternNeedsDotAfterAt(s: string)
    requires forall i, j | 0 <= i < j < |s| :: s[i] == '@' ==> s[j] != '.'
    ensures !MatchesEmailPattern(s)
  {
    forall i, j | 0 < i < j < |s| && EmailShapeAt(s, i, j)
      ensures false
    {
    }
  }

  /**
    The paths whose validators fail: `required` (an empty value fails the length bounds
    and the pattern too), the email `match`, password `minlength`, name `minlength` and
    `maxlength`, and the role `enum`.
  */
  function Violations(d: Draft): (v: set<string>)
    ensures v <= SchemaPaths && "profilePicture" !in v
    ensures "email" in v <==> !MatchesEmailPattern(d.email)
    ensures "password" in v <==> |d.password| < MinPasswordLength
    ensures "name" in v <==> !(MinNameLength <= |d.name| <= MaxNameLength)
    ensures "role" in v <==> ParseRole(d.role).None?
    ensures v == {} ==> d.email != [] && d.password != [] && d.name != []
  {
    (if MatchesEmailPattern(d.email) then {} else {"email"})
    + (if |d.password| >= MinPasswordLength then {} else {"password"})
    + (if MinNameLength <= |d.name| <= MaxNameLength then {} else {"name"})
    + (if ParseRole(d.role).Some? then {} else {"role"})
  }

  /** `validate()`: the typed record when every validator passes, the failing paths otherwise. */
  function Validate(d: Draft): (r: Result<User, set<string>>)
    ensures r.Success? <==>
      && MatchesEmailPattern(d.email)
      && |d.password| >= MinPasswordLength
      && MinNameLength <= |d.name| <= MaxNameLength
      && ParseRole(d.role).Some?
    ensures r.Success? ==> DraftOf(r.value) == d
    ensures r.Failure? ==> r.error == Violations(d) && r.error != {}
  {
    var v := Violations(d);
    if v != {} then Failure(v)
    else Success(User(d.email, d.password, d.name, ParseRole(d.role).value, d.profilePicture))
  }

  /** A stored user whose values pass every validator. */
  predicate Conforms(u: User)
    ensures Conforms(u) <==> Validate(DraftOf(u)) == Success(u)
  {
    ParseRoleName(u.role);
    Violations(DraftOf(u)) == {}
  }

  /**
    What `new User(body)` followed by validation accepts, and what the record then holds:
    the email lower-cased and trimmed, the password as given and at least 6 long, the
    name trimmed and 3 to 50 long, the role one of the four (USER when absent), the
    default picture when none is given.
  */
  lemma AcceptedBody(body: Body)
    requires Validate(Cast(body)).Success?
    ensures var u := Validate(Cast(body)).value;
      && "email" in body && u.email == NormalizeEmail(body["email"]) && MatchesEmailPattern(u.email)
      && "password" in body && u.password == body["password"] && |u.password| >= MinPasswordLength
      && "name" in body && u.name == Trim(body["name"]) && MinNameLength <= |u.name| <= MaxNameLength
      && ("role" in body ==> ParseRole(body["role"]) == Some(u.role))
      && ("role" !in body ==> u.role == USER)
      && ("profilePicture" !in body ==> u.profilePicture == DefaultProfilePicture)
  {
    var d := Cast(body);
    assert d.email != [] && d.password != [] && d.name != [];
  }

  type Store = map<UserId, User>

  /** The unique index on email: no two stored users share an address. */
  ghost predicate EmailsUnique(store: Store)
    ensures EmailsUnique(store) <==>
      forall a, b :: a in store && b in store && a != b ==> store[a].email != store[b].email
  {
    forall a, b :: a in store && b in store && store[a].email == store[b].email ==> a == b
  }

  /** What holds of the collection at all times: the unique index, and every document as setters and validators leave it. */
  ghost predicate StoreInvariant(store: Store)
    ensures StoreInvariant(store) ==>
      && EmailsUnique(store)
      && forall id :: id in store ==> Validate(DraftOf(store[id])) == Success(store[id])
  {
    && EmailsUnique(store)
    && forall id :: id in store ==> Conforms(store[id]) && IsNormalizedEmail(store[id].email)
  }

  /** `User.findOne({ email })`; mongoose applies the path's setters to the filter value. */
  function FindByEmail(store: Store, email: string): (r: Option<UserId>)
    requires EmailsUnique(store)
    ensures r.Some? ==> r.value in store && store[r.value].email == NormalizeEmail(email)
    ensures r.None? ==> forall id :: id in store ==> store[id].email != NormalizeEmail(email)
  {
    var e := NormalizeEmail(email);
    if exists id :: id in store && store[id].email == e then
      var id :| id in store && store[id].email == e;
      Some(id)
    else
      None
  }

  /** A mongoose document in memory: its id, whether it is unsaved, its values, and the paths `isModified` reports. */
  datatype DocState = DocState(id: UserId, isNew: bool, draft: Draft, modified: set<string>)

  /** `new User(body)` with the id the driver generated: every schema path the body sets counts as modified. */
  function Created(id: UserId, body: Body): (st: DocState)
    ensures st.id == id && st.isNew
    ensures st.modified <= SchemaPaths && ("password" in st.modified <==> "password" in body)
    ensures IsNormalizedEmail(st.draft.email)
  {
    DocState(id, true, Cast(body), body.Keys * SchemaPaths)
  }

  /** `User.findById(id)` of a stored user: nothing modified yet. */
  function Loaded(id: UserId, u: User): (st: DocState)
    ensures st.id == id && !st.isNew && st.modified == {}
    ensures Conforms(u) ==> Validate(st.draft) == Success(u)
  {
    ParseRoleName(u.role);
    DocState(id, false, DraftOf(u), {})
  }

  /** `doc[path] = v`: the value goes through the setters; the path is marked modified when the value changes. */
  function Assigned(st: DocState, path: string, v: string): (r: DocState)
    requires path in SchemaPaths
    ensures Field(r.draft, path) == Setter(path, v)
    ensures forall p :: p in SchemaPaths && p != path ==> Field(r.draft, p) == Field(st.draft, p)
    ensures path in r.modified <==> path in st.modified || Setter(path, v) != Field(st.draft, path)
  {
    var nv := Setter(path, v);
    DocState(st.id, st.isNew, WithField(st.draft, path, nv),
             if nv != Field(st.draft, path) then st.modified + {path} else st.modified)
  }

  function Pick(d: Draft, body: Body, keys: set<string>, path: string): string
    requires keys <= body.Keys && path in SchemaPaths
  {
    if path in keys then Setter(path, body[path]) else Field(d, path)
  }

  /** The document after `doc[k] = body[k]` for every `k` in `keys`, in whatever order: each path is assigned once. */
  function AssignedAll(st: DocState, body: Body, keys: set<string>): (r: DocState)
    requires keys <= body.Keys && keys <= SchemaPaths
    ensures r.id == st.id && r.isNew == st.isNew
    ensures st.modified <= r.modified <= st.modified + keys
  {
    var d := st.draft;
    DocState(st.id, st.isNew,
             Draft(Pick(d, body, keys, "email"), Pick(d, body, keys, "password"), Pick(d, body, keys, "name"),
                   Pick(d, body, keys, "role"), Pick(d, body, keys, "profilePicture")),
             st.modified + Changed(d, body, keys))
  }

  /** The paths among `keys` whose new value differs from the one in `d`. */
  function Changed(d: Draft, body: Body, keys: set<string>): set<string>
    requires keys <= body.Keys && keys <= SchemaPaths
  {
    set p | p in keys && Setter(p, body[p]) != Field(d, p)
  }

  lemma ChangedOneMore(d: Draft, body: Body, keys: set<string>, k: string)
    requires keys <= body.Keys && keys <= SchemaPaths
    requires k in body && k in SchemaPaths && k !in keys
    ensures Changed(d, body, keys + {k})
         == if Setter(k, body[k]) != Field(d, k) then Changed(d, body, keys) + {k} else Changed(d, body, keys)
  {
  }

  lemma AssignedNone(st: DocState, body: Body)
    ensures AssignedAll(st, body, {}) == st
  {
  }

  lemma FieldOfAssignedAll(st: DocState, body: Body, keys: set<string>, p: string)
    requires keys <= body.Keys && keys <= SchemaPaths && p in SchemaPaths
    ensures Field(AssignedAll(st, body, keys).draft, p) == Pick(st.draft, body, keys, p)
  {
    if p == "email" {
    } else if p == "password" {
    } else if p == "name" {
    } else if p == "role" {
    } else {
      assert p == "profilePicture";
    }
  }

  /** Assigning one more key, not assigned before, extends the set of assigned keys. */
  lemma AssignedOneMore(st: DocState, body: Body, keys: set<string>, k: string)
    requires keys <= body.Keys && keys <= SchemaPaths
    requires k in body && k in SchemaPaths && k !in keys
    ensures Assigned(AssignedAll(st, body, keys), k, body[k]) == AssignedAll(st, body, keys + {k})
  {
    DraftOneMore(st, body, keys, k);
    ModifiedOneMore(st, body, keys, k);
  }

  lemma DraftOneMore(st: DocState, body: Body, keys: set<string>, k: string)
    requires keys <= body.Keys && keys <= SchemaPaths
    requires k in body && k in SchemaPaths && k !in keys
    ensures Assigned(AssignedAll(st, body, keys), k, body[k]).draft == AssignedAll(st, body, keys + {k}).draft
  {
    var lhs := Assigned(AssignedAll(st, body, keys), k, body[k]).draft;
    var rhs := AssignedAll(st, body, keys + {k}).draft;
    forall p | p in SchemaPaths
      ensures Field(lhs, p) == Field(rhs, p)
    {
      FieldOfAssignedAll(st, body, keys, p);
      FieldOfAssignedAll(st, body, keys + {k}, p);
    }
    DraftByFields(lhs, rhs);
  }

  lemma ModifiedOneMore(st: DocState, body: Body, keys: set<string>, k: string)
    requires keys <= body.Keys && keys <= SchemaPaths
    requires k in body && k in SchemaPaths && k !in keys
    ensures Assigned(AssignedAll(st, body, keys), k, body[k]).modified == AssignedAll(st, body, keys + {k}).modified
  {
    FieldOfAssignedAll(st, body, keys, k);
    ChangedOneMore(st.draft, body, keys, k);
  }

  /** Drafts that agree on every schema path are equal. */
  lemma DraftByFields(a: Draft, b: Draft)
    requires forall p :: p in SchemaPaths ==> Field(a, p) == Field(b, p)
    ensures a == b
  {
    assert Field(a, "email") == Field(b, "email");
    assert Field(a, "password") == Field(b, "password");
    assert Field(a, "name") == Field(b, "name");
    assert Field(a, "role") == Field(b, "role");
    assert Field(a, "profilePicture") == Field(b, "profilePicture");
  }

  /** The `pre("save")` hook: hash the password when, and only when, that path is modified. */
  function Hooked(st: DocState, salt: Bcrypt.Salt): (r: DocState)
    ensures r.id == st.id && r.isNew == st.isNew && r.modified == st.modified
    ensures r.draft.(password := st.draft.password) == st.draft
    ensures "password" in st.modified ==>
      Bcrypt.Compare(st.draft.password, r.draft.password) && |r.draft.password| > |st.draft.password|
    ensures "password" !in st.modified ==> r == st
  {
    if "password" in st.modified then st.(draft := st.draft.(password := Bcrypt.Hash(st.draft.password, salt)))
    else st
  }

  datatype SaveError =
    | Invalid(paths: set<string>)  // a ValidationError
    | DuplicateKey                 // a write refused by a unique index (code 11000)

  /**
    `doc.save()`: validation first, then the pre-save hook, then the write, which a
    unique index refuses when an unsaved document reuses a stored id or the email
    belongs to another stored user. The result is the record written.
  */
  function SaveOutcome(store: Store, st: DocState, salt: Bcrypt.Salt): (r: Result<User, SaveError>)
    ensures (r.Failure? && r.error.Invalid?) <==> Violations(st.draft) != {}
    ensures r.Failure? && r.error.Invalid? ==> r.error.paths == Violations(st.draft)
    ensures r == Failure(DuplicateKey) <==>
      && Violations(st.draft) == {}
      && ((st.isNew && st.id in store) || exists other :: other in store && other != st.id && store[other].email == st.draft.email)
    ensures r.Success? ==>
      && Conforms(r.value) && r.value.email == st.draft.email
      && forall other :: other in store && other != st.id ==> store[other].email != r.value.email
  {
    var v := Violations(st.draft);
    if v != {} then Failure(Invalid(v))
    else
      var d := Hooked(st, salt).draft;
      var u := User(d.email, d.password, d.name, ParseRole(d.role).value, d.profilePicture);
      if (st.isNew && st.id in store) || exists other :: other in store && other != st.id && store[other].email == u.email
      then Failure(DuplicateKey)
      else Success(u)
  }

  /**
    What a save writes: the validated values, with the password replaced by its hash
    exactly when the password path was modified; an unmodified stored hash is kept.
  */
  lemma SaveHashesWhenModified(store: Store, st: DocState, salt: Bcrypt.Salt)
    requires SaveOutcome(store, st, salt).Success?
    ensures var u := SaveOutcome(store, st, salt).value;
      && Validate(st.draft).Success?
      && u == Validate(st.draft).value.(password := u.password)
      && u.password == if "password" in st.modified then Bcrypt.Hash(st.draft.password, salt) else st.draft.password
  {
  }

  /** A successful save keeps the collection's invariant, provided the email went through its setters. */
  lemma SavePreservesInvariant(store: Store, st: DocState, salt: Bcrypt.Salt)
    requires StoreInvariant(store)
    requires IsNormalizedEmail(st.draft.email)
    requires SaveOutcome(store, st, salt).Success?
    ensures StoreInvariant(store[st.id := SaveOutcome(store, st, salt).value])
  {
    var u := SaveOutcome(store, st, salt).value;
    var store' := store[st.id := u];
    assert Violations(st.draft) == {};
    assert RoleName(u.role) == st.draft.role;
    assert Conforms(u) && IsNormalizedEmail(u.email);
    forall id | id in store'
      ensures Conforms(store'[id]) && IsNormalizedEmail(store'[id].email)
    {
      if id != st.id {
        assert store'[id] == store[id];
      }
    }
    forall a, b | a in store' && b in store' && store'[a].email == store'[b].email
      ensures a == b
    {
      if a != st.id && b != st.id {
        assert store[a].email == store[b].email;
      }
    }
  }

  /** `comparePassword` on a hash of `p` accepts `p` and nothing else. */
  lemma ComparePasswordOnHash(u: User, p: string, salt: Bcrypt.Salt, candidate: string)
    requires u.password == Bcrypt.Hash(p, salt)
    ensures u.ComparePassword(candidate) <==> candidate == p
  {
  }

  /** A mongoose document of the user model. */
  class UserDocument {
    const id: UserId
    var isNew: bool
    var email: string
    var password: string
    var name: string
    var role: string
    var profilePicture: string
    var modified: set<string>

    function State(): DocState
      reads this
    {
      DocState(id, isNew, Draft(email, password, name, role, profilePicture), modified)
    }

    /** `new User(body)`. */
    constructor FromBody(id: UserId, body: Body)
      ensures State() == Created(id, body)
    {
      var d := Cast(body);
      this.id := id;
      isNew := true;
      email, password, name, role, profilePicture := d.email, d.password, d.name, d.role, d.profilePicture;
      modified := body.Keys * SchemaPaths;
    }

    /** `User.findById(id)` for a stored user. */
    constructor Load(id: UserId, u: User)
      ensures State() == Loaded(id, u)
    {
      this.id := id;
      isNew := false;
      email, password, name, role, profilePicture := u.email, u.password, u.name, RoleName(u.role), u.profilePicture;
      modified := {};
    }

    /** `doc[path] = value`. */
    method Set(path: string, value: string)
      requires path in SchemaPaths
      modifies this
      ensures State() == Assigned(old(State()), path, value)
    {
      var v := Setter(path, value);
      if v != Field(State().draft, path) {
        modified := modified + {path};
      }
      if path == "email" {
        email := v;
      } else if path == "password" {
        password := v;
      } else if path == "name" {
        name := v;
      } else if path == "role" {
        role := v;
      } else {
        profilePicture := v;
      }
    }

    /** The `pre("save")` hook. */
    method PreSave(salt: Bcrypt.Salt)
      modifies this
      ensures State() == Hooked(old(State()), salt)
    {
      if "password" in modified {
        password := Bcrypt.Hash(password, salt);
      }
    }

    /**
      `doc.save()` against `store`: the outcome, and the collection afterwards. A document
      that fails validation is left as it was; one the unique index refuses keeps the
      password the hook already hashed in memory.
    */
    method Save(store: Store, salt: Bcrypt.Salt) returns (r: Result<User, SaveError>, store': Store)
      modifies this
      ensures r == SaveOutcome(store, old(State()), salt)
      ensures store' == if r.Success? then store[id := r.value] else store
      ensures r.Success? ==> State() == DocState(id, false, DraftOf(r.value), {})
      ensures r.Failure? && r.error.Invalid? ==> State() == old(State())
      ensures r == Failure(DuplicateKey) ==> State() == Hooked(old(State()), salt)
    {
      var violations := Violations(State().draft);
      if violations != {} {
        return Failure(Invalid(violations)), store;
      }
      PreSave(salt);
      var u := User(email, password, name, ParseRole(role).value, profilePicture);
      if (isNew && id in store) || exists other :: other in store && other != id && store[other].email == u.email {
        return Failure(DuplicateKey), store;
      }
      isNew, modified := false, {};
      return Success(u), store[id := u];
    }
  }
}
