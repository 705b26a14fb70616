/** The responses the account service sends: a status code and a JSON body. */
module Http {
  import opened Roles
  import opened UserModel

  /** The user summary `login` returns: no password and no picture. */
  datatype LoginView = LoginView(email: string, name: string, role: Role, userId: UserId)

  /** A user document read with `select("-password")`: every path but the password. */
  datatype UserView = UserView(id: UserId, email: string, name: string, role: Role, profilePicture: string)

  function View(id: UserId, u: User): (v: UserView)
    ensures v.id == id && v.email == u.email && v.name == u.name && v.role == u.role && v.profilePicture == u.profilePicture
    ensures forall p :: v == UserView(id, u.(password := p).email, u.(password := p).name, u.(password := p).role, u.(password := p).profilePicture)
  {
    UserView(id, u.email, u.name, u.role, u.profilePicture)
  }

  datatype Payload =
    | Message(error: string)                                  // `{ error }`
    | SignedUp(id: UserId, user: User, token: string)         // `{ user, token }`, the saved document
    | LoggedIn(view: LoginView, token: string)                // `{ user: { email, name, role, UserId }, token }`
    | Profile(record: UserView)                               // one document without its password
    | Listing(users: set<UserView>)                           // the documents `find` returned, without passwords
    | Document(id: UserId, user: User)                        // a saved document, as `res.send(user)` writes it

  datatype Response = Response(status: int, payload: Payload)
}
