/**
 * The tRPC router of the demo server (trpc-demo/src/server.ts) over its
 * in-memory `users` array. The procedures that write the array
 * (`createUser`, `updateUser`) return the next array with their reply; the
 * others, `login` included, return only their reply. Input-schema rejections are
 * `BadRequest`; a record that fails the output schema would make the
 * procedure throw, which the server reports as `InternalServerError`.
 */
module TrpcServer {
  import opened Wrappers
  import opened UserSchemas
  import JsArray

  datatype User = User(id: int, name: string, email: string, password: string)

  /** A user as the procedures return it: the password is dropped. */
  datatype UserView = UserView(id: int, name: string, email: string)

  datatype ErrorCode = BadRequest | Unauthorized | NotFound | InternalServerError

  /** `createUser`'s input. */
  datatype NewUser = NewUser(name: string, email: string, password: string)

  /** `login`'s input. */
  datatype Credentials = Credentials(email: string, password: string)

  /** `updateUser`'s input: the id and, optionally, a new name and a new email. */
  datatype UserPatch = UserPatch(id: int, name: Option<string>, email: Option<string>)

  type Users = seq<User>

  /** The schema library's email-format check, which this model does not define. */
  type EmailRule = string -> bool

  /** The simulated database the server starts with. */
  const InitialUsers: Users := [
    User(1, "Alice", "alice@example.com", "password123"),
    User(2, "Bob", "bob@example.com", "password456")
  ]

  function View(u: User): UserView {
    UserView(u.id, u.name, u.email)
  }

  /** `UserSchema`: the rule every stored user record is meant to satisfy. */
  predicate ValidUser(u: User, isEmail: EmailRule) {
    u.id > 0 && NameOk(u.name) && isEmail(u.email) && PasswordLengthOk(u.password)
  }

  /** `UserWithoutPasswordSchema`. */
  predicate ValidView(v: UserView, isEmail: EmailRule) {
    v.id > 0 && NameOk(v.name) && isEmail(v.email)
  }

  /** `UserWithoutPasswordSchema.parse`: the view itself, or a throw when it breaks the schema. */
  function ParseView(v: UserView, isEmail: EmailRule): (r: Result<UserView, ErrorCode>)
    ensures r.Ok? <==> v.id > 0 && 2 <= |v.name| <= 50 && isEmail(v.email)
    ensures r.Ok? ==> r.value == v
    ensures r.Err? ==> r.error == InternalServerError
  {
    if ValidView(v, isEmail) then Ok(v) else Err(InternalServerError)
  }

  /** Every stored user satisfies `UserSchema` and the user at position `i` has id `i + 1`. */
  predicate StoreInvariant(users: Users, isEmail: EmailRule) {
    forall i :: 0 <= i < |users| ==> ValidUser(users[i], isEmail) && users[i].id == i + 1
  }

  function HasId(id: int): User -> bool {
    (u: User) => u.id == id
  }

  function HasCredentials(c: Credentials): User -> bool {
    (u: User) => u.email == c.email && u.password == c.password
  }

  /** `getUsers`: one view per stored user, in order. */
  function GetUsers(users: Users): (r: seq<UserView>)
    ensures |r| == |users|
    ensures forall i :: 0 <= i < |users| ==>
      r[i].id == users[i].id && r[i].name == users[i].name && r[i].email == users[i].email
  {
    seq(|users|, i requires 0 <= i < |users| => View(users[i]))
  }

  /** `getUserById`: the first user with that id, or `NotFound`. */
  function GetUserById(users: Users, id: int, isEmail: EmailRule): (r: Result<UserView, ErrorCode>)
    ensures id <= 0 ==> r == Err(BadRequest)
    ensures id > 0 ==> (r == Err(NotFound) <==> forall i :: 0 <= i < |users| ==> users[i].id != id)
    ensures r.Ok? ==> exists k :: JsArray.IsFirstIndex(users, HasId(id), k) && r.value == View(users[k])
  {
    if id <= 0 then Err(BadRequest)
    else
      match JsArray.Find(users, HasId(id))
      case None => Err(NotFound)
      case Some(u) => ParseView(View(u), isEmail)
  }

  /** `createUser`'s input schema. */
  predicate NewUserOk(input: NewUser, isEmail: EmailRule) {
    && NameOk(input.name)
    && isEmail(input.email)
    && PasswordLengthOk(input.password)
    && PasswordRegexMatches(input.password)
  }

  /** `createUser`: append a user numbered by the array's length, or reject the input. */
  function CreateUser(users: Users, input: NewUser, isEmail: EmailRule): (out: (Users, Result<UserView, ErrorCode>))
    ensures out.1.Ok? <==> NameOk(input.name) && isEmail(input.email) && StrongPassword(input.password)
    ensures out.1.Err? ==> out == (users, Err(BadRequest))
    ensures out.1.Ok? ==>
      && out.0 == users + [User(|users| + 1, input.name, input.email, input.password)]
      && out.1.value == UserView(|users| + 1, input.name, input.email)
  {
    PasswordRegexIsStrongPassword(input.password);
    if !NewUserOk(input, isEmail) then (users, Err(BadRequest))
    else
      var u := User(|users| + 1, input.name, input.email, input.password);
      if !ValidUser(u, isEmail) then (users, Err(InternalServerError))
      else (users + [u], ParseView(View(u), isEmail))
  }

  /** `login`'s input schema. */
  predicate CredentialsOk(input: Credentials, isEmail: EmailRule) {
    isEmail(input.email) && PasswordLengthOk(input.password)
  }

  /** `login`: the first user with that email and password, or `Unauthorized`. */
  function Login(users: Users, input: Credentials, isEmail: EmailRule): (r: Result<UserView, ErrorCode>)
    ensures !CredentialsOk(input, isEmail) ==> r == Err(BadRequest)
    ensures CredentialsOk(input, isEmail) ==>
      (r == Err(Unauthorized) <==> forall i :: 0 <= i < |users| ==> !HasCredentials(input)(users[i]))
    ensures r.Ok? ==> exists k :: JsArray.IsFirstIndex(users, HasCredentials(input), k) && r.value == View(users[k])
  {
    if !CredentialsOk(input, isEmail) then Err(BadRequest)
    else
      match JsArray.Find(users, HasCredentials(input))
      case None => Err(Unauthorized)
      case Some(u) => ParseView(View(u), isEmail)
  }

  /** `getCurrentUser`: the middleware turns away a context without a user; otherwise that user's view. */
  function GetCurrentUser(ctx: Option<UserView>, isEmail: EmailRule): (r: Result<UserView, ErrorCode>)
    ensures ctx.None? ==> r == Err(Unauthorized)
    ensures ctx.Some? && ValidView(ctx.value, isEmail) ==> r == Ok(ctx.value)
    ensures ctx.Some? && !ValidView(ctx.value, isEmail) ==> r == Err(InternalServerError)
  {
    match ctx
    case None => Err(Unauthorized)
    case Some(v) => ParseView(v, isEmail)
  }

  /** `updateUser`'s input schema. */
  predicate UserPatchOk(input: UserPatch, isEmail: EmailRule) {
    && input.id > 0
    && (input.name.Some? ==> NameOk(input.name.value))
    && (input.email.Some? ==> isEmail(input.email.value))
  }

  /** `{ ...user, ...input }`: the supplied name and email win; the ids agree; the password stays. */
  function ApplyPatch(u: User, input: UserPatch): (m: User)
    ensures m.id == input.id && m.password == u.password
    ensures m.name == (if input.name.Some? then input.name.value else u.name)
    ensures m.email == (if input.email.Some? then input.email.value else u.email)
  {
    User(input.id, input.name.GetOr(u.name), input.email.GetOr(u.email), u.password)
  }

  /**
   * `updateUser`: overwrite the supplied fields of the first user with the
   * id. The array is written before the reply is parsed, so a failing parse
   * still leaves the write in place.
   */
  function UpdateUser(users: Users, input: UserPatch, isEmail: EmailRule): (out: (Users, Result<UserView, ErrorCode>))
    ensures !UserPatchOk(input, isEmail) ==> out == (users, Err(BadRequest))
    ensures UserPatchOk(input, isEmail) ==>
      (out.1 == Err(NotFound) <==> forall i :: 0 <= i < |users| ==> users[i].id != input.id)
    ensures out.1 == Err(NotFound) ==> out.0 == users
    ensures out.1.Ok? ==> exists k ::
      && JsArray.IsFirstIndex(users, HasId(input.id), k)
      && |out.0| == |users|
      && (forall i :: 0 <= i < |users| && i != k ==> out.0[i] == users[i])
      && out.0[k].id == users[k].id
      && out.0[k].password == users[k].password
      && out.0[k].name == (if input.name.Some? then input.name.value else users[k].name)
      && out.0[k].email == (if input.email.Some? then input.email.value else users[k].email)
      && out.1.value == View(out.0[k])
    ensures UserPatchOk(input, isEmail) && out.1 != Err(NotFound) ==> exists k ::
      && JsArray.IsFirstIndex(users, HasId(input.id), k)
      && out.0 == users[k := ApplyPatch(users[k], input)]
      && out.1 == ParseView(View(ApplyPatch(users[k], input)), isEmail)
  {
    if !UserPatchOk(input, isEmail) then (users, Err(BadRequest))
    else
      var k := JsArray.FindIndex(users, HasId(input.id));
      if k == -1 then (users, Err(NotFound))
      else
        var u := ApplyPatch(users[k], input);
        (users[k := u], ParseView(View(u), isEmail))
  }

  /** The simulated database satisfies the invariant, given that both seed emails pass the email check. */
  lemma InitialStoreInvariant(isEmail: EmailRule)
    requires isEmail("alice@example.com") && isEmail("bob@example.com")
    ensures StoreInvariant(InitialUsers, isEmail)
  {
  }

  /** While the invariant holds, `getUserById(k)` answers exactly for 1 <= k <= count, with the user at position k - 1. */
  lemma GetUserByIdByPosition(users: Users, id: int, isEmail: EmailRule)
    requires StoreInvariant(users, isEmail)
    ensures GetUserById(users, id, isEmail).Ok? <==> 1 <= id <= |users|
    ensures 1 <= id <= |users| ==> GetUserById(users, id, isEmail) == Ok(View(users[id - 1]))
  {
  }

  /**
   * While the invariant holds, a valid patch succeeds exactly for 1 <= id <= count.
   * It then rewrites only the user at position id - 1 and answers that user's new view.
   */
  lemma UpdateUserByPosition(users: Users, input: UserPatch, isEmail: EmailRule)
    requires StoreInvariant(users, isEmail)
    ensures UserPatchOk(input, isEmail) ==> (UpdateUser(users, input, isEmail).1.Ok? <==> input.id <= |users|)
    ensures UserPatchOk(input, isEmail) && input.id <= |users| ==>
      var u := ApplyPatch(users[input.id - 1], input);
      UpdateUser(users, input, isEmail) == (users[input.id - 1 := u], Ok(View(u)))
  {
  }

  /** While the invariant holds, `login` succeeds exactly when some stored user has that email and that password. */
  lemma LoginIffCredentialsMatch(users: Users, input: Credentials, isEmail: EmailRule)
    requires StoreInvariant(users, isEmail)
    ensures Login(users, input, isEmail).Ok? <==>
      exists i :: 0 <= i < |users| && users[i].email == input.email && users[i].password == input.password
  {
  }

  /** A procedure call as the router receives it, its input already decoded. */
  datatype Procedure =
    | GetUsersProc
    | GetUserByIdProc(id: int)
    | CreateUserProc(newUser: NewUser)
    | LoginProc(credentials: Credentials)
    | GetCurrentUserProc
    | UpdateUserProc(patch: UserPatch)

  datatype Reply = UserList(views: seq<UserView>) | OneUser(view: UserView)

  function Single(r: Result<UserView, ErrorCode>): Result<Reply, ErrorCode> {
    match r
    case Ok(v) => Ok(OneUser(v))
    case Err(e) => Err(e)
  }

  /** The router: dispatch one call, given the request context's user. */
  function Call(users: Users, ctx: Option<UserView>, proc: Procedure, isEmail: EmailRule): (out: (Users, Result<Reply, ErrorCode>))
    ensures !proc.CreateUserProc? && !proc.UpdateUserProc? ==> out.0 == users
  {
    match proc
    case GetUsersProc => (users, Ok(UserList(GetUsers(users))))
    case GetUserByIdProc(id) => (users, Single(GetUserById(users, id, isEmail)))
    case CreateUserProc(input) =>
      var (next, r) := CreateUser(users, input, isEmail); (next, Single(r))
    case LoginProc(c) => (users, Single(Login(users, c, isEmail)))
    case GetCurrentUserProc => (users, Single(GetCurrentUser(ctx, isEmail)))
    case UpdateUserProc(patch) =>
      var (next, r) := UpdateUser(users, patch, isEmail); (next, Single(r))
  }

  /** Every procedure keeps the invariant, and none can then fail its output schema. */
  lemma CallPreservesInvariant(users: Users, ctx: Option<UserView>, proc: Procedure, isEmail: EmailRule)
    requires StoreInvariant(users, isEmail)
    requires ctx.Some? ==> ValidView(ctx.value, isEmail)
    ensures StoreInvariant(Call(users, ctx, proc, isEmail).0, isEmail)
    ensures Call(users, ctx, proc, isEmail).1 != Err(InternalServerError)
  {
  }

  /** The array after serving the calls in order. */
  function Run(users: Users, ctx: Option<UserView>, procs: seq<Procedure>, isEmail: EmailRule): Users
    decreases |procs|
  {
    if |procs| == 0 then users else Run(Call(users, ctx, procs[0], isEmail).0, ctx, procs[1..], isEmail)
  }

  /** Every array reachable from the simulated database keeps the invariant. */
  lemma {:induction false} RunPreservesInvariant(users: Users, ctx: Option<UserView>, procs: seq<Procedure>, isEmail: EmailRule)
    requires StoreInvariant(users, isEmail)
    requires ctx.Some? ==> ValidView(ctx.value, isEmail)
    ensures StoreInvariant(Run(users, ctx, procs, isEmail), isEmail)
    decreases |procs|
  {
    if |procs| > 0 {
      CallPreservesInvariant(users, ctx, procs[0], isEmail);
      RunPreservesInvariant(Call(users, ctx, procs[0], isEmail).0, ctx, procs[1..], isEmail);
    }
  }
}
