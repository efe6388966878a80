/** The account manager of the backend: `createUser` and `getAllUsers` of the user
    controller and `login` of the auth controller, over the Users table seen as a map
    from `userId` to item, with the EmailIndex query as the set of keys whose item has
    a given email. bcrypt is a pair of functions passed in; the random numbers, the
    fresh UUID, the salt and the clock are parameters of the calls. */
module Accounts {
  import opened Wrappers
  import opened Types
  import Text
  import SeqUtil

  type UserId = string

  /** An item of the Users table. `password` holds the bcrypt hash of the temporary password. */
  datatype UserItem = UserItem(userId: UserId, email: string, name: string, role: string, status: UserStatus,
                               password: string, lastLogin: Option<string>, createdAt: string, updatedAt: string)

  /** An item with `password` taken out (`const { password, ...safe } = item`): what the
      create and login replies carry. The type has no place for the hash. */
  datatype SafeUser = SafeUser(userId: UserId, email: string, name: string, role: string, status: UserStatus,
                               lastLogin: Option<string>, createdAt: string, updatedAt: string)

  /** An entry of the `getAllUsers` listing: the key renamed to `id`, and no hash. */
  datatype UserSummary = UserSummary(id: UserId, name: string, email: string, role: string, status: UserStatus,
                                     lastLogin: Option<string>)

  function Strip(u: UserItem): SafeUser {
    SafeUser(u.userId, u.email, u.name, u.role, u.status, u.lastLogin, u.createdAt, u.updatedAt)
  }

  function Summarize(u: UserItem): UserSummary {
    UserSummary(u.userId, u.name, u.email, u.role, u.status, u.lastLogin)
  }

  /** Stripping forgets the hash and nothing else: two items strip alike exactly when they
      differ at most in `password`. */
  lemma StripForgetsOnlyPassword(a: UserItem, b: UserItem)
    ensures Strip(a) == Strip(b) <==> a.(password := b.password) == b
  {
  }

  /** The listing entry keeps `userId` (as `id`), `name`, `email`, `role`, `status` and `lastLogin`,
      and cannot depend on the hash. */
  lemma SummaryIsProjection(u: UserItem, hash: string)
    ensures var s := Summarize(u);
      s.id == u.userId && s.name == u.name && s.email == u.email && s.role == u.role &&
      s.status == u.status && s.lastLogin == u.lastLogin
    ensures Summarize(u.(password := hash)) == Summarize(u)
  {
  }

  /** bcrypt: `hash(plain, salt)` is `bcrypt.hash`, `compare(plain, hashed)` is `bcrypt.compare`. */
  datatype Hasher = Hasher(hash: (string, string) -> string, compare: (string, string) -> bool)

  /** What the model needs of bcrypt: a password matches its own hash, whatever the salt. */
  ghost predicate Sound(h: Hasher) {
    forall plain, salt :: h.compare(plain, h.hash(plain, salt))
  }

  /** The idealisation that bcrypt has no collisions: a hash matches only its own password. */
  ghost predicate CollisionFree(h: Hasher) {
    forall plain, other, salt :: h.compare(other, h.hash(plain, salt)) ==> other == plain
  }

  /** A request body field, `undefined`/`null` being `None`. */
  predicate Given(f: Option<string>) {
    f.Some? && f.value != ""
  }

  datatype CreateRequest = CreateRequest(name: Option<string>, email: Option<string>, role: Option<string>)

  datatype LoginRequest = LoginRequest(email: Option<string>, password: Option<string>)

  datatype CreateReply = Created(user: SafeUser, tempPassword: string) | CreateRefused(status: nat, error: string)

  datatype LoginReply = LoggedIn(user: SafeUser) | LoginRefused(status: nat, error: string)

  const MissingFields := "Missing required fields"
  const EmailTaken := "User with this email already exists"
  const CredentialsRequired := "Email and password are required"
  const InvalidCredentials := "Invalid credentials"
  const AccountInactive := "Account is inactive. Contact Administrator."

  /** `s.slice(-n)`: the last `n` characters, or all of `s` when it is shorter. */
  function SliceLast(s: string, n: nat): string {
    if |s| <= n then s else s[|s| - n..]
  }

  /** The temporary password, given the base-36 renderings `r1`, `r2` of the two
      `Math.random()` calls: the last 8 characters of the first followed by the last 4 of
      the second in upper case. */
  function TempPassword(r1: string, r2: string): string {
    SliceLast(r1, 8) + Text.Upper(SliceLast(r2, 4))
  }

  function Min(a: int, b: int): int {
    if a <= b then a else b
  }

  /** The temporary password is an 8-character tail of the first rendering and an upper-cased
      4-character tail of the second (shorter when a rendering is shorter), and it is never empty. */
  lemma TempPasswordShape(r1: string, r2: string)
    ensures var p := TempPassword(r1, r2); var k := Min(|r1|, 8);
      && |p| == k + Min(|r2|, 4)
      && p[..k] == r1[|r1| - k..]
      && p[k..] == Text.Upper(r2[|r2| - Min(|r2|, 4)..])
    ensures |r1| >= 8 && |r2| >= 4 ==> |TempPassword(r1, r2)| == 12
    ensures r1 != "" ==> TempPassword(r1, r2) != ""
  {
  }

  /** The Users table. */
  type Table = map<UserId, UserItem>

  /** Every item is stored under its own `userId`. */
  ghost predicate KeyedById(users: Table) {
    forall id :: id in users ==> users[id].userId == id
  }

  /** No two items share an email. */
  ghost predicate EmailsUnique(users: Table) {
    forall a, b :: a in users && b in users && users[a].email == users[b].email ==> a == b
  }

  ghost predicate Consistent(users: Table) {
    KeyedById(users) && EmailsUnique(users)
  }

  /** The EmailIndex query: the keys of the items with this email. */
  function EmailMatches(users: Table, email: string): set<UserId> {
    set id | id in users && users[id].email == email
  }

  /** The first item of the EmailIndex query, `Items[0]`; any of them when several match. */
  ghost function Lookup(users: Table, email: string): (r: Option<UserId>)
    ensures r.None? <==> EmailMatches(users, email) == {}
    ensures r.Some? ==> r.value in EmailMatches(users, email)
  {
    if EmailMatches(users, email) == {} then None
    else var id :| id in EmailMatches(users, email); Some(id)
  }

  /** A reply together with the table after the call. */
  datatype After<R> = After(reply: R, users: Table)

  /** The item `createUser` puts. */
  function NewUserItem(req: CreateRequest, h: Hasher, tempPassword: string, salt: string, userId: UserId, now: string): UserItem
    requires Given(req.name) && Given(req.email) && Given(req.role)
  {
    UserItem(userId, req.email.value, req.name.value, req.role.value, Active, h.hash(tempPassword, salt), None, now, now)
  }

  /** `createUser` (userController.ts): validation, the email check, then the put. */
  function CreateUserSpec(users: Table, req: CreateRequest, h: Hasher, r1: string, r2: string, salt: string,
                          userId: UserId, now: string): After<CreateReply>
  {
    if !Given(req.name) || !Given(req.email) || !Given(req.role) then After(CreateRefused(400, MissingFields), users)
    else if EmailMatches(users, req.email.value) != {} then After(CreateRefused(409, EmailTaken), users)
    else
      var tempPassword := TempPassword(r1, r2);
      var item := NewUserItem(req, h, tempPassword, salt, userId, now);
      After(Created(Strip(item), tempPassword), users[userId := item])
  }

  /** `login` (authController.ts): validation, the email lookup, the hash comparison, the status
      gate, then the `lastLogin` update. */
  ghost function LoginSpec(users: Table, req: LoginRequest, h: Hasher, now: string): After<LoginReply> {
    if !Given(req.email) || !Given(req.password) then After(LoginRefused(400, CredentialsRequired), users)
    else match Lookup(users, req.email.value)
      case None => After(LoginRefused(401, InvalidCredentials), users)
      case Some(id) =>
        var user := users[id];
        if !h.compare(req.password.value, user.password) then After(LoginRefused(401, InvalidCredentials), users)
        else if user.status != Active then After(LoginRefused(403, AccountInactive), users)
        else After(LoggedIn(Strip(user)), users[id := user.(lastLogin := Some(now))])
  }

  // ---- createUser ----

  /** A missing or empty `name`, `email` or `role` is refused with 400 before the table is
      consulted: the reply is the same whatever the table holds, and nothing is written. */
  lemma CreateRequiresAllFields(users: Table, other: Table, req: CreateRequest, h: Hasher, r1: string, r2: string,
                                salt: string, userId: UserId, now: string)
    requires !Given(req.name) || !Given(req.email) || !Given(req.role)
    ensures CreateUserSpec(users, req, h, r1, r2, salt, userId, now) == After(CreateRefused(400, MissingFields), users)
    ensures CreateUserSpec(other, req, h, r1, r2, salt, userId, now).reply == CreateUserSpec(users, req, h, r1, r2, salt, userId, now).reply
  {
  }

  /** The role is only checked for being non-empty: a string that names none of the three roles
      is stored as it is. */
  lemma CreateAcceptsAnyRole(users: Table, name: string, email: string, role: string, h: Hasher, r1: string, r2: string,
                             salt: string, userId: UserId, now: string)
    requires name != "" && email != "" && role != "" && ParseRole(role) == None
    requires EmailMatches(users, email) == {}
    ensures var after := CreateUserSpec(users, CreateRequest(Some(name), Some(email), Some(role)), h, r1, r2, salt, userId, now);
      after.reply.Created? && after.reply.user.role == role && after.users[userId].role == role
  {
  }

  /** An email that the index already holds is refused with 409, and nothing is written. */
  lemma CreateRefusesTakenEmail(users: Table, req: CreateRequest, h: Hasher, r1: string, r2: string, salt: string,
                                userId: UserId, now: string)
    requires Given(req.name) && Given(req.email) && Given(req.role)
    requires EmailMatches(users, req.email.value) != {}
    ensures CreateUserSpec(users, req, h, r1, r2, salt, userId, now) == After(CreateRefused(409, EmailTaken), users)
  {
  }

  /** A successful create with a fresh `userId` adds exactly one item, under that key, and
      changes no other item. */
  lemma CreateAddsOneItem(users: Table, req: CreateRequest, h: Hasher, r1: string, r2: string, salt: string,
                          userId: UserId, now: string)
    requires userId !in users
    requires CreateUserSpec(users, req, h, r1, r2, salt, userId, now).reply.Created?
    ensures var after := CreateUserSpec(users, req, h, r1, r2, salt, userId, now).users;
      && after.Keys == users.Keys + {userId}
      && |after| == |users| + 1
      && forall id :: id in users ==> after[id] == users[id]
  {
    var after := CreateUserSpec(users, req, h, r1, r2, salt, userId, now).users;
    assert after.Keys == users.Keys + {userId};
    assert |after.Keys| == |users.Keys| + 1;
  }

  /** The stored item of a successful create: status ACTIVE, no last login, both timestamps
      the same, the given fields, and the hash of the returned temporary password; the reply
      carries that item without the hash, and the temporary password itself. */
  lemma CreatedItem(users: Table, req: CreateRequest, h: Hasher, r1: string, r2: string, salt: string,
                    userId: UserId, now: string)
    requires CreateUserSpec(users, req, h, r1, r2, salt, userId, now).reply.Created?
    ensures var after := CreateUserSpec(users, req, h, r1, r2, salt, userId, now);
      var item := after.users[userId];
      && userId in after.users
      && item.userId == userId && item.email == req.email.value && item.name == req.name.value
      && item.role == req.role.value
      && item.status == Active && item.lastLogin == None && item.createdAt == now && item.updatedAt == now
      && after.reply.tempPassword == TempPassword(r1, r2)
      && item.password == h.hash(after.reply.tempPassword, salt)
      && after.reply.user == Strip(item)
  {
  }

  /** Creation keeps every item under its own key and keeps emails unique. */
  lemma CreateKeepsConsistent(users: Table, req: CreateRequest, h: Hasher, r1: string, r2: string, salt: string,
                              userId: UserId, now: string)
    requires Consistent(users)
    ensures Consistent(CreateUserSpec(users, req, h, r1, r2, salt, userId, now).users)
  {
    var after := CreateUserSpec(users, req, h, r1, r2, salt, userId, now);
    if after.reply.Created? {
      var email := req.email.value;
      forall id | id in users && users[id].email == email ensures id in EmailMatches(users, email) {
      }
    }
  }

  /** Two creates with the same email one after the other: whatever the first did, the second is
      refused with 409 and writes nothing, and the table holds one item with that email. */
  lemma SecondCreateWithSameEmailRefused(users: Table, req1: CreateRequest, req2: CreateRequest, h: Hasher,
                                         r1: string, r2: string, salt: string, id1: UserId, now1: string,
                                         s1: string, s2: string, salt2: string, id2: UserId, now2: string)
    requires Consistent(users)
    requires Given(req1.name) && Given(req1.email) && Given(req1.role)
    requires Given(req2.name) && Given(req2.role) && req2.email == req1.email
    ensures var t1 := CreateUserSpec(users, req1, h, r1, r2, salt, id1, now1).users;
      && CreateUserSpec(t1, req2, h, s1, s2, salt2, id2, now2) == After(CreateRefused(409, EmailTaken), t1)
      && |EmailMatches(t1, req1.email.value)| == 1
  {
    var email := req1.email.value;
    var after := CreateUserSpec(users, req1, h, r1, r2, salt, id1, now1);
    var t1 := after.users;
    CreateKeepsConsistent(users, req1, h, r1, r2, salt, id1, now1);
    var id :| id in EmailMatches(t1, email) by {
      if after.reply.Created? {
        assert id1 in EmailMatches(t1, email);
      } else {
        assert EmailMatches(users, email) != {};
      }
    }
    assert EmailMatches(t1, email) == {id};
  }

  // ---- login ----

  /** A missing or empty `email` or `password` is refused with 400 before any lookup: the reply
      is the same whatever the table holds, and nothing is written. */
  lemma LoginRequiresBothFields(users: Table, other: Table, req: LoginRequest, h: Hasher, now: string)
    requires !Given(req.email) || !Given(req.password)
    ensures LoginSpec(users, req, h, now) == After(LoginRefused(400, CredentialsRequired), users)
    ensures LoginSpec(other, req, h, now).reply == LoginSpec(users, req, h, now).reply
  {
  }

  /** An unknown email and a wrong password get the same 401 reply; neither writes. */
  lemma LoginUnknownEmailOrWrongPassword(users: Table, email: string, password: string, h: Hasher, now: string)
    requires Consistent(users) && email != "" && password != ""
    requires forall id :: id in users && users[id].email == email ==> !h.compare(password, users[id].password)
    ensures LoginSpec(users, LoginRequest(Some(email), Some(password)), h, now)
         == After(LoginRefused(401, InvalidCredentials), users)
  {
  }

  /** The password is checked before the status: on an inactive account a wrong password gets
      401 and the right one gets 403; neither writes. */
  lemma LoginChecksPasswordBeforeStatus(users: Table, id: UserId, password: string, h: Hasher, now: string)
    requires Consistent(users) && id in users && users[id].status == Inactive
    requires users[id].email != "" && password != ""
    ensures var after := LoginSpec(users, LoginRequest(Some(users[id].email), Some(password)), h, now);
      && after.users == users
      && after.reply == if h.compare(password, users[id].password)
                        then LoginRefused(403, AccountInactive)
                        else LoginRefused(401, InvalidCredentials)
  {
    assert id in EmailMatches(users, users[id].email);
  }

  /** Every refusal, 403 included, leaves the table as it was. */
  lemma LoginRefusalWritesNothing(users: Table, req: LoginRequest, h: Hasher, now: string)
    requires LoginSpec(users, req, h, now).reply.LoginRefused?
    ensures LoginSpec(users, req, h, now).users == users
  {
  }

  /** Login succeeds exactly when both fields are given and the account with that email exists,
      matches the password and is ACTIVE. Then only that item's `lastLogin` changes, to `now`,
      and the reply is the item as read before the update, without the hash. */
  lemma LoginSucceedsIff(users: Table, email: string, password: string, h: Hasher, now: string)
    requires Consistent(users)
    ensures var after := LoginSpec(users, LoginRequest(Some(email), Some(password)), h, now);
      after.reply.LoggedIn? <==>
        email != "" && password != "" &&
        exists id :: id in users && users[id].email == email && h.compare(password, users[id].password) &&
                     users[id].status == Active
    ensures var after := LoginSpec(users, LoginRequest(Some(email), Some(password)), h, now);
      forall id :: id in users && users[id].email == email && after.reply.LoggedIn? ==>
        && after.users == users[id := users[id].(lastLogin := Some(now))]
        && after.reply.user == Strip(users[id])
  {
    var after := LoginSpec(users, LoginRequest(Some(email), Some(password)), h, now);
    forall id | id in users && users[id].email == email
      ensures Lookup(users, email) == Some(id)
    {
      assert id in EmailMatches(users, email);
    }
  }

  /** Login keeps every item under its own key and keeps emails unique. */
  lemma LoginKeepsConsistent(users: Table, req: LoginRequest, h: Hasher, now: string)
    requires Consistent(users)
    ensures Consistent(LoginSpec(users, req, h, now).users)
  {
  }

  /** Right after a create, logging in with that email and the returned temporary password
      succeeds, and the reply shows the new item with no last login yet. */
  lemma LoginWithTempPasswordAfterCreate(users: Table, req: CreateRequest, h: Hasher, r1: string, r2: string,
                                         salt: string, userId: UserId, now: string, later: string)
    requires Sound(h) && Consistent(users) && r1 != ""
    requires CreateUserSpec(users, req, h, r1, r2, salt, userId, now).reply.Created?
    ensures var created := CreateUserSpec(users, req, h, r1, r2, salt, userId, now);
      var after := LoginSpec(created.users, LoginRequest(req.email, Some(created.reply.tempPassword)), h, later);
      && after.reply == LoggedIn(created.reply.user)
      && after.reply.user.lastLogin == None
      && after.users[userId].lastLogin == Some(later)
  {
    var created := CreateUserSpec(users, req, h, r1, r2, salt, userId, now);
    var t := created.users;
    TempPasswordShape(r1, r2);
    CreateKeepsConsistent(users, req, h, r1, r2, salt, userId, now);
    assert userId in EmailMatches(t, req.email.value);
    assert Lookup(t, req.email.value) == Some(userId);
    assert h.compare(created.reply.tempPassword, t[userId].password);
  }

  /** With a collision-free hash, right after a create a login with any other password is refused with 401. */
  lemma WrongPasswordAfterCreate(users: Table, req: CreateRequest, h: Hasher, r1: string, r2: string,
                                 salt: string, userId: UserId, now: string, later: string, wrong: string)
    requires CollisionFree(h) && Consistent(users) && wrong != ""
    requires CreateUserSpec(users, req, h, r1, r2, salt, userId, now).reply.Created?
    requires wrong != CreateUserSpec(users, req, h, r1, r2, salt, userId, now).reply.tempPassword
    ensures var created := CreateUserSpec(users, req, h, r1, r2, salt, userId, now);
      LoginSpec(created.users, LoginRequest(req.email, Some(wrong)), h, later)
        == After(LoginRefused(401, InvalidCredentials), created.users)
  {
    var created := CreateUserSpec(users, req, h, r1, r2, salt, userId, now);
    CreateKeepsConsistent(users, req, h, r1, r2, salt, userId, now);
    assert userId in EmailMatches(created.users, req.email.value);
    assert Lookup(created.users, req.email.value) == Some(userId);
  }

  // ---- sequences of calls ----

  /** One request to the account manager, with the values the runtime would supply. */
  datatype Call =
    | CreateCall(req: CreateRequest, r1: string, r2: string, salt: string, userId: UserId, now: string)
    | LoginCall(login: LoginRequest, at: string)

  ghost function Run(users: Table, h: Hasher, calls: seq<Call>): Table
    decreases |calls|
  {
    if calls == [] then users
    else
      var next := match calls[0]
        case CreateCall(req, r1, r2, salt, userId, now) => CreateUserSpec(users, req, h, r1, r2, salt, userId, now).users
        case LoginCall(login, at) => LoginSpec(users, login, h, at).users;
      Run(next, h, calls[1..])
  }

  /** Handled one at a time, any sequence of creates and logins keeps emails unique and every
      item under its own key. */
  lemma {:induction false} RunKeepsConsistent(users: Table, h: Hasher, calls: seq<Call>)
    requires Consistent(users)
    ensures Consistent(Run(users, h, calls))
    decreases |calls|
  {
    if calls != [] {
      match calls[0]
      case CreateCall(req, r1, r2, salt, userId, now) =>
        CreateKeepsConsistent(users, req, h, r1, r2, salt, userId, now);
        RunKeepsConsistent(CreateUserSpec(users, req, h, r1, r2, salt, userId, now).users, h, calls[1..]);
      case LoginCall(login, at) =>
        LoginKeepsConsistent(users, login, h, at);
        RunKeepsConsistent(LoginSpec(users, login, h, at).users, h, calls[1..]);
    }
  }

  /** The account manager over the Users table. */
  class AccountManager {
    var users: Table
    const hasher: Hasher

    ghost predicate Valid()
      reads this
    {
      Consistent(users)
    }

    constructor (hasher: Hasher)
      ensures Valid() && users == map[] && this.hasher == hasher
    {
      this.users := map[];
      this.hasher := hasher;
    }

    /** `createUser`. */
    method CreateUser(req: CreateRequest, r1: string, r2: string, salt: string, userId: UserId, now: string)
      returns (reply: CreateReply)
      requires Valid()
      modifies this
      ensures Valid()
      ensures After(reply, users) == CreateUserSpec(old(users), req, hasher, r1, r2, salt, userId, now)
    {
      CreateKeepsConsistent(users, req, hasher, r1, r2, salt, userId, now);
      if !Given(req.name) || !Given(req.email) || !Given(req.role) {
        return CreateRefused(400, MissingFields);
      }
      var existing := EmailMatches(users, req.email.value);
      if existing != {} {
        return CreateRefused(409, EmailTaken);
      }
      var tempPassword := TempPassword(r1, r2);
      var hashedPassword := hasher.hash(tempPassword, salt);
      var item := UserItem(userId, req.email.value, req.name.value, req.role.value, Active, hashedPassword, None, now, now);
      users := users[userId := item];
      reply := Created(Strip(item), tempPassword);
    }

    /** `login`. */
    method Login(req: LoginRequest, now: string) returns (reply: LoginReply)
      requires Valid()
      modifies this
      ensures Valid()
      ensures After(reply, users) == LoginSpec(old(users), req, hasher, now)
    {
      LoginKeepsConsistent(users, req, hasher, now);
      if !Given(req.email) || !Given(req.password) {
        return LoginRefused(400, CredentialsRequired);
      }
      var found := EmailMatches(users, req.email.value);
      if found == {} {
        return LoginRefused(401, InvalidCredentials);
      }
      var id :| id in found;
      assert Lookup(users, req.email.value) == Some(id);
      var user := users[id];
      if !hasher.compare(req.password.value, user.password) {
        return LoginRefused(401, InvalidCredentials);
      }
      if user.status != Active {
        return LoginRefused(403, AccountInactive);
      }
      users := users[user.userId := user.(lastLogin := Some(now))];
      reply := LoggedIn(Strip(user));
    }

    /** `getAllUsers`: one entry per item of the scan, in the scan's order (`order`, which the
        model leaves open), each the item's projection. */
    method GetAllUsers() returns (listing: seq<UserSummary>, ghost order: seq<UserId>)
      ensures SeqUtil.Distinct(order) && |order| == |users|
      ensures forall id :: id in users <==> id in order
      ensures |listing| == |order|
      ensures forall i :: 0 <= i < |order| ==> listing[i] == Summarize(users[order[i]])
    {
      var remaining := users.Keys;
      listing, order := [], [];
      while remaining != {}
        invariant remaining <= users.Keys
        invariant forall id :: id in users ==> (id in order <==> id !in remaining)
        invariant forall i :: 0 <= i < |order| ==> order[i] in users
        invariant SeqUtil.Distinct(order)
        invariant |order| + |remaining| == |users|
        invariant |listing| == |order|
        invariant forall i :: 0 <= i < |order| ==> listing[i] == Summarize(users[order[i]])
        decreases |remaining|
      {
        var id :| id in remaining;
        listing := listing + [Summarize(users[id])];
        order := order + [id];
        remaining := remaining - {id};
      }
    }
  }
}
