/** Public registration and login (controllers/authController.js). Password
    hashing and comparison are parameters: `hash` is the bcrypt hash of the
    given password, `passwordMatches` the result of comparing. Token
    signing is not part of this model. */
module AuthController {
  import opened Common
  import opened UserModel
  import opened Db

  // ---------------------------------------------------------------------
  // Register
  // ---------------------------------------------------------------------

  /** Only buyers and sellers may register themselves. */
  predicate PublicRole(role: Option<Role>)
  {
    role == Some(Buyer) || role == Some(Seller)
  }

  /** The account register builds: a seller waits for approval and keeps
      its store name, a buyer is active at once and has no store name. */
  function RegisteredUser(role: Role, email: string, hash: string, name: Option<string>, phone: Option<string>,
                          storeName: Option<string>): (u: User)
    requires role == Buyer || role == Seller
    ensures u.role == role && u.email == email && u.password == hash
    ensures role == Seller ==> u.status == Pending && u.storeName == storeName
    ensures role == Buyer ==> u.status == Active && u.storeName == None
    ensures ValidUser(u) <==> email != "" && hash != ""
  {
    NewUser(role, email, hash, name, phone, if role == Seller then storeName else None, None, None,
            if role == Seller then Pending else Active)
  }

  /** register: 400 for a role other than buyer or seller (before any
      lookup), 400 for an email any account already has, 500 when no
      password was given or the record fails the schema; otherwise 201 and
      the account is inserted. */
  method Register(db: Store, email: string, password: Option<string>, hash: string, role: Option<Role>,
                  name: Option<string>, phone: Option<string>, storeName: Option<string>, newId: UserId)
    returns (status: Status)
    requires newId !in db.users
    modifies db`users
    ensures !PublicRole(role) ==> status == BadRequest
    ensures PublicRole(role) && EmailTaken(old(db.users), email) ==> status == BadRequest
    ensures status == Created <==>
      PublicRole(role) && !EmailTaken(old(db.users), email) && password.Some? && email != "" && hash != ""
    ensures status != Created ==> status in {BadRequest, ServerError} && db.users == old(db.users)
    ensures status == Created ==>
      db.users == old(db.users)[newId := RegisteredUser(role.value, email, hash, name, phone, storeName)]
    ensures EmailsUnique(old(db.users)) ==> EmailsUnique(db.users)
  {
    if !(role == Some(Buyer) || role == Some(Seller)) {
      return BadRequest;
    }
    if EmailTaken(db.users, email) {
      return BadRequest;
    }
    if password.None? {
      return ServerError;
    }
    var user := RegisteredUser(role.value, email, hash, name, phone, storeName);
    if !ValidUser(user) {
      return ServerError;
    }
    if EmailsUnique(db.users) {
      InsertKeepsEmailsUnique(db.users, newId, user);
    }
    db.users := db.users[newId := user];
    status := Created;
  }

  // ---------------------------------------------------------------------
  // Login
  // ---------------------------------------------------------------------

  /** `User.findOne({ email })`: with the unique index there is at most one
      such account. */
  function UserByEmail(users: map<UserId, User>, email: string): (r: Option<UserId>)
    requires EmailsUnique(users)
    ensures r.Some? <==> EmailTaken(users, email)
    ensures r.Some? ==> r.value in users && users[r.value].email == email
  {
    if EmailTaken(users, email) then
      var id :| id in users && users[id].email == email;
      Some(id)
    else None
  }

  /** The gates after the lookup, in their order: a wrong password (401),
      a deleted account (403), an inactive account (403), a seller not yet
      active (403). */
  function LoginGate(u: User, passwordMatches: bool): (r: Status)
    ensures r in {Ok, Unauthorized, Forbidden}
    ensures !passwordMatches ==> r == Unauthorized
    ensures r == Ok <==>
      passwordMatches && u.status != Deleted && u.status != Inactive && (u.role == Seller ==> u.status == Active)
  {
    if !passwordMatches then Unauthorized
    else if u.status == Deleted then Forbidden
    else if u.status == Inactive then Forbidden
    else if u.role == Seller && u.status != Active then Forbidden
    else Ok
  }

  /** login: 401 "Invalid credentials" for an unknown email or a wrong
      password alike, so neither reveals which; then the status gates. */
  function Login(users: map<UserId, User>, email: string, passwordMatches: bool): (r: Outcome<UserId>)
    requires EmailsUnique(users)
    ensures !EmailTaken(users, email) || !passwordMatches ==> r == Failure(Unauthorized)
    ensures r.Success? ==>
      && r.value in users && users[r.value].email == email && passwordMatches
      && users[r.value].status != Deleted && users[r.value].status != Inactive
      && (users[r.value].role == Seller ==> users[r.value].status == Active)
    ensures r.Failure? ==> r.status in {Unauthorized, Forbidden}
    ensures EmailTaken(users, email) ==>
      var id := UserByEmail(users, email).value;
      var gate := LoginGate(users[id], passwordMatches);
      r == if gate == Ok then Success(id) else Failure(gate)
    ensures forall id :: id in users && users[id].email == email && passwordMatches
                         && users[id].status != Deleted && users[id].status != Inactive
                         && (users[id].role == Seller ==> users[id].status == Active) ==>
      r == Success(id)
  {
    match UserByEmail(users, email)
    case None => Failure(Unauthorized)
    case Some(id) =>
      var gate := LoginGate(users[id], passwordMatches);
      if gate == Ok then Success(id) else Failure(gate)
  }

  /** The account an email names, once another account is added. */
  lemma UserByEmailAfterInsert(users: map<UserId, User>, newId: UserId, u: User)
    requires EmailsUnique(users) && newId !in users && !EmailTaken(users, u.email)
    ensures EmailsUnique(users[newId := u])
    ensures UserByEmail(users[newId := u], u.email) == Some(newId)
  {
    InsertKeepsEmailsUnique(users, newId, u);
    var r := users[newId := u];
    var found := UserByEmail(r, u.email);
    assert r[newId].email == u.email;
    assert found.value == newId;
  }

  /** A registered buyer can log in at once with the right password. */
  lemma RegisteredBuyerCanLogIn(users: map<UserId, User>, email: string, hash: string, name: Option<string>,
                                phone: Option<string>, storeName: Option<string>, newId: UserId)
    requires EmailsUnique(users) && newId !in users && !EmailTaken(users, email)
    ensures var after := users[newId := RegisteredUser(Buyer, email, hash, name, phone, storeName)];
      EmailsUnique(after) && Login(after, email, true) == Success(newId)
  {
    UserByEmailAfterInsert(users, newId, RegisteredUser(Buyer, email, hash, name, phone, storeName));
  }

  /** A registered seller is refused with 403 until an admin approves it
      (approveSeller sets the status "active"), and then logs in. */
  lemma RegisteredSellerWaitsForApproval(users: map<UserId, User>, email: string, hash: string, name: Option<string>,
                                         phone: Option<string>, storeName: Option<string>, newId: UserId)
    requires EmailsUnique(users) && newId !in users && !EmailTaken(users, email)
    ensures var after := users[newId := RegisteredUser(Seller, email, hash, name, phone, storeName)];
      && EmailsUnique(after)
      && Login(after, email, true) == Failure(Forbidden)
      && Login(SetStatus(after, newId, Active), email, true) == Success(newId)
  {
    var u := RegisteredUser(Seller, email, hash, name, phone, storeName);
    UserByEmailAfterInsert(users, newId, u);
    var after := users[newId := u];
    var approved := SetStatus(after, newId, Active);
    var found := UserByEmail(approved, email);
    assert approved[newId].email == email;
    assert found.value == newId;
  }

  /** After a soft delete by an admin or a deactivation of the profile the
      account cannot log in, whatever the password. */
  lemma DisabledAccountCannotLogIn(users: map<UserId, User>, id: UserId, s: UserStatus, passwordMatches: bool)
    requires EmailsUnique(users) && id in users && (s == Deleted || s == Inactive)
    ensures EmailsUnique(SetStatus(users, id, s))
    ensures Login(SetStatus(users, id, s), users[id].email, passwordMatches).Failure?
  {
    var after := SetStatus(users, id, s);
    var found := UserByEmail(after, users[id].email);
    assert after[id].email == users[id].email;
    assert found.value == id;
  }
}
