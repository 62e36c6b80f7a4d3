/** The user record (models/User.js). */
module UserModel {
  import opened Common

  datatype Role = Admin | Courier | Seller | Buyer

  /** The schema stores status as a free string defaulting to "active"; the
      handlers use exactly these four values. */
  datatype UserStatus = Active | Pending | Deleted | Inactive

  /** A saved address. The schema's address has no district field, so a
      district given with an address is not kept. */
  datatype SavedAddress = SavedAddress(
    street: Option<string>,
    city: Option<string>,
    country: Option<string>,
    postalCode: Option<string>,
    isDefault: bool)

  /** `password` is the stored hash; hashing is not modelled. */
  datatype User = User(
    role: Role,
    email: string,
    password: string,
    name: Option<string>,
    phone: Option<string>,
    profileImage: Option<string>,
    storeName: Option<string>,
    region: Option<District>,
    availability: Option<string>,
    status: UserStatus,
    addresses: seq<SavedAddress>)

  /** The schema's validators: email and password are required (non-empty)
      and a courier must have a region. */
  predicate ValidUser(u: User)
  {
    u.email != "" && u.password != "" && (u.role == Courier ==> u.region.Some?)
  }

  /** The unique index on email. */
  predicate EmailsUnique(users: map<UserId, User>)
  {
    forall a, b :: a in users && b in users && users[a].email == users[b].email ==> a == b
  }

  predicate EmailTaken(users: map<UserId, User>, email: string)
  {
    exists id :: id in users && users[id].email == email
  }

  /** The number of users with role "admin", whatever their status: the
      count `User.countDocuments({ role: "admin" })` takes. */
  function AdminIds(users: map<UserId, User>): set<UserId>
  {
    set id | id in users && users[id].role == Admin
  }

  /** Admins that have not been soft-deleted. */
  function ActiveAdminIds(users: map<UserId, User>): set<UserId>
  {
    set id | id in users && users[id].role == Admin && users[id].status == Active
  }

  /** The number of addresses marked as default. */
  function DefaultCount(addrs: seq<SavedAddress>): nat
  {
    if |addrs| == 0 then 0
    else DefaultCount(addrs[..|addrs| - 1]) + (if addrs[|addrs| - 1].isDefault then 1 else 0)
  }

  lemma DefaultCountAppend(addrs: seq<SavedAddress>, a: SavedAddress)
    ensures DefaultCount(addrs + [a]) == DefaultCount(addrs) + (if a.isDefault then 1 else 0)
  {
    assert (addrs + [a])[..|addrs|] == addrs;
  }

  /** A freshly created user: no addresses, no image, no store. */
  function NewUser(role: Role, email: string, password: string, name: Option<string>,
                   phone: Option<string>, storeName: Option<string>, region: Option<District>,
                   availability: Option<string>, status: UserStatus): (u: User)
    ensures u.role == role && u.email == email && u.status == status && u.addresses == []
  {
    User(role, email, password, name, phone, None, storeName, region, availability, status, [])
  }

  /** A user's status set to `s` (the soft delete, approval and
      deactivation of the handlers), everything else as it was. */
  function SetStatus(users: map<UserId, User>, id: UserId, s: UserStatus): (r: map<UserId, User>)
    requires id in users
    ensures r.Keys == users.Keys && r[id].status == s
    ensures r[id] == users[id].(status := s)
    ensures forall other :: other in users && other != id ==> r[other] == users[other]
    ensures AdminIds(r) == AdminIds(users)
    ensures ActiveAdminIds(r) ==
      if s == Active && users[id].role == Admin then ActiveAdminIds(users) + {id} else ActiveAdminIds(users) - {id}
    ensures EmailsUnique(users) ==> EmailsUnique(r)
  {
    users[id := users[id].(status := s)]
  }

  /** Inserting a user whose email is not taken keeps emails unique. */
  lemma InsertKeepsEmailsUnique(users: map<UserId, User>, id: UserId, u: User)
    requires EmailsUnique(users) && id !in users && !EmailTaken(users, u.email)
    ensures EmailsUnique(users[id := u])
  {
  }

  /** Replacing a user by a record with the same email keeps emails unique. */
  lemma ReplaceKeepsEmailsUnique(users: map<UserId, User>, id: UserId, u: User)
    requires EmailsUnique(users) && id in users && u.email == users[id].email
    ensures EmailsUnique(users[id := u])
  {
    var r := users[id := u];
    forall a, b | a in r && b in r && r[a].email == r[b].email ensures a == b {
      if a == id || b == id {
        assert users[a].email == users[b].email;
      }
    }
  }
}
