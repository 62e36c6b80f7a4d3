/** The signed-in user's own profile (controllers/profileController.js).
    The gate refuses only the status "inactive"; an account an admin
    soft-deleted (status "deleted") passes it. */
module ProfileController {
  import opened Common
  import opened UserModel
  import opened Db

  /** The `addresses` of a request body: falsy (absent, `null`, ...), a
      value that is not an array, or a list of addresses (an address given
      without `isDefault` reads as `false`). */
  datatype AddressesInput = NoAddresses | NotAnArray | AddressList(list: seq<SavedAddress>)

  /** The gate of all three handlers: 404 for a missing or inactive user. */
  function ProfileGate(users: map<UserId, User>, id: UserId): (r: Status)
    ensures r in {Ok, NotFound}
    ensures r == Ok <==> id in users && users[id].status != Inactive
  {
    if id !in users || users[id].status == Inactive then NotFound else Ok
  }

  /** getProfile. */
  function GetProfile(users: map<UserId, User>, id: UserId): (r: Outcome<User>)
    ensures r.Success? <==> ProfileGate(users, id) == Ok
    ensures r.Success? ==> r.value == users[id]
    ensures r.Failure? ==> r.status == NotFound
  {
    if ProfileGate(users, id) != Ok then Failure(NotFound) else Success(users[id])
  }

  /** updateProfile's record: name, phone and image replaced only when a
      truthy value is given, the password only when a truthy one is given
      (then by its hash), the address list replaced only when a list is
      given. Role, email and status never change. */
  function ProfileUpdated(u: User, name: Option<string>, phone: Option<string>, profileImage: Option<string>,
                          password: Option<string>, hash: string, addresses: AddressesInput): (r: User)
    requires !addresses.NotAnArray?
    ensures r.name == OrElse(name, u.name) && r.phone == OrElse(phone, u.phone)
    ensures r.profileImage == OrElse(profileImage, u.profileImage)
    ensures r.password == if Truthy(password) then hash else u.password
    ensures r.addresses == if addresses.AddressList? then addresses.list else u.addresses
    ensures r.role == u.role && r.email == u.email && r.status == u.status && r.region == u.region
  {
    u.(name := if Truthy(name) then name else u.name,
       phone := if Truthy(phone) then phone else u.phone,
       profileImage := if Truthy(profileImage) then profileImage else u.profileImage,
       password := if Truthy(password) then hash else u.password,
       addresses := if addresses.AddressList? then addresses.list else u.addresses)
  }

  /** updateProfile: 404 at the gate; 400 for addresses that are not an
      array or that mark more than one default, with nothing saved; 500
      when the record fails the schema (an empty hash); otherwise the
      updated record is saved. No saved list ever has two defaults. */
  method UpdateProfile(db: Store, id: UserId, name: Option<string>, phone: Option<string>, profileImage: Option<string>,
                       password: Option<string>, hash: string, addresses: AddressesInput) returns (status: Status)
    modifies db`users
    ensures ProfileGate(old(db.users), id) != Ok ==> status == NotFound
    ensures ProfileGate(old(db.users), id) == Ok && addresses.NotAnArray? ==> status == BadRequest
    ensures ProfileGate(old(db.users), id) == Ok && addresses.AddressList? && DefaultCount(addresses.list) > 1 ==>
      status == BadRequest
    ensures status == Ok <==>
      && ProfileGate(old(db.users), id) == Ok
      && !addresses.NotAnArray?
      && !(addresses.AddressList? && DefaultCount(addresses.list) > 1)
      && ValidUser(ProfileUpdated(old(db.users)[id], name, phone, profileImage, password, hash, addresses))
    ensures status != Ok ==> db.users == old(db.users)
    ensures status == Ok ==>
      db.users == old(db.users)[id := ProfileUpdated(old(db.users)[id], name, phone, profileImage, password, hash, addresses)]
    ensures status == Ok && addresses.AddressList? ==> DefaultCount(db.users[id].addresses) <= 1
    ensures id in old(db.users) && DefaultCount(old(db.users)[id].addresses) <= 1 ==> DefaultCount(db.users[id].addresses) <= 1
    ensures EmailsUnique(old(db.users)) ==> EmailsUnique(db.users)
  {
    if !(id in db.users && db.users[id].status != Inactive) {
      return NotFound;
    }
    if addresses.NotAnArray? {
      return BadRequest;
    }
    if addresses.AddressList? && DefaultCount(addresses.list) > 1 {
      return BadRequest;
    }
    var user := ProfileUpdated(db.users[id], name, phone, profileImage, password, hash, addresses);
    if !ValidUser(user) {
      return ServerError;
    }
    if EmailsUnique(db.users) {
      ReplaceKeepsEmailsUnique(db.users, id, user);
    }
    db.users := db.users[id := user];
    status := Ok;
  }

  /** deleteProfile: 404 at the gate, otherwise the status becomes
      "inactive", after which the gate refuses the user: a second delete
      answers 404. */
  method DeleteProfile(db: Store, id: UserId) returns (status: Status)
    modifies db`users
    ensures status == ProfileGate(old(db.users), id)
    ensures status != Ok ==> db.users == old(db.users)
    ensures status == Ok ==> db.users == SetStatus(old(db.users), id, Inactive)
    ensures status == Ok ==> ProfileGate(db.users, id) == NotFound
  {
    if !(id in db.users && db.users[id].status != Inactive) {
      return NotFound;
    }
    db.users := SetStatus(db.users, id, Inactive);
    status := Ok;
  }
}
