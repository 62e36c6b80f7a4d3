/** The admin's account handlers (controllers/adminController.js). Every
    delete is a soft delete: the status becomes "deleted" and the record
    stays in the collection. */
module AdminController {
  import opened Common
  import opened UserModel
  import opened Db

  // ---------------------------------------------------------------------
  // Creating admins and couriers
  // ---------------------------------------------------------------------

  /** The stored region for a request's region: a listed district, or none
      (an absent region fails the courier's `required` rule, any other
      string fails the enum). */
  function RegionOf(d: DistrictInput): (r: Option<District>)
    ensures r.Some? <==> d.Listed?
  {
    if d.Listed? then Some(d.district) else None
  }

  /** The account addAdmin builds; `hash` is the bcrypt hash of the given
      password. */
  function NewAdmin(email: string, hash: string, name: Option<string>, phone: Option<string>): (u: User)
    ensures u.role == Admin && u.status == Active && u.email == email && u.password == hash
    ensures ValidUser(u) <==> email != "" && hash != ""
  {
    NewUser(Admin, email, hash, name, phone, None, None, None, Active)
  }

  /** The account addCourier builds: active, available, in the given
      region. */
  function NewCourier(email: string, hash: string, name: Option<string>, phone: Option<string>, region: DistrictInput): (u: User)
    ensures u.role == Courier && u.status == Active && u.email == email && u.password == hash
    ensures u.availability == Some("active") && u.region == RegionOf(region)
    ensures ValidUser(u) <==> email != "" && hash != "" && region.Listed?
  {
    NewUser(Courier, email, hash, name, phone, None, RegionOf(region), Some("active"), Active)
  }

  /** The shared shape of addAdmin and addCourier: 400 when the email is
      already used by any account (deleted ones included), 500 when no
      password was given (the hash call throws) or the record fails the
      schema, otherwise 201 and the account is inserted. */
  method InsertAccount(db: Store, u: User, password: Option<string>, newId: UserId) returns (status: Status)
    requires newId !in db.users
    modifies db`users
    ensures status == Created <==> !EmailTaken(old(db.users), u.email) && password.Some? && ValidUser(u)
    ensures EmailTaken(old(db.users), u.email) ==> status == BadRequest
    ensures status != Created ==> status in {BadRequest, ServerError} && db.users == old(db.users)
    ensures status == Created ==> db.users == old(db.users)[newId := u]
    ensures EmailsUnique(old(db.users)) ==> EmailsUnique(db.users)
  {
    if EmailTaken(db.users, u.email) {
      return BadRequest;
    }
    if password.None? {
      return ServerError;
    }
    if !ValidUser(u) {
      return ServerError;
    }
    if EmailsUnique(db.users) {
      InsertKeepsEmailsUnique(db.users, newId, u);
    }
    db.users := db.users[newId := u];
    status := Created;
  }

  /** addAdmin. */
  method AddAdmin(db: Store, email: string, password: Option<string>, hash: string, name: Option<string>,
                  phone: Option<string>, newId: UserId) returns (status: Status)
    requires newId !in db.users
    modifies db`users
    ensures status == Created <==> !EmailTaken(old(db.users), email) && password.Some? && email != "" && hash != ""
    ensures EmailTaken(old(db.users), email) ==> status == BadRequest
    ensures status != Created ==> db.users == old(db.users)
    ensures status == Created ==> db.users == old(db.users)[newId := NewAdmin(email, hash, name, phone)]
    ensures status == Created ==> ActiveAdminIds(db.users) == ActiveAdminIds(old(db.users)) + {newId}
    ensures EmailsUnique(old(db.users)) ==> EmailsUnique(db.users)
  {
    status := InsertAccount(db, NewAdmin(email, hash, name, phone), password, newId);
  }

  /** addCourier: as addAdmin, and the region must be a listed district. */
  method AddCourier(db: Store, email: string, password: Option<string>, hash: string, name: Option<string>,
                    phone: Option<string>, region: DistrictInput, newId: UserId) returns (status: Status)
    requires newId !in db.users
    modifies db`users
    ensures status == Created <==>
      !EmailTaken(old(db.users), email) && password.Some? && email != "" && hash != "" && region.Listed?
    ensures EmailTaken(old(db.users), email) ==> status == BadRequest
    ensures status != Created ==> db.users == old(db.users)
    ensures status == Created ==> db.users == old(db.users)[newId := NewCourier(email, hash, name, phone, region)]
    ensures EmailsUnique(old(db.users)) ==> EmailsUnique(db.users)
  {
    status := InsertAccount(db, NewCourier(email, hash, name, phone, region), password, newId);
  }

  // ---------------------------------------------------------------------
  // Deleting admins
  // ---------------------------------------------------------------------

  /** deleteAdmin's guards: the id is an admin and more than one account
      has the role "admin", counting soft-deleted ones. */
  predicate DeleteAdminAllowed(users: map<UserId, User>, id: UserId)
  {
    id in users && users[id].role == Admin && |AdminIds(users)| > 1
  }

  /** deleteAdmin: 404 for a missing id or another role, 403 when at most
      one admin account exists, otherwise a soft delete. */
  method DeleteAdmin(db: Store, id: UserId) returns (status: Status)
    modifies db`users
    ensures status == Ok <==> DeleteAdminAllowed(old(db.users), id)
    ensures !(id in old(db.users) && old(db.users)[id].role == Admin) ==> status == NotFound
    ensures id in old(db.users) && old(db.users)[id].role == Admin && |AdminIds(old(db.users))| <= 1 ==> status == Forbidden
    ensures status != Ok ==> db.users == old(db.users)
    ensures status == Ok ==> db.users == SetStatus(old(db.users), id, Deleted)
    ensures AdminIds(db.users) == AdminIds(old(db.users))
  {
    if !(id in db.users && db.users[id].role == Admin) {
      return NotFound;
    }
    var adminCount := |AdminIds(db.users)|;
    if adminCount <= 1 {
      return Forbidden;
    }
    db.users := SetStatus(db.users, id, Deleted);
    status := Ok;
  }

  /** The count deleteAdmin checks never shrinks, so with two admin
      accounts both can be deleted, one after the other, and no active
      admin is left. */
  lemma EveryAdminCanBeDeleted(users: map<UserId, User>, a: UserId, b: UserId)
    requires a != b && AdminIds(users) == {a, b}
    ensures DeleteAdminAllowed(users, a)
    ensures DeleteAdminAllowed(SetStatus(users, a, Deleted), b)
    ensures ActiveAdminIds(SetStatus(SetStatus(users, a, Deleted), b, Deleted)) == {}
  {
    assert a in AdminIds(users) && b in AdminIds(users);
    assert |{a, b}| == 2;
    assert ActiveAdminIds(users) <= AdminIds(users);
    var u1 := SetStatus(users, a, Deleted);
    assert ActiveAdminIds(u1) <= {b};
  }

  // ---------------------------------------------------------------------
  // Couriers, sellers and buyers
  // ---------------------------------------------------------------------

  /** `findById(id)` found an account with this role. */
  predicate HasRole(users: map<UserId, User>, id: UserId, role: Role)
  {
    id in users && users[id].role == role
  }

  /** The region update `region || courier.region`: a falsy region keeps
      the old one. */
  predicate RegionGiven(region: DistrictInput)
  {
    region.Listed? || (region.Unlisted? && region.name != "")
  }

  /** updateCourier's merge: each of name, phone, region and availability
      is replaced only when the request gives a truthy value; everything
      else stays. */
  function MergedCourier(c: User, name: Option<string>, phone: Option<string>, region: DistrictInput,
                         availability: Option<string>): (r: User)
    requires region.Unlisted? ==> region.name == ""
    ensures r.name == (if Truthy(name) then name else c.name)
    ensures r.phone == (if Truthy(phone) then phone else c.phone)
    ensures r.region == (if region.Listed? then Some(region.district) else c.region)
    ensures r.availability == (if Truthy(availability) then availability else c.availability)
    ensures r.role == c.role && r.email == c.email && r.password == c.password
    ensures r.status == c.status && r.addresses == c.addresses && r.storeName == c.storeName
    ensures ValidUser(c) ==> ValidUser(r)
  {
    c.(name := OrElse(name, c.name), phone := OrElse(phone, c.phone),
       region := if region.Listed? then Some(region.district) else c.region,
       availability := OrElse(availability, c.availability))
  }

  /** updateCourier: 404 for a missing id or another role, 500 when a
      region outside the district list is given (the enum validator),
      otherwise the merged record is saved. The courier's status is not
      checked, so a deleted courier can be updated. */
  method UpdateCourier(db: Store, id: UserId, name: Option<string>, phone: Option<string>, region: DistrictInput,
                       availability: Option<string>) returns (status: Status)
    modifies db`users
    ensures status == Ok <==> HasRole(old(db.users), id, Courier) && !(RegionGiven(region) && !region.Listed?)
    ensures !HasRole(old(db.users), id, Courier) ==> status == NotFound
    ensures status != Ok ==> status in {NotFound, ServerError} && db.users == old(db.users)
    ensures status == Ok ==>
      db.users == old(db.users)[id := MergedCourier(old(db.users)[id], name, phone, region, availability)]
    ensures EmailsUnique(old(db.users)) ==> EmailsUnique(db.users)
  {
    if !HasRole(db.users, id, Courier) {
      return NotFound;
    }
    if region.Unlisted? && region.name != "" {
      return ServerError;
    }
    var courier := MergedCourier(db.users[id], name, phone, region, availability);
    if EmailsUnique(db.users) {
      ReplaceKeepsEmailsUnique(db.users, id, courier);
    }
    db.users := db.users[id := courier];
    status := Ok;
  }

  /** approveSeller: 404 for a missing id or another role, 400 for an
      already active seller; otherwise the status becomes "active". A
      soft-deleted seller passes the guards and is reactivated. */
  method ApproveSeller(db: Store, id: UserId) returns (status: Status)
    modifies db`users
    ensures status == Ok <==> HasRole(old(db.users), id, Seller) && old(db.users)[id].status != Active
    ensures !HasRole(old(db.users), id, Seller) ==> status == NotFound
    ensures HasRole(old(db.users), id, Seller) && old(db.users)[id].status == Active ==> status == BadRequest
    ensures status != Ok ==> db.users == old(db.users)
    ensures status == Ok ==> db.users == SetStatus(old(db.users), id, Active)
  {
    if !HasRole(db.users, id, Seller) {
      return NotFound;
    }
    if db.users[id].status == Active {
      return BadRequest;
    }
    db.users := SetStatus(db.users, id, Active);
    status := Ok;
  }

  /** The delete shared by deleteCourier, deleteSeller and deleteBuyer:
      404 for a missing id or another role, otherwise a soft delete, also
      of an account already deleted. */
  method SoftDeleteWithRole(db: Store, id: UserId, role: Role) returns (status: Status)
    modifies db`users
    ensures status == Ok <==> HasRole(old(db.users), id, role)
    ensures status != Ok ==> status == NotFound && db.users == old(db.users)
    ensures status == Ok ==> db.users == SetStatus(old(db.users), id, Deleted)
    ensures db.users.Keys == old(db.users).Keys
  {
    if !HasRole(db.users, id, role) {
      return NotFound;
    }
    db.users := SetStatus(db.users, id, Deleted);
    status := Ok;
  }

  /** deleteCourier. */
  method DeleteCourier(db: Store, id: UserId) returns (status: Status)
    modifies db`users
    ensures status == Ok <==> HasRole(old(db.users), id, Courier)
    ensures status != Ok ==> status == NotFound && db.users == old(db.users)
    ensures status == Ok ==> db.users == SetStatus(old(db.users), id, Deleted)
  {
    status := SoftDeleteWithRole(db, id, Courier);
  }

  /** deleteSeller. */
  method DeleteSeller(db: Store, id: UserId) returns (status: Status)
    modifies db`users
    ensures status == Ok <==> HasRole(old(db.users), id, Seller)
    ensures status != Ok ==> status == NotFound && db.users == old(db.users)
    ensures status == Ok ==> db.users == SetStatus(old(db.users), id, Deleted)
  {
    status := SoftDeleteWithRole(db, id, Seller);
  }

  /** deleteBuyer. */
  method DeleteBuyer(db: Store, id: UserId) returns (status: Status)
    modifies db`users
    ensures status == Ok <==> HasRole(old(db.users), id, Buyer)
    ensures status != Ok ==> status == NotFound && db.users == old(db.users)
    ensures status == Ok ==> db.users == SetStatus(old(db.users), id, Deleted)
  {
    status := SoftDeleteWithRole(db, id, Buyer);
  }
}
