/** Definitions shared by every part of the marketplace model: optional
    values (JavaScript's `undefined`/`null`), the HTTP outcome of a handler,
    record identifiers, and the district list used by orders and couriers. */
module Common {

  datatype Option<T> = None | Some(value: T)

  /** The answer of a read-only handler: the data it returns, or the
      status of the guard that refused. */
  datatype Outcome<T> = Success(value: T) | Failure(status: Status)

  /** Record identifiers (database object ids). */
  type UserId = nat
  type ProductId = nat
  type OrderId = nat
  type CategoryId = nat

  /** `findIndex` on the product ids of a list, as the cart and order
      handlers use it: the first position holding `id`, or -1. */
  function FirstIndexOf(ids: seq<ProductId>, id: ProductId): (r: int)
    ensures -1 <= r < |ids|
    ensures r == -1 <==> forall i :: 0 <= i < |ids| ==> ids[i] != id
    ensures r >= 0 ==> ids[r] == id && forall i :: 0 <= i < r ==> ids[i] != id
  {
    if |ids| == 0 then -1
    else
      var k := FirstIndexOf(ids[..|ids| - 1], id);
      if k >= 0 then k
      else if ids[|ids| - 1] == id then |ids| - 1
      else -1
  }

  /** The HTTP status a handler answers with. */
  datatype Status = Ok | Created | BadRequest | Unauthorized | Forbidden | NotFound | ServerError

  function HttpCode(s: Status): (code: nat)
    ensures 200 <= code < 600
    ensures s.Ok? || s.Created? <==> code < 300
  {
    match s
    case Ok => 200
    case Created => 201
    case BadRequest => 400
    case Unauthorized => 401
    case Forbidden => 403
    case NotFound => 404
    case ServerError => 500
  }

  /** A string field as JavaScript sees it: absent, or present (possibly "").
      `Truthy` is JavaScript truthiness of such a value. */
  predicate Truthy(s: Option<string>)
  {
    s.Some? && s.value != ""
  }

  /** JavaScript's `x || y` on two optional strings. */
  function OrElse(x: Option<string>, y: Option<string>): (r: Option<string>)
    ensures Truthy(x) ==> r == x
    ensures !Truthy(x) ==> r == y
  {
    if Truthy(x) then x else y
  }

  /** The 25 districts accepted for a shipping address and a courier region
      (models/Order.js:113-119, models/User.js:24-30). */
  datatype District =
    | Ampara | Anuradhapura | Badulla | Batticaloa | Colombo
    | Galle | Gampaha | Hambantota | Jaffna | Kalutara
    | Kandy | Kegalle | Kilinochchi | Kurunegala | Mannar
    | Matale | Matara | Monaragala | Mullaitivu | NuwaraEliya
    | Polonnaruwa | Puttalam | Ratnapura | Trincomalee | Vavuniya

  /** A district given in a request: absent, one of the listed districts,
      or any other string (which the schema's enum refuses). */
  datatype DistrictInput = Missing | Listed(district: District) | Unlisted(name: string)
}
