/**
 * The Order document (models/Order.js): its fields, the closed set of status
 * values the server writes, and the one schema default, `status: 'not viewed'`.
 */
module OrderSchema {
  import opened Common
  import opened Js

  type UserId = nat
  type OrderId = nat

  /** The status values the server ever writes. */
  datatype Status = NotViewed | Approved | Disapproved

  /** The string stored for each status; note the space in "not viewed". */
  function StatusName(st: Status): string
  {
    match st
    case NotViewed => "not viewed"
    case Approved => "approved"
    case Disapproved => "disapproved"
  }

  function ParseStatus(name: string): (r: Option<Status>)
    ensures r.Some? ==> StatusName(r.value) == name
    ensures r.None? ==> forall st :: StatusName(st) != name
  {
    if name == "not viewed" then Some(NotViewed)
    else if name == "approved" then Some(Approved)
    else if name == "disapproved" then Some(Disapproved)
    else None
  }

  /** Every status name parses back to its status, so the three names are distinct. */
  lemma StatusNameRoundTrip(st: Status)
    ensures ParseStatus(StatusName(st)) == Some(st)
  {
  }

  /**
   * An Order document. `userId` references a User; `userEmail` is a copy of that
   * user's e-mail taken when the order is created. `price` and `comments` are
   * `Undefined` until an administrator writes them.
   */
  datatype Order = Order(
    id: OrderId,
    userId: UserId,
    userEmail: Option<string>,
    title: Value,
    description: Value,
    status: Status,
    price: Value,
    comments: Value,
    createdAt: nat)

  /**
   * Building a document from the schema: fields not supplied are unset, and
   * `status` falls back to its default.
   */
  function NewOrder(id: OrderId, userId: UserId, userEmail: Option<string>, title: Value,
                    description: Value, status: Option<Status>, createdAt: nat): (o: Order)
    ensures o.id == id && o.userId == userId && o.userEmail == userEmail && o.createdAt == createdAt
    ensures o.title == title && o.description == description
    ensures status.None? ==> StatusName(o.status) == "not viewed"
    ensures status.Some? ==> o.status == status.value
    ensures o.price == Undefined && o.comments == Undefined
  {
    Order(id, userId, userEmail, title, description,
          match status case Some(st) => st case None => NotViewed,
          Undefined, Undefined, createdAt)
  }
}
