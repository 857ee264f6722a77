/**
 * The server's state and request handlers: the users and orders collections,
 * the Google login callback (server.js:66-83), POST /api/custom-order
 * (server.js:151-194), GET /admin (server.js:240-243), POST
 * /admin/order/:id/update (server.js:245-263) and GET /api/my-orders
 * (server.js:266-269).
 *
 * The clock, the outcome of the store write and the outcome of the SMTP send
 * are parameters. Ids are handed out from counters, so a new id is never in use.
 */
module Server {
  import opened Common
  import opened Js
  import opened OrderSchema
  import opened Principal
  import opened Http
  import opened Guards
  import opened Lifecycle
  import opened Queries

  /** The externally visible steps of order creation, in the order they happen. */
  datatype Effect =
    | OrderStored(id: OrderId)
    | MailAttempted(to: string, orderId: OrderId, delivered: bool)

  class App {
    /** `process.env.ADMIN_EMAILS`, read-only after start-up. */
    const adminEmails: Option<string>

    var users: map<UserId, User>
    var nextUserId: nat
    var orders: map<OrderId, Order>
    var nextOrderId: nat

    /** Every order write and notification attempt so far. */
    ghost var effects: seq<Effect>

    ghost predicate Valid()
      reads this
    {
      && UsersValid(users, nextUserId)
      && Keyed(orders)
      && (forall k :: k in orders ==> k < nextOrderId && WellFormed(orders[k]))
    }

    constructor (adminEmails: Option<string>)
      ensures Valid()
      ensures this.adminEmails == adminEmails
      ensures users == map[] && nextUserId == 0 && orders == map[] && nextOrderId == 0 && effects == []
    {
      this.adminEmails := adminEmails;
      users, nextUserId := map[], 0;
      orders, nextOrderId := map[], 0;
      effects := [];
    }

    /** The Google strategy's verify callback: find the user by Google id, or create it. */
    method Login(profile: Profile) returns (r: Result<User, LoginError>)
      requires Valid()
      modifies this
      ensures Valid()
      ensures var out := FindOrCreate(old(users), old(nextUserId), profile);
              r == out.result && users == out.users && nextUserId == out.nextId
      ensures orders == old(orders) && nextOrderId == old(nextOrderId) && effects == old(effects)
    {
      if profile.emails == [] {
        return Failure(NoProfileEmail);
      }
      var email := ToLower(profile.emails[0]);
      var found := FindByGoogleId(users, profile.id, nextUserId);
      if found.Some? {
        r := Success(users[found.value]);
      } else {
        var user := User(nextUserId, profile.id, Some(email), profile.displayName);
        users := users[nextUserId := user];
        nextUserId := nextUserId + 1;
        r := Success(user);
      }
    }

    /**
     * POST /api/custom-order behind `ensureAuth`. The order is written first; the
     * notification is attempted only after that, and a failed send turns the
     * response into a 500 without undoing the write.
     */
    method PostCustomOrder(req: Request, body: OrderBody, now: nat, stored: bool, delivered: bool)
      returns (resp: Response)
      requires Valid()
      modifies this
      ensures Valid()
      ensures users == old(users) && nextUserId == old(nextUserId)
      ensures req.user.None? ==>
                && resp == EnsureAuth(req).response
                && orders == old(orders) && nextOrderId == old(nextOrderId) && effects == old(effects)
      ensures req.user.Some? && !stored ==>
                && resp == ServerError
                && orders == old(orders) && nextOrderId == old(nextOrderId) && effects == old(effects)
      ensures req.user.Some? && stored ==>
                var id := old(nextOrderId);
                && id !in old(orders)
                && orders == old(orders)[id := NewCustomOrder(id, req.user.value, body, now)]
                && nextOrderId == id + 1
                && effects == old(effects) + [OrderStored(id), MailAttempted(AdminRecipients(adminEmails), id, delivered)]
                && resp == (if delivered then Created(id) else ServerError)
    {
      var gate := EnsureAuth(req);
      if gate.Halt? {
        return gate.response;
      }
      if !stored {
        return ServerError;
      }
      var id := CreateOrder(req.user.value, body, now);
      NotifyAdmins(id, delivered);
      if delivered {
        resp := Created(id);
      } else {
        resp := ServerError;
      }
    }

    /** `Order.create(...)`: the new order is stored at a fresh id. */
    method CreateOrder(user: User, body: OrderBody, now: nat) returns (id: OrderId)
      requires Valid()
      modifies this
      ensures Valid()
      ensures id == old(nextOrderId) && id !in old(orders)
      ensures orders == old(orders)[id := NewCustomOrder(id, user, body, now)]
      ensures nextOrderId == id + 1
      ensures effects == old(effects) + [OrderStored(id)]
      ensures users == old(users) && nextUserId == old(nextUserId)
    {
      id := nextOrderId;
      NewCustomOrderWellFormed(id, user, body, now);
      orders := orders[id := NewCustomOrder(id, user, body, now)];
      nextOrderId := nextOrderId + 1;
      effects := effects + [OrderStored(id)];
    }

    /** `transporter.sendMail(...)` to the trimmed ADMIN_EMAILS: one attempt, whose outcome is `delivered`. */
    method NotifyAdmins(id: OrderId, delivered: bool)
      modifies this`effects
      ensures effects == old(effects) + [MailAttempted(AdminRecipients(adminEmails), id, delivered)]
    {
      effects := effects + [MailAttempted(AdminRecipients(adminEmails), id, delivered)];
    }

    /**
     * POST /admin/order/:id/update, which has no guard: an unknown id gives 404 and
     * changes nothing; otherwise the fetched order's fields are assigned and it is saved.
     */
    method PostAdminUpdate(id: OrderId, body: UpdateBody) returns (resp: Response)
      requires Valid()
      modifies this
      ensures Valid()
      ensures users == old(users) && nextUserId == old(nextUserId)
      ensures nextOrderId == old(nextOrderId) && effects == old(effects)
      ensures id !in old(orders) ==> resp == OrderNotFound && orders == old(orders)
      ensures id in old(orders) ==>
                && resp == Redirect(AdminPath)
                && orders == old(orders)[id := Transition(old(orders)[id], DecodeAction(body.action), body.price, body.comments)]
    {
      if id !in orders {
        return OrderNotFound;
      }
      var order := orders[id];
      var action := DecodeAction(body.action);
      if action == Approve {
        order := order.(status := Approved);
        order := order.(price := Or(body.price, order.price));
        order := order.(comments := Or(body.comments, order.comments));
      } else if action == Disapprove {
        order := order.(status := Disapproved);
        order := order.(comments := Or(body.comments, order.comments));
      }
      TransitionWellFormed(orders[id], action, body.price, body.comments);
      orders := orders[id := order];
      resp := Redirect(AdminPath);
    }

    /** GET /api/my-orders behind `ensureAuth`: the caller's orders, newest first. */
    method GetMyOrders(req: Request) returns (resp: Response)
      requires Valid()
      ensures req.user.None? ==> resp == EnsureAuth(req).response
      ensures req.user.Some? ==>
                && resp.OrderList?
                && (forall o :: o in resp.orders <==> Stored(orders, o) && o.userId == req.user.value.id)
                && NewestFirst(resp.orders)
                && Distinct(resp.orders)
    {
      var gate := EnsureAuth(req);
      if gate.Halt? {
        return gate.response;
      }
      resp := OrderList(OwnOrders(orders, nextOrderId, req.user.value.id));
    }

    /** GET /admin, which has no guard: the 200 newest orders, newest first. */
    method GetAdminOrders() returns (resp: Response)
      requires Valid()
      ensures resp.AdminPage?
      ensures |resp.orders| <= AdminListLimit
      ensures forall o :: o in resp.orders ==> Stored(orders, o)
      ensures NewestFirst(resp.orders) && Distinct(resp.orders)
      ensures forall o :: Stored(orders, o) && o !in resp.orders ==>
                && |resp.orders| == AdminListLimit
                && forall x :: x in resp.orders ==> o.createdAt <= x.createdAt
    {
      resp := AdminPage(NewestOrders(orders, nextOrderId));
    }
  }

  /** Logging in twice with the same Google id returns the first user, e-mail lower-cased and not refreshed. */
  method LoginWalkthrough()
  {
    var app := new App(None);
    var login := app.Login(Profile("g-a", ["A@x.com"], "A"));
    assert ToLower("A@x.com") == "a@x.com" by {
      assert LowerChar('A') == 'a';
    }
    assert login == Success(User(0, "g-a", Some("a@x.com"), "A"));
    var again := app.Login(Profile("g-a", ["changed@x.com"], "A2"));
    assert again == login;
  }

  /** A signed-in customer orders a mug: the stored order is "not viewed" and carries the customer's e-mail. */
  method CreateWalkthrough(a: User)
  {
    var app := new App(None);
    var req := Request(Some(a), false, None, None);
    var created := app.PostCustomOrder(req, OrderBody(Str("Mug"), Str("blue")), 7, true, false);
    assert created == ServerError;
    assert 0 in app.orders && app.orders[0].status == NotViewed && app.orders[0].userEmail == a.email;
  }

  /**
   * An administrator approves a fresh order with a price: comments stay unset, and
   * a second identical approval changes nothing; an unknown id is a 404.
   */
  method ApproveWalkthrough(app: App)
    requires app.Valid() && 0 in app.orders
    requires app.orders[0].status == NotViewed && app.orders[0].comments == Undefined
    modifies app
  {
    var approve := UpdateBody(Str("approve"), Num(12.5), Undefined);
    var _ := app.PostAdminUpdate(0, approve);
    assert app.orders[0].status == Approved && app.orders[0].price == Num(12.5);
    assert app.orders[0].comments == Undefined;
    var before := app.orders;
    var _ := app.PostAdminUpdate(0, approve);
    TransitionIdempotent(before[0], Approve, Num(12.5), Undefined);
    assert app.orders == before;
  }
}
