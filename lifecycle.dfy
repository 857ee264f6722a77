/**
 * The rules of the order lifecycle as pure functions: the new order built by
 * POST /api/custom-order (server.js:153-162), the recipients of the
 * notification (server.js:174-177), and the field updates applied by
 * POST /admin/order/:id/update (server.js:252-259).
 */
module Lifecycle {
  import opened Common
  import opened Js
  import opened OrderSchema
  import opened Principal
  import opened Guards

  const DefaultTitle := "Custom Cup"

  /** `req.body` of POST /api/custom-order. */
  datatype OrderBody = OrderBody(title: Value, description: Value)

  /** `req.body` of POST /admin/order/:id/update. */
  datatype UpdateBody = UpdateBody(action: Value, price: Value, comments: Value)

  /**
   * The order `Order.create` is given: owned by the current user, with a copy of
   * that user's e-mail, the given title unless it is falsy (then "Custom Cup"),
   * the given description unless it is falsy (then ''), status "not viewed",
   * and no price or comments yet.
   */
  function NewCustomOrder(id: OrderId, user: User, body: OrderBody, now: nat): (o: Order)
    ensures o.id == id && o.userId == user.id && o.userEmail == user.email && o.createdAt == now
    ensures o.title == (if Truthy(body.title) then body.title else Str(DefaultTitle))
    ensures o.description == (if Truthy(body.description) then body.description else Str(""))
    ensures StatusName(o.status) == "not viewed"
    ensures o.price == Undefined && o.comments == Undefined
  {
    NewOrder(id, user.id, user.email, Or(body.title, Str(DefaultTitle)), Or(body.description, Str("")),
             Some(NotViewed), now)
  }

  /**
   * A field that is either unset or holds a truthy value: what every `x || old`
   * merge leaves behind when it starts from such a field.
   */
  predicate Merged(v: Value)
  {
    v == Undefined || Truthy(v)
  }

  /** What every stored order satisfies. */
  predicate WellFormed(o: Order)
  {
    Truthy(o.title) && Merged(o.price) && Merged(o.comments)
  }

  lemma NewCustomOrderWellFormed(id: OrderId, user: User, body: OrderBody, now: nat)
    ensures WellFormed(NewCustomOrder(id, user, body, now))
  {
  }

  // ---------------------------------------------------------------------
  // Administrative update

  /** The action string, decoded once: `=== 'approve'`, `=== 'disapprove'`, or anything else. */
  datatype Action = Approve | Disapprove | Ignore

  function DecodeAction(v: Value): (a: Action)
    ensures a == Approve <==> v == Str("approve")
    ensures a == Disapprove <==> v == Str("disapprove")
  {
    if v == Str("approve") then Approve
    else if v == Str("disapprove") then Disapprove
    else Ignore
  }

  /**
   * The in-place assignments the update handler makes to the fetched order before
   * `order.save()`: identity, owner, owner e-mail, title, description and creation
   * time never change.
   */
  function Transition(o: Order, action: Action, price: Value, comments: Value): (r: Order)
    ensures r.id == o.id && r.userId == o.userId && r.userEmail == o.userEmail
    ensures r.title == o.title && r.description == o.description && r.createdAt == o.createdAt
  {
    match action
    case Approve => o.(status := Approved, price := Or(price, o.price), comments := Or(comments, o.comments))
    case Disapprove => o.(status := Disapproved, comments := Or(comments, o.comments))
    case Ignore => o
  }

  /** The transition table: the new status and where price and comments come from. */
  lemma TransitionTable(o: Order, action: Action, price: Value, comments: Value)
    ensures var r := Transition(o, action, price, comments);
            && (action == Approve ==>
                  && r.status == Approved
                  && r.price == (if Truthy(price) then price else o.price)
                  && r.comments == (if Truthy(comments) then comments else o.comments))
            && (action == Disapprove ==>
                  && r.status == Disapproved
                  && r.price == o.price
                  && r.comments == (if Truthy(comments) then comments else o.comments))
            && (action == Ignore ==> r == o)
  {
  }

  /** A falsy supplied value ('' , 0, absent) never erases a recorded price or comment. */
  lemma TransitionNeverErases(o: Order, action: Action, price: Value, comments: Value)
    ensures var r := Transition(o, action, price, comments);
            && (Truthy(o.price) ==> Truthy(r.price))
            && (Truthy(o.comments) ==> Truthy(r.comments))
  {
  }

  lemma TransitionWellFormed(o: Order, action: Action, price: Value, comments: Value)
    requires WellFormed(o)
    ensures WellFormed(Transition(o, action, price, comments))
  {
  }

  /** Applying the same update twice is applying it once (in particular, re-approving). */
  lemma TransitionIdempotent(o: Order, action: Action, price: Value, comments: Value)
    ensures var once := Transition(o, action, price, comments);
            Transition(once, action, price, comments) == once
  {
  }

  /**
   * The status after a sequence of updates: the status set by the last approve or
   * disapprove, or the starting status when there was none.
   */
  function LastDecision(start: Status, actions: seq<Action>): (st: Status)
    ensures st == start || st == Approved || st == Disapproved
    decreases |actions|
  {
    if actions == [] then start
    else match actions[|actions| - 1]
      case Approve => Approved
      case Disapprove => Disapproved
      case Ignore => LastDecision(start, actions[..|actions| - 1])
  }

  /** The decoded actions of a series of update bodies. */
  function Actions(updates: seq<UpdateBody>): (actions: seq<Action>)
    ensures |actions| == |updates|
  {
    seq(|updates|, i requires 0 <= i < |updates| => DecodeAction(updates[i].action))
  }

  /** A series of POST /admin/order/:id/update requests on one order, each with its own body. */
  function ApplyEach(o: Order, updates: seq<UpdateBody>): Order
    decreases |updates|
  {
    if updates == [] then o
    else
      var u := updates[|updates| - 1];
      Transition(ApplyEach(o, updates[..|updates| - 1]), DecodeAction(u.action), u.price, u.comments)
  }

  /**
   * There is no terminal state: after any series of updates the status is the
   * last decision made, so an order stays "not viewed" until an administrator decides.
   */
  lemma {:induction false} StatusIsLastDecision(o: Order, updates: seq<UpdateBody>)
    ensures ApplyEach(o, updates).status == LastDecision(o.status, Actions(updates))
    decreases |updates|
  {
    if updates != [] {
      var init := updates[..|updates| - 1];
      StatusIsLastDecision(o, init);
      assert Actions(init) == Actions(updates)[..|updates| - 1];
    }
  }

  // ---------------------------------------------------------------------
  // Notification recipients

  /** The trimmed entries of ADMIN_EMAILS. */
  function TrimmedEntries(adminEmails: Option<string>): (entries: seq<string>)
    ensures |entries| >= 1
    ensures forall i :: 0 <= i < |entries| ==> ',' !in entries[i]
  {
    var parts := Split(ConfigOrEmpty(adminEmails), ',');
    var entries := seq(|parts|, i requires 0 <= i < |parts| => Trim(parts[i]));
    assert forall i :: 0 <= i < |entries| ==> ',' !in entries[i] by {
      forall i | 0 <= i < |entries| ensures ',' !in entries[i] {
        if ',' in entries[i] {
          TrimChars(parts[i], ',');
        }
      }
    }
    entries
  }

  /** The `to` field of the notification: the trimmed entries joined with ','; it splits back into them. */
  function AdminRecipients(adminEmails: Option<string>): (to: string)
    ensures Split(to, ',') == TrimmedEntries(adminEmails)
  {
    SplitJoin(TrimmedEntries(adminEmails), ',');
    Join(TrimmedEntries(adminEmails), ',')
  }

  /**
   * Reading the recipient string back as a list and lower-casing each entry gives
   * the list `ensureAdmin` admits: the notification goes to the same people the
   * admin guard lets in.
   */
  lemma RecipientsAreAdmins(adminEmails: Option<string>)
    ensures var recipients := Split(AdminRecipients(adminEmails), ',');
            && |recipients| == |AdminList(adminEmails)|
            && forall i :: 0 <= i < |recipients| ==> ToLower(recipients[i]) == AdminList(adminEmails)[i]
  {
  }
}
