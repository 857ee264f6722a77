/**
 * The two listing queries: `Order.find({userId}).sort({createdAt: -1})`
 * (server.js:267) and `Order.find().sort({createdAt: -1}).limit(200)`
 * (server.js:241), over a collection held as a map from id to order.
 */
module Queries {
  import opened OrderSchema

  const AdminListLimit := 200

  /** The collection stores `o` under its own id. */
  predicate Stored(orders: map<OrderId, Order>, o: Order)
  {
    o.id in orders && orders[o.id] == o
  }

  /** Every order is stored under its own id. */
  ghost predicate Keyed(orders: map<OrderId, Order>)
  {
    forall k :: k in orders ==> orders[k].id == k
  }

  ghost predicate NewestFirst(s: seq<Order>)
  {
    forall i, j :: 0 <= i < j < |s| ==> s[i].createdAt >= s[j].createdAt
  }

  ghost predicate Distinct(s: seq<Order>)
  {
    forall i, j :: 0 <= i < j < |s| ==> s[i] != s[j]
  }

  ghost predicate IdsIncreasing(s: seq<Order>)
  {
    forall i, j :: 0 <= i < j < |s| ==> s[i].id < s[j].id
  }

  /** The stored orders with ids below `n`, in id order. */
  function Scan(orders: map<OrderId, Order>, n: nat): (r: seq<Order>)
    requires Keyed(orders)
    ensures forall o :: o in r <==> Stored(orders, o) && o.id < n
    ensures IdsIncreasing(r)
    decreases n
  {
    if n == 0 then []
    else
      var prefix := Scan(orders, n - 1);
      if n - 1 in orders then prefix + [orders[n - 1]] else prefix
  }

  /** The orders of `s` owned by `owner`, in their order in `s`. */
  function OwnedBy(s: seq<Order>, owner: UserId): (r: seq<Order>)
    ensures forall o :: o in r <==> o in s && o.userId == owner
    ensures IdsIncreasing(s) ==> IdsIncreasing(r)
    decreases |s|
  {
    if s == [] then []
    else
      var rest := OwnedBy(s[..|s| - 1], owner);
      if s[|s| - 1].userId == owner then rest + [s[|s| - 1]] else rest
  }

  /** An order no older than the head of a newest-first sequence may go in front of it. */
  lemma PrependNewest(x: Order, s: seq<Order>)
    requires NewestFirst(s)
    requires s != [] ==> s[0].createdAt <= x.createdAt
    ensures NewestFirst([x] + s)
  {
    var r := [x] + s;
    forall i, j | 0 <= i < j < |r| ensures r[i].createdAt >= r[j].createdAt {
      if i == 0 {
        assert r[j] == s[j - 1];
        assert s[0].createdAt >= s[j - 1].createdAt;
      } else {
        assert r[i] == s[i - 1] && r[j] == s[j - 1];
      }
    }
  }

  /** Places `o` into a newest-first sequence, before the first order not newer than it. */
  function Insert(o: Order, s: seq<Order>): (r: seq<Order>)
    ensures |r| == |s| + 1
    decreases |s|
  {
    if s == [] then [o]
    else if o.createdAt >= s[0].createdAt then [o] + s
    else [s[0]] + Insert(o, s[1..])
  }

  /** Inserting into a newest-first sequence keeps it newest-first; the head is `o` or the old head. */
  lemma {:induction false} InsertNewestFirst(o: Order, s: seq<Order>)
    requires NewestFirst(s)
    ensures NewestFirst(Insert(o, s))
    ensures Insert(o, s)[0] == o || (s != [] && Insert(o, s)[0] == s[0])
    decreases |s|
  {
    if s == [] {
    } else if o.createdAt >= s[0].createdAt {
      PrependNewest(o, s);
    } else {
      var rest := Insert(o, s[1..]);
      InsertNewestFirst(o, s[1..]);
      PrependNewest(s[0], rest);
    }
  }

  /** Inserting adds exactly `o`. */
  lemma {:induction false} InsertAddsOne(o: Order, s: seq<Order>)
    ensures multiset(Insert(o, s)) == multiset(s) + multiset{o}
    decreases |s|
  {
    if s != [] && o.createdAt < s[0].createdAt {
      InsertAddsOne(o, s[1..]);
      assert s == [s[0]] + s[1..];
    }
  }

  /** `.sort({createdAt: -1})` */
  function SortNewest(s: seq<Order>): (r: seq<Order>)
    ensures |r| == |s|
    decreases |s|
  {
    if s == [] then [] else Insert(s[0], SortNewest(s[1..]))
  }

  /** Sorting gives a newest-first permutation of its input. */
  lemma {:induction false} SortNewestSpec(s: seq<Order>)
    ensures NewestFirst(SortNewest(s))
    ensures multiset(SortNewest(s)) == multiset(s)
    decreases |s|
  {
    if s != [] {
      var rest := SortNewest(s[1..]);
      SortNewestSpec(s[1..]);
      InsertNewestFirst(s[0], rest);
      InsertAddsOne(s[0], rest);
      assert s == [s[0]] + s[1..];
    }
  }

  /** A permutation of a sequence without repeats has no repeats. */
  lemma {:induction false} PermutationDistinct(a: seq<Order>, b: seq<Order>)
    requires multiset(a) == multiset(b)
    requires Distinct(b)
    ensures Distinct(a)
  {
    DistinctCountsOne(b);
    forall i, j | 0 <= i < j < |a| ensures a[i] != a[j] {
      if a[i] == a[j] {
        CountTwo(a, i, j);
        assert false;
      }
    }
  }

  lemma {:induction false} DistinctCountsOne(s: seq<Order>)
    requires Distinct(s)
    ensures forall x :: multiset(s)[x] <= 1
    decreases |s|
  {
    if s != [] {
      var init := s[..|s| - 1];
      assert Distinct(init);
      DistinctCountsOne(init);
      assert s == init + [s[|s| - 1]];
      assert s[|s| - 1] !in init;
    }
  }

  lemma CountTwo(s: seq<Order>, i: nat, j: nat)
    requires i < j < |s| && s[i] == s[j]
    ensures multiset(s)[s[i]] >= 2
  {
    assert s == s[..i] + [s[i]] + s[i + 1..j] + [s[j]] + s[j + 1..];
  }

  lemma IdsIncreasingDistinct(s: seq<Order>)
    requires IdsIncreasing(s)
    ensures Distinct(s)
  {
  }

  // ---------------------------------------------------------------------
  // The two listings

  /** `Order.find({userId: owner}).sort({createdAt: -1})` */
  function OwnOrders(orders: map<OrderId, Order>, n: nat, owner: UserId): (r: seq<Order>)
    requires Keyed(orders)
    requires forall k :: k in orders ==> k < n
    ensures forall o :: o in r <==> Stored(orders, o) && o.userId == owner
    ensures NewestFirst(r)
    ensures Distinct(r)
  {
    var matching := OwnedBy(Scan(orders, n), owner);
    var r := SortNewest(matching);
    SortNewestSpec(matching);
    IdsIncreasingDistinct(matching);
    PermutationDistinct(r, matching);
    assert forall o :: o in r <==> o in matching by {
      forall o ensures o in r <==> o in matching {
        assert o in r <==> o in multiset(r);
      }
    }
    r
  }

  /** `Order.find().sort({createdAt: -1})`: every stored order once, newest first. */
  function AllNewest(orders: map<OrderId, Order>, n: nat): (r: seq<Order>)
    requires Keyed(orders)
    requires forall k :: k in orders ==> k < n
    ensures forall o :: o in r <==> Stored(orders, o)
    ensures NewestFirst(r)
    ensures Distinct(r)
  {
    var all := Scan(orders, n);
    var r := SortNewest(all);
    SortNewestSpec(all);
    IdsIncreasingDistinct(all);
    PermutationDistinct(r, all);
    assert forall o :: o in r <==> o in all by {
      forall o ensures o in r <==> o in multiset(r) {
      }
    }
    r
  }

  /** `.limit(n)`: the first `n` elements, or all of them when there are fewer. */
  function Limit(s: seq<Order>, n: nat): (r: seq<Order>)
    ensures |r| <= n && |r| <= |s|
    ensures r == s[..|r|]
    ensures |r| < n ==> r == s
  {
    if |s| <= n then s else s[..n]
  }

  /**
   * Cutting a newest-first listing without repeats keeps it so, and what the cut
   * leaves out is no newer than anything it keeps.
   */
  lemma LimitKeepsNewest(s: seq<Order>, n: nat)
    requires NewestFirst(s) && Distinct(s)
    ensures var r := Limit(s, n);
            && (forall o :: o in r ==> o in s)
            && NewestFirst(r) && Distinct(r)
            && forall o :: o in s && o !in r ==> |r| == n && forall x :: x in r ==> o.createdAt <= x.createdAt
  {
    var r := Limit(s, n);
    forall o | o in s && o !in r
      ensures |r| == n && forall x :: x in r ==> o.createdAt <= x.createdAt
    {
      var k :| 0 <= k < |s| && s[k] == o;
      assert k >= |r|;
      forall x | x in r ensures o.createdAt <= x.createdAt {
        var m :| 0 <= m < |r| && r[m] == x;
        assert s[m] == x;
      }
    }
  }

  /**
   * `Order.find().sort({createdAt: -1}).limit(200)`: at most 200 stored orders,
   * newest first, each once; an order left out means 200 were listed, none of
   * them older than it.
   */
  function NewestOrders(orders: map<OrderId, Order>, n: nat): (r: seq<Order>)
    requires Keyed(orders)
    requires forall k :: k in orders ==> k < n
    ensures |r| <= AdminListLimit
    ensures forall o :: o in r ==> Stored(orders, o)
    ensures NewestFirst(r)
    ensures Distinct(r)
    ensures forall o :: Stored(orders, o) && o !in r ==>
              |r| == AdminListLimit && forall x :: x in r ==> o.createdAt <= x.createdAt
  {
    var sorted := AllNewest(orders, n);
    LimitKeepsNewest(sorted, AdminListLimit);
    Limit(sorted, AdminListLimit)
  }
}
