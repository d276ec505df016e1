/** A price-sorted map of FIFO queues, and the priority list it stands for. */
module PriceLevels {
  import opened Numbers
  import opened BookSpec

  type Levels = map<nat, seq<Order>>

  ghost predicate IsBest(side: Side, prices: set<nat>, p: nat) {
    p in prices && forall q :: q in prices && q != p ==> Better(side, p, q)
  }

  lemma {:induction false} BestExists(side: Side, prices: set<nat>)
    requires prices != {}
    ensures exists p :: IsBest(side, prices, p)
    decreases |prices|
  {
    var p :| p in prices;
    if prices == {p} {
      assert IsBest(side, prices, p);
    } else {
      var rest := prices - {p};
      assert rest != {} by {
        assert prices == rest + {p};
      }
      BestExists(side, rest);
      var q :| IsBest(side, rest, q);
      assert IsBest(side, prices, if Better(side, q, p) then q else p);
    }
  }

  /** The first key of the map in priority order (`iter().next()` for asks, `next_back()` for bids). */
  function BestOf(side: Side, prices: set<nat>): (p: nat)
    requires prices != {}
    ensures IsBest(side, prices, p)
  {
    BestExists(side, prices);
    assert exists p :: p in prices && forall q :: q in prices && q != p ==> Better(side, p, q) by {
      var p :| IsBest(side, prices, p);
    }
    var p :| p in prices && forall q :: q in prices && q != p ==> Better(side, p, q);
    p
  }

  ghost function Flatten(side: Side, m: Levels): seq<Order>
    decreases |m|
  {
    if m == map[] then [] else
    var p := BestOf(side, m.Keys);
    m[p] + Flatten(side, m - {p})
  }

  /** No empty level, and every queued order has its level's price. */
  ghost predicate GoodLevels(m: Levels) {
    forall p :: p in m ==> m[p] != [] && forall o :: o in m[p] ==> o.price == p
  }

  lemma FlattenAtBest(side: Side, m: Levels, p: nat)
    requires IsBest(side, m.Keys, p)
    ensures Flatten(side, m) == m[p] + Flatten(side, m - {p})
  {
    assert BestOf(side, m.Keys) == p;
  }

  lemma FlattenWithBest(side: Side, m: Levels, p: nat, queue: seq<Order>)
    requires p !in m && forall q :: q in m ==> Better(side, p, q)
    ensures Flatten(side, m[p := queue]) == queue + Flatten(side, m)
  {
    var m' := m[p := queue];
    assert IsBest(side, m'.Keys, p);
    FlattenAtBest(side, m', p);
    assert m' - {p} == m;
  }

  lemma {:induction false} FlattenPrices(side: Side, m: Levels, o: Order)
    requires GoodLevels(m) && o in Flatten(side, m)
    ensures o.price in m && o in m[o.price]
    decreases |m|
  {
    var p := BestOf(side, m.Keys);
    if o !in m[p] {
      FlattenPrices(side, m - {p}, o);
    }
  }

  // ----- Pushing at the back of a level -----

  lemma {:induction false} InsertPast(side: Side, front: seq<Order>, rest: seq<Order>, o: Order)
    requires forall x :: x in front ==> !Better(side, o.price, x.price)
    ensures Insert(side, front + rest, o) == front + Insert(side, rest, o)
    decreases |front|
  {
    if front == [] {
      assert front + rest == rest && front + Insert(side, rest, o) == Insert(side, rest, o);
    } else {
      assert (front + rest)[0] == front[0] && (front + rest)[1..] == front[1..] + rest;
      InsertPast(side, front[1..], rest, o);
      assert [front[0]] + (front[1..] + Insert(side, rest, o)) == front + Insert(side, rest, o);
    }
  }

  lemma InsertBeforeAll(side: Side, m: Levels, o: Order)
    requires GoodLevels(m) && forall q :: q in m ==> Better(side, o.price, q)
    ensures Insert(side, Flatten(side, m), o) == [o] + Flatten(side, m)
  {
    var s := Flatten(side, m);
    if s != [] {
      FlattenPrices(side, m, s[0]);
    }
  }

  /** `entry(price).or_insert_with(VecDeque::new).push_back(order)`. */
  function Push(m: Levels, o: Order): Levels {
    m[o.price := if o.price in m then m[o.price] + [o] else [o]]
  }

  lemma PushKeepsGood(m: Levels, o: Order)
    requires GoodLevels(m)
    ensures GoodLevels(Push(m, o))
  {
  }

  /** Pushing onto the order's level is inserting into the priority list. */
  lemma {:induction false} PushIsInsert(side: Side, m: Levels, o: Order)
    requires GoodLevels(m)
    ensures Flatten(side, Push(m, o)) == Insert(side, Flatten(side, m), o)
    decreases |m|
  {
    if m == map[] {
      FlattenWithBest(side, m, o.price, [o]);
      assert Push(m, o) == m[o.price := [o]];
      return;
    }
    var p := BestOf(side, m.Keys);
    var rest := m - {p};
    if o.price == p {
      PushOnBest(side, m, o);
    } else if Better(side, o.price, p) {
      assert forall q :: q in m ==> Better(side, o.price, q);
      InsertBeforeAll(side, m, o);
      FlattenWithBest(side, m, o.price, [o]);
    } else {
      PushIsInsert(side, rest, o);
      PushBehindBest(side, m, p, o);
    }
  }

  lemma PushBehindBest(side: Side, m: Levels, p: nat, o: Order)
    requires GoodLevels(m) && IsBest(side, m.Keys, p) && o.price != p && !Better(side, o.price, p)
    requires Flatten(side, Push(m - {p}, o)) == Insert(side, Flatten(side, m - {p}), o)
    ensures Flatten(side, Push(m, o)) == Insert(side, Flatten(side, m), o)
  {
    hide Flatten, Insert;
    FlattenAtBest(side, m, p);
    InsertPast(side, m[p], Flatten(side, m - {p}), o);
    assert Push(m, o) - {p} == Push(m - {p}, o);
    assert IsBest(side, Push(m, o).Keys, p);
    FlattenAtBest(side, Push(m, o), p);
  }

  lemma PushOnBest(side: Side, m: Levels, o: Order)
    requires GoodLevels(m) && IsBest(side, m.Keys, o.price)
    ensures Flatten(side, Push(m, o)) == Insert(side, Flatten(side, m), o)
  {
    hide Flatten, Insert;
    var p := o.price;
    var tail := Flatten(side, m - {p});
    FlattenAtBest(side, m, p);
    InsertBeforeAll(side, m - {p}, o);
    InsertPast(side, m[p], tail, o);
    FlattenWithBest(side, m - {p}, p, m[p] + [o]);
    assert (m - {p})[p := m[p] + [o]] == Push(m, o);
    assert m[p] + ([o] + tail) == m[p] + [o] + tail;
  }

  // ----- Removing from a level -----

  /** Dropping the i-th order of a level, and the level when that was the last one. */
  function Drop(m: Levels, p: nat, i: nat): Levels
    requires p in m && i < |m[p]|
  {
    if |m[p]| == 1 then m - {p} else m[p := RemoveAt(m[p], i)]
  }

  lemma {:induction false} FindPast(front: seq<Order>, rest: seq<Order>, id: nat, price: nat)
    requires forall x :: x in front ==> !(x.id == id && x.price == price)
    ensures Find(front + rest, id, price) == |front| + Find(rest, id, price)
    decreases |front|
  {
    if front == [] {
      assert front + rest == rest;
    } else {
      assert (front + rest)[0] == front[0] && (front + rest)[1..] == front[1..] + rest;
      FindPast(front[1..], rest, id, price);
    }
  }

  lemma {:induction false} FindWithin(front: seq<Order>, rest: seq<Order>, id: nat, price: nat)
    requires Find(front, id, price) < |front|
    ensures Find(front + rest, id, price) == Find(front, id, price)
    decreases |front|
  {
    assert (front + rest)[0] == front[0] && (front + rest)[1..] == front[1..] + rest;
    if !(front[0].id == id && front[0].price == price) {
      FindWithin(front[1..], rest, id, price);
    }
  }

  lemma NotAtLevel(m: Levels, p: nat, id: nat, price: nat)
    requires GoodLevels(m) && p in m && (p == price ==> Find(m[p], id, price) == |m[p]|)
    ensures forall x :: x in m[p] ==> !(x.id == id && x.price == price)
  {
  }

  /** Looking an order up in its level is looking it up in the whole list. */
  lemma {:induction false} FindInLevels(side: Side, m: Levels, id: nat, price: nat)
    requires GoodLevels(m)
    ensures var s := Flatten(side, m);
            && (Find(s, id, price) < |s| <==> price in m && Find(m[price], id, price) < |m[price]|)
            && (Find(s, id, price) < |s| ==> s[Find(s, id, price)] == m[price][Find(m[price], id, price)])
    decreases |m|
  {
    hide Find;
    if m != map[] {
      var p := BestOf(side, m.Keys);
      var rest := m - {p};
      FlattenAtBest(side, m, p);
      FindInLevels(side, rest, id, price);
      hide Flatten;
      if p == price && Find(m[p], id, price) < |m[p]| {
        FindWithin(m[p], Flatten(side, rest), id, price);
      } else {
        NotAtLevel(m, p, id, price);
        hide GoodLevels;
        FindPast(m[p], Flatten(side, rest), id, price);
        if price in rest { assert rest[price] == m[price]; }
      }
    }
  }

  lemma DropKeepsGood(m: Levels, p: nat, i: nat)
    requires GoodLevels(m) && p in m && i < |m[p]|
    ensures GoodLevels(Drop(m, p, i))
  {
    forall o | o in RemoveAt(m[p], i) ensures o in m[p] {
      var j :| 0 <= j < |m[p]| - 1 && RemoveAt(m[p], i)[j] == o;
      assert m[p][if j < i then j else j + 1] == o;
    }
  }

  /** Dropping an order from its level is removing it from the whole list. */
  lemma {:induction false} DropIsRemove(side: Side, m: Levels, id: nat, price: nat)
    requires GoodLevels(m) && price in m && Find(m[price], id, price) < |m[price]|
    ensures var s := Flatten(side, m);
            && Find(s, id, price) < |s|
            && Flatten(side, Drop(m, price, Find(m[price], id, price))) == RemoveAt(s, Find(s, id, price))
    decreases |m|
  {
    var p := BestOf(side, m.Keys);
    if p == price {
      DropFromBest(side, m, id, p);
    } else {
      DropIsRemove(side, m - {p}, id, price);
      DropBehindBest(side, m, p, id, price);
    }
  }

  lemma DropFromBest(side: Side, m: Levels, id: nat, p: nat)
    requires GoodLevels(m) && IsBest(side, m.Keys, p) && Find(m[p], id, p) < |m[p]|
    ensures var s := Flatten(side, m);
            && Find(s, id, p) < |s|
            && Flatten(side, Drop(m, p, Find(m[p], id, p))) == RemoveAt(s, Find(s, id, p))
  {
    var rest, i := m - {p}, Find(m[p], id, p);
    var tail := Flatten(side, rest);
    FlattenAtBest(side, m, p);
    FindWithin(m[p], tail, id, p);
    if |m[p]| == 1 {
      assert RemoveAt(m[p] + tail, 0) == tail;
    } else {
      assert rest[p := RemoveAt(m[p], i)] == Drop(m, p, i);
      FlattenWithBest(side, rest, p, RemoveAt(m[p], i));
      assert RemoveAt(m[p] + tail, i) == RemoveAt(m[p], i) + tail;
    }
  }

  lemma DropBehindBest(side: Side, m: Levels, p: nat, id: nat, price: nat)
    requires GoodLevels(m) && IsBest(side, m.Keys, p) && price in m && price != p
    requires Find(m[price], id, price) < |m[price]|
    requires var s := Flatten(side, m - {p});
             && Find(s, id, price) < |s|
             && Flatten(side, Drop(m - {p}, price, Find(m[price], id, price))) == RemoveAt(s, Find(s, id, price))
    ensures var s := Flatten(side, m);
            && Find(s, id, price) < |s|
            && Flatten(side, Drop(m, price, Find(m[price], id, price))) == RemoveAt(s, Find(s, id, price))
  {
    hide Flatten, Find;
    var i := Find(m[price], id, price);
    var tail, m' := Flatten(side, m - {p}), Drop(m, price, i);
    FlattenAtBest(side, m, p);
    FindPast(m[p], tail, id, price);
    var j := Find(tail, id, price);
    assert RemoveAt(m[p] + tail, |m[p]| + j) == m[p] + RemoveAt(tail, j);
    assert m' - {p} == Drop(m - {p}, price, i);
    assert IsBest(side, m'.Keys, p);
    FlattenAtBest(side, m', p);
  }

  // ----- Matching level by level -----

  /** One step of the simple matcher. */
  lemma MatchFirst(side: Side, limit: nat, qty: nat, makers: seq<Order>)
    ensures Match(side, limit, qty, makers) ==
            if qty == 0 || makers == [] || !Crosses(side, limit, makers[0].price) then Matched([], makers, qty) else
            var m, n := makers[0], Min(qty, makers[0].quantity);
            if n < m.quantity
            then Matched([Fill(m, n)], [m.(quantity := m.quantity - n)] + makers[1..], qty - n)
            else var r := Match(side, limit, qty - n, makers[1..]);
                 Matched([Fill(m, n)] + r.fills, r.rest, r.left)
  {
  }

  /** Matching a queue and then what lies behind it. */
  lemma {:induction false} MatchAppend(side: Side, limit: nat, qty: nat, queue: seq<Order>, rest: seq<Order>)
    ensures var r := Match(side, limit, qty, queue);
            Match(side, limit, qty, queue + rest) ==
            if r.rest != [] then Matched(r.fills, r.rest + rest, r.left)
            else var r' := Match(side, limit, r.left, rest);
                 Matched(r.fills + r'.fills, r'.rest, r'.left)
    decreases |queue|
  {
    hide Match;
    var all := queue + rest;
    MatchFirst(side, limit, qty, queue);
    MatchFirst(side, limit, qty, all);
    if queue == [] {
      assert all == rest;
      assert [] + Match(side, limit, qty, rest).fills == Match(side, limit, qty, rest).fills;
    } else {
      assert all[0] == queue[0] && all[1..] == queue[1..] + rest;
      if qty > 0 && Crosses(side, limit, queue[0].price) {
        var m := queue[0];
        var n := Min(qty, m.quantity);
        if n < m.quantity {
          assert [m.(quantity := m.quantity - n)] + queue[1..] + rest
              == [m.(quantity := m.quantity - n)] + (queue[1..] + rest);
        } else {
          MatchAppend(side, limit, qty - n, queue[1..], rest);
          var r := Match(side, limit, qty - n, queue[1..]);
          var r' := Match(side, limit, r.left, rest);
          assert [Fill(m, n)] + (r.fills + r'.fills) == [Fill(m, n)] + r.fills + r'.fills;
        }
      }
    }
  }
}
