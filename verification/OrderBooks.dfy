/** The order book in the program's own form: two price-sorted maps of queues, the id set, the id
    index and the trade counter, changed in place (`src/matching_engine_base.rs`). */
module OrderBooks {
  import opened Numbers
  import opened Options
  import opened TradeIds
  import opened BookSpec
  import opened BookInvariant
  import opened PriceLevels

  // ----- Growing lists of fills -----

  lemma {:induction false} LastIdAdd(lastId: nat, ts: nat, n: nat, k: nat)
    ensures LastIdAfter(lastId, ts, n + k) == LastIdAfter(LastIdAfter(lastId, ts, n), ts, k)
    decreases n
  {
    if n > 0 {
      LastIdAdd(NextId(lastId, ts), ts, n - 1, k);
    }
  }

  lemma {:induction false} TradesAppend(taker: Order, fs: seq<Fill>, gs: seq<Fill>, seq0: nat, id: nat, ts: nat)
    ensures TradesOf(taker, fs + gs, seq0, id, ts) ==
            TradesOf(taker, fs, seq0, id, ts)
            + TradesOf(taker, gs, seq0 + |fs|, LastIdAfter(id, ts, |fs|), ts)
    decreases |fs|
  {
    if fs == [] {
      assert fs + gs == gs;
    } else {
      assert (fs + gs)[0] == fs[0] && (fs + gs)[1..] == fs[1..] + gs;
      TradesAppend(taker, fs[1..], gs, seq0 + 1, NextId(id, ts), ts);
    }
  }

  lemma {:induction false} ExhaustedAppend(fs: seq<Fill>, gs: seq<Fill>)
    ensures Exhausted(fs + gs) == Exhausted(fs) + Exhausted(gs)
    decreases |fs|
  {
    if fs == [] {
      assert fs + gs == gs;
    } else {
      assert (fs + gs)[0] == fs[0] && (fs + gs)[1..] == fs[1..] + gs;
      ExhaustedAppend(fs[1..], gs);
    }
  }

  /** What a list of fills does to the id set, the index, the trade counter and the generator. */
  datatype Marks = Marks(active: set<nat>, index: map<nat, (Side, nat)>, matchSeq: nat, lastId: nat)

  ghost function MarksAfter(m: Marks, fills: seq<Fill>, ts: nat): Marks {
    Marks(m.active - Exhausted(fills), m.index - Exhausted(fills), m.matchSeq + |fills|,
          LastIdAfter(m.lastId, ts, |fills|))
  }

  lemma MarksAppend(m: Marks, fs: seq<Fill>, gs: seq<Fill>, ts: nat)
    ensures MarksAfter(m, fs + gs, ts) == MarksAfter(MarksAfter(m, fs, ts), gs, ts)
  {
    ExhaustedAppend(fs, gs);
    LastIdAdd(m.lastId, ts, |fs|, |gs|);
  }

  lemma OneFill(taker: Order, f: Fill, m: Marks, ts: nat)
    ensures TradesOf(taker, [f], m.matchSeq, m.lastId, ts) ==
            [TradeOf(taker, f, m.matchSeq + 1, NextId(m.lastId, ts))]
    ensures MarksAfter(m, [f], ts) ==
            var gone := if f.quantity == f.maker.quantity then {f.maker.id} else {};
            Marks(m.active - gone, m.index - gone, m.matchSeq + 1, NextId(m.lastId, ts))
  {
    assert [f][1..] == [];
    assert Exhausted([f]) == if f.quantity == f.maker.quantity then {f.maker.id} else {};
    assert LastIdAfter(m.lastId, ts, 1) == NextId(m.lastId, ts);
  }

  /** One turn of the inner loop: the front maker of a queue at a crossing price. */
  lemma MatchFront(side: Side, limit: nat, left: nat, queue: seq<Order>)
    requires left > 0 && queue != [] && Crosses(side, limit, queue[0].price)
    ensures var m := queue[0];
            var n := Min(left, m.quantity);
            var next := if n < m.quantity then [m.(quantity := m.quantity - n)] + queue[1..] else queue[1..];
            var r := Match(side, limit, left - n, next);
            && Match(side, limit, left, queue) == Matched([Fill(m, n)] + r.fills, r.rest, r.left)
            && (n < m.quantity ==> left - n == 0)
  {
    assert [Fill(queue[0], left)] + [] == [Fill(queue[0], left)];
  }

  class OrderBook {
    var bids: Levels
    var asks: Levels
    var activeOrderIds: set<nat>
    var orderIndex: map<nat, (Side, nat)>
    var matchSeq: nat

    /** The book as two priority lists. */
    ghost function Abs(): Book
      reads this
    {
      Book(Flatten(Buy, bids), Flatten(Sell, asks), activeOrderIds, orderIndex, matchSeq)
    }

    ghost predicate Valid()
      reads this
    {
      GoodLevels(bids) && GoodLevels(asks) && WellFormed(Abs())
    }

    ghost function MarksOf(lastId: nat): Marks
      reads this
    {
      Marks(activeOrderIds, orderIndex, matchSeq, lastId)
    }

    ghost function LevelsOf(side: Side): Levels
      reads this
    {
      if side == Buy then bids else asks
    }

    constructor ()
      ensures Valid() && Abs() == EMPTY_BOOK
    {
      bids, asks, activeOrderIds, orderIndex, matchSeq := map[], map[], {}, map[], 0;
    }

    method HasOrder(id: nat) returns (has: bool)
      requires Valid()
      ensures has <==> id in Abs().active
    {
      return id in activeOrderIds;
    }

    method GetLevels(side: Side) returns (m: Levels)
      ensures m == LevelsOf(side)
    {
      m := if side == Buy then bids else asks;
    }

    method SetLevels(side: Side, m: Levels)
      modifies this`bids, this`asks
      ensures LevelsOf(side) == m
      ensures LevelsOf(Opposite(side)) == old(LevelsOf(Opposite(side)))
    {
      if side == Buy {
        bids := m;
      } else {
        asks := m;
      }
    }

    /** One iteration of the inner loop: a trade with one maker. */
    method TradeWith(order: Order, maker: Order, n: nat, gen: FastUlidHalfGen, ts: nat) returns (trade: Trade)
      requires n == maker.quantity || 0 < n < maker.quantity
      modifies this`activeOrderIds, this`orderIndex, this`matchSeq, gen
      ensures trade == TradeOf(order, Fill(maker, n), old(matchSeq) + 1, NextId(old(gen.lastVal), ts))
      ensures MarksOf(gen.lastVal) == MarksAfter(old(MarksOf(gen.lastVal)), [Fill(maker, n)], ts)
    {
      OneFill(order, Fill(maker, n), MarksOf(gen.lastVal), ts);
      matchSeq := matchSeq + 1;
      var id := gen.GenerateFromTs(ts);
      trade := if order.side == Buy then
        Trade(matchSeq, id, order.id, maker.id, order.user, maker.user, maker.price, n)
      else
        Trade(matchSeq, id, maker.id, order.id, maker.user, order.user, maker.price, n);
      if maker.quantity - n == 0 {
        activeOrderIds := activeOrderIds - {maker.id};
        orderIndex := orderIndex - {maker.id};
      }
    }

    /** The inner loop: takes from the front of one price level until the order is filled or the
        level is used up. */
    method DrainLevel(order: Order, left0: nat, queue0: seq<Order>, gen: FastUlidHalfGen, ts: nat)
      returns (left: nat, queue: seq<Order>, trades: seq<Trade>)
      requires left0 > 0
      requires forall o :: o in queue0 ==> Crosses(order.side, order.price, o.price)
      modifies this`activeOrderIds, this`orderIndex, this`matchSeq, gen
      ensures var r := Match(order.side, order.price, left0, queue0);
              && left == r.left && queue == r.rest
              && trades == TradesOf(order, r.fills, old(matchSeq), old(gen.lastVal), ts)
              && MarksOf(gen.lastVal) == MarksAfter(old(MarksOf(gen.lastVal)), r.fills, ts)
    {
      hide Match, TradesOf, MarksAfter, Exhausted, LastIdAfter, NextId;
      left, queue, trades := left0, queue0, [];
      ghost var fills: seq<Fill> := [];
      ghost var marks := MarksOf(gen.lastVal);
      NoFills(order, marks, ts);
      var done := false;
      while queue != [] && !done
        invariant forall o :: o in queue ==> Crosses(order.side, order.price, o.price)
        invariant !done ==> left > 0
        invariant done ==> left == 0
        invariant Match(order.side, order.price, left0, queue0) ==
                  var r := Match(order.side, order.price, left, queue);
                  Matched(fills + r.fills, r.rest, r.left)
        invariant trades == TradesOf(order, fills, marks.matchSeq, marks.lastId, ts)
        invariant MarksOf(gen.lastVal) == MarksAfter(marks, fills, ts)
        decreases !done, |queue|
      {
        MatchFront(order.side, order.price, left, queue);
        var maker := queue[0];
        var n := Min(left, maker.quantity);
        ghost var f := Fill(maker, n);
        ghost var before := MarksOf(gen.lastVal);
        queue := queue[1..];
        var trade := TradeWith(order, maker, n, gen, ts);
        TradesAndMarksGrow(order, marks, fills, f, before, ts);
        trades := trades + [trade];
        fills := fills + [f];
        left := left - n;
        if maker.quantity - n > 0 {
          queue := [maker.(quantity := maker.quantity - n)] + queue;
          done := true;
        }
        if left == 0 {
          done := true;
        }
      }
      MatchDone(order.side, order.price, left, queue);
    }

    /** One iteration of the outer loop: the best level, which goes when it is used up. */
    method MatchBestLevel(order: Order, left0: nat, price: nat, gen: FastUlidHalfGen, ts: nat)
      returns (left: nat, trades: seq<Trade>)
      requires GoodLevels(bids) && GoodLevels(asks) && left0 > 0
      requires IsBest(Opposite(order.side), LevelsOf(Opposite(order.side)).Keys, price)
      requires Crosses(order.side, order.price, price)
      modifies this, gen
      ensures GoodLevels(bids) && GoodLevels(asks)
      ensures LevelsOf(order.side) == old(LevelsOf(order.side))
      ensures var opp := Opposite(order.side);
              var fills := Match(order.side, order.price, left0, old(LevelsOf(opp))[price]).fills;
              var r := Match(order.side, order.price, left, Flatten(opp, LevelsOf(opp)));
              && Match(order.side, order.price, left0, old(Flatten(opp, LevelsOf(opp)))) ==
                 Matched(fills + r.fills, r.rest, r.left)
              && trades == TradesOf(order, fills, old(matchSeq), old(gen.lastVal), ts)
              && MarksOf(gen.lastVal) == MarksAfter(old(MarksOf(gen.lastVal)), fills, ts)
              && (left == 0 || |LevelsOf(opp)| < |old(LevelsOf(opp))|)
    {
      hide Match, TradesOf, MarksAfter, Flatten;
      var opp := Opposite(order.side);
      var levels := GetLevels(opp);
      var queue0 := levels[price];
      ghost var behind := Flatten(opp, levels - {price});
      FlattenAtBest(opp, levels, price);
      MatchAppend(order.side, order.price, left0, queue0, behind);
      MatchRest(order.side, order.price, left0, queue0, price);
      var queue;
      left, queue, trades := DrainLevel(order, left0, queue0, gen, ts);
      if queue == [] {
        SetLevels(opp, levels - {price});
      } else {
        FlattenWithBest(opp, levels - {price}, price, queue);
        assert (levels - {price})[price := queue] == levels[price := queue];
        MatchDone(order.side, order.price, left, queue + behind);
        SetLevels(opp, levels[price := queue]);
      }
    }

    /** The outer loop: level after level at crossing prices, best first. */
    method MatchLevels(order: Order, gen: FastUlidHalfGen, ts: nat) returns (left: nat, trades: seq<Trade>)
      requires GoodLevels(bids) && GoodLevels(asks)
      modifies this, gen
      ensures GoodLevels(bids) && GoodLevels(asks)
      ensures var opp := Opposite(order.side);
              var r := Match(order.side, order.price, order.quantity, old(Flatten(opp, LevelsOf(opp))));
              && left == r.left && Flatten(opp, LevelsOf(opp)) == r.rest
              && trades == TradesOf(order, r.fills, old(matchSeq), old(gen.lastVal), ts)
              && MarksOf(gen.lastVal) == MarksAfter(old(MarksOf(gen.lastVal)), r.fills, ts)
      ensures LevelsOf(order.side) == old(LevelsOf(order.side))
    {
      hide Match, TradesOf, MarksAfter, Flatten, GoodLevels;
      var opp := Opposite(order.side);
      left, trades := order.quantity, [];
      ghost var flat := Flatten(opp, LevelsOf(opp));
      ghost var fills: seq<Fill> := [];
      ghost var marks := MarksOf(gen.lastVal);
      NoFills(order, marks, ts);
      while left > 0
        invariant GoodLevels(bids) && GoodLevels(asks)
        invariant Match(order.side, order.price, order.quantity, flat) ==
                  var r := Match(order.side, order.price, left, Flatten(opp, LevelsOf(opp)));
                  Matched(fills + r.fills, r.rest, r.left)
        invariant trades == TradesOf(order, fills, marks.matchSeq, marks.lastId, ts)
        invariant MarksOf(gen.lastVal) == MarksAfter(marks, fills, ts)
        invariant LevelsOf(order.side) == old(LevelsOf(order.side))
        decreases left > 0, |LevelsOf(opp)|
      {
        var levels := GetLevels(opp);
        if levels == map[] {
          break;
        }
        var price := BestOf(opp, levels.Keys);
        if !Crosses(order.side, order.price, price) {
          break;
        }
        ghost var now := Match(order.side, order.price, left, levels[price]).fills;
        TradesAppend(order, fills, now, marks.matchSeq, marks.lastId, ts);
        MarksAppend(marks, fills, now, ts);
        MarksFields(marks, fills, ts);
        var more;
        left, more := MatchBestLevel(order, left, price, gen, ts);
        AssocFills(fills, now, Match(order.side, order.price, left, Flatten(opp, LevelsOf(opp))).fills);
        trades := trades + more;
        fills := fills + now;
      }
      StopsHere(order.side, order.price, left, LevelsOf(opp));
    }

    /** `add_order`: refuses a known id; otherwise registers it, matches, and queues what is left. */
    method AddOrder(order: Order, gen: FastUlidHalfGen, ts: nat) returns (ok: bool, trades: seq<Trade>)
      requires Valid()
      modifies this, gen
      ensures Valid()
      ensures match Add(old(Abs()), order, old(gen.lastVal), ts)
              case Duplicate => !ok && Abs() == old(Abs()) && gen.lastVal == old(gen.lastVal)
              case Added(b, ts', lastId) => ok && Abs() == b && trades == ts' && gen.lastVal == lastId
    {
      hide Match, TradesOf, Exhausted, LastIdAfter, Flatten, WellFormed, Insert, GoodLevels;
      if order.id in activeOrderIds {
        return false, [];
      }
      AddKeepsWellFormed(Abs(), order, gen.lastVal, ts);
      activeOrderIds := activeOrderIds + {order.id};
      orderIndex := orderIndex[order.id := (order.side, order.price)];
      var left;
      left, trades := MatchLevels(order, gen, ts);
      if left > 0 {
        var levels := GetLevels(order.side);
        var remaining := order.(quantity := left);
        PushIsInsert(order.side, levels, remaining);
        PushKeepsGood(levels, remaining);
        SetLevels(order.side, Push(levels, remaining));
      }
      return true, trades;
    }

    /** `remove_order`: the index entry is taken out first, then the order is looked for in its level. */
    method RemoveOrder(id: nat) returns (removed: Option<Order>)
      requires Valid()
      modifies this
      ensures Valid()
      ensures RemoveResult(Abs(), removed) == Remove(old(Abs()), id)
    {
      hide Flatten, WellFormed, Find, GoodLevels, RemoveAt;
      RemoveKeepsWellFormed(Abs(), id);
      if id !in orderIndex {
        return None;
      }
      var (side, price) := orderIndex[id];
      orderIndex := orderIndex - {id};
      activeOrderIds := activeOrderIds - {id};
      var levels := GetLevels(side);
      FindInLevels(side, levels, id, price);
      if price !in levels {
        return None;
      }
      LevelPrices(levels, price);
      var i := PositionInLevel(levels[price], id, price);
      if i == |levels[price]| {
        return None;
      }
      removed := Some(levels[price][i]);
      DropIsRemove(side, levels, id, price);
      DropKeepsGood(levels, price, i);
      SetLevels(side, Drop(levels, price, i));
    }

    /** `orders.iter().position(|o| o.order_id == order_id)`. */
    static method PositionInLevel(queue: seq<Order>, id: nat, ghost price: nat) returns (i: nat)
      requires forall o :: o in queue ==> o.price == price
      ensures i == Find(queue, id, price)
    {
      i := 0;
      while i < |queue| && queue[i].id != id
        invariant i <= |queue|
        invariant forall j :: 0 <= j < i ==> queue[j].id != id
      {
        i := i + 1;
      }
      var f := Find(queue, id, price);
      if f < |queue| {
        assert queue[f].id == id;
      }
    }
  }

  // ----- Small facts the loops use -----

  lemma LevelPrices(m: Levels, p: nat)
    requires GoodLevels(m) && p in m
    ensures forall o :: o in m[p] ==> o.price == p
  {
  }

  lemma NoFills(order: Order, m: Marks, ts: nat)
    ensures TradesOf(order, [], m.matchSeq, m.lastId, ts) == []
    ensures MarksAfter(m, [], ts) == m
    ensures forall r: Matched :: Matched([] + r.fills, r.rest, r.left) == r
  {
    forall r: Matched ensures Matched([] + r.fills, r.rest, r.left) == r {
      assert [] + r.fills == r.fills;
    }
  }

  lemma MarksFields(m: Marks, fills: seq<Fill>, ts: nat)
    ensures MarksAfter(m, fills, ts).matchSeq == m.matchSeq + |fills|
    ensures MarksAfter(m, fills, ts).lastId == LastIdAfter(m.lastId, ts, |fills|)
  {
  }

  lemma TradesAndMarksGrow(order: Order, m: Marks, fills: seq<Fill>, f: Fill, before: Marks, ts: nat)
    requires before == MarksAfter(m, fills, ts)
    ensures TradesOf(order, fills + [f], m.matchSeq, m.lastId, ts) ==
            TradesOf(order, fills, m.matchSeq, m.lastId, ts)
            + [TradeOf(order, f, before.matchSeq + 1, NextId(before.lastId, ts))]
    ensures MarksAfter(m, fills + [f], ts) == MarksAfter(before, [f], ts)
    ensures forall r: seq<Fill> :: fills + ([f] + r) == fills + [f] + r
  {
    TradesAppend(order, fills, [f], m.matchSeq, m.lastId, ts);
    OneFill(order, f, before, ts);
    MarksAppend(m, fills, [f], ts);
    forall r: seq<Fill> ensures fills + ([f] + r) == fills + [f] + r {}
  }

  lemma AssocFills(a: seq<Fill>, b: seq<Fill>, c: seq<Fill>)
    ensures a + (b + c) == a + b + c
  {
  }

  lemma MatchDone(side: Side, limit: nat, left: nat, queue: seq<Order>)
    requires left == 0 || queue == []
    ensures Match(side, limit, left, queue) == Matched([], queue, left)
    ensures forall fills: seq<Fill> :: fills + [] == fills
  {
    forall fills: seq<Fill> ensures fills + [] == fills {}
  }

  /** A queue at a crossing price is either used up or the order is filled, and it keeps its price. */
  lemma {:induction false} MatchRest(side: Side, limit: nat, left: nat, queue: seq<Order>, price: nat)
    requires Crosses(side, limit, price) && forall o :: o in queue ==> o.price == price
    ensures var r := Match(side, limit, left, queue);
            && (r.rest != [] ==> r.left == 0)
            && (forall o :: o in r.rest ==> o.price == price)
    decreases |queue|
  {
    if left > 0 && queue != [] {
      var m := queue[0];
      var n := Min(left, m.quantity);
      if n == m.quantity {
        MatchRest(side, limit, left - n, queue[1..], price);
      }
    }
  }

  /** Where the outer loop stops, the simple matcher stops too. */
  lemma StopsHere(side: Side, limit: nat, left: nat, levels: Levels)
    requires GoodLevels(levels)
    requires left == 0 || levels == map[] || !Crosses(side, limit, BestOf(Opposite(side), levels.Keys))
    ensures var flat := Flatten(Opposite(side), levels);
            Match(side, limit, left, flat) == Matched([], flat, left)
    ensures forall fills: seq<Fill> :: fills + [] == fills
  {
    forall fills: seq<Fill> ensures fills + [] == fills {}
    var flat := Flatten(Opposite(side), levels);
    if levels != map[] {
      var p := BestOf(Opposite(side), levels.Keys);
      assert flat[0] == levels[p][0];
      assert levels[p][0] in levels[p];
    }
  }
}
