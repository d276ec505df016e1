/** Frozen funds are exactly what the resting orders need, in every reachable state; and an order
    whose funds were locked always settles. */
module Collateral {
  import opened Numbers
  import opened Sums
  import opened LedgerSpec
  import opened LedgerLaws
  import opened BookSpec
  import opened BookInvariant
  import opened ExchangeSpec
  import opened TradeIds

  // ----- What resting orders need -----

  /** Funds of one user behind a list of orders. */
  ghost function Locked(s: seq<Order>, u: UserId): nat {
    if s == [] then 0 else (if s[0].user == u then LockAmount(s[0]) else 0) + Locked(s[1..], u)
  }

  /** Funds of one user and asset behind one book: quote behind bids, base behind asks. */
  ghost function BookLock(b: Book, pair: Pair, u: UserId, a: AssetId): nat {
    (if a == pair.1 then Locked(b.bids, u) else 0) + (if a == pair.0 then Locked(b.asks, u) else 0)
  }

  ghost function BookLocks(x: Exchange, u: UserId, a: AssetId): SymbolId -> int {
    (s: SymbolId) => if s in x.books && s in x.pairs then BookLock(x.books[s], x.pairs[s], u, a) else 0
  }

  /** Funds of one user and asset behind all books. */
  ghost function Required(x: Exchange, u: UserId, a: AssetId): int {
    Sum(x.books.Keys, BookLocks(x, u, a))
  }

  ghost predicate Collateralised(x: Exchange) {
    forall u, a :: Get(x.accts, u, a).frozen == Required(x, u, a)
  }

  /** Whoever has an order resting on a side has an account entry for the asset behind it. */
  ghost predicate EntriesFor(m: Accounts, s: seq<Order>, a: AssetId) {
    forall i :: 0 <= i < |s| ==> Has(m, s[i].user, a)
  }

  ghost predicate SoundBook(m: Accounts, b: Book, pair: Pair) {
    WellFormed(b) && pair.0 != pair.1 && EntriesFor(m, b.bids, pair.1) && EntriesFor(m, b.asks, pair.0)
  }

  ghost predicate SoundBooks(x: Exchange) {
    x.books.Keys == x.pairs.Keys && forall s :: s in x.books ==> SoundBook(x.accts, x.books[s], x.pairs[s])
  }

  /** The invariant of every run. */
  ghost predicate Sound(x: Exchange) {
    SupplyFits(x.accts) && Collateralised(x) && SoundBooks(x)
  }

  // ----- Locks of changed lists -----

  lemma {:induction false} LockedAppend(s: seq<Order>, t: seq<Order>, u: UserId)
    ensures Locked(s + t, u) == Locked(s, u) + Locked(t, u)
    decreases |s|
  {
    if s == [] {
      assert s + t == t;
    } else {
      assert (s + t)[0] == s[0] && (s + t)[1..] == s[1..] + t;
      LockedAppend(s[1..], t, u);
    }
  }

  lemma LockedOne(o: Order, u: UserId)
    ensures Locked([o], u) == if o.user == u then LockAmount(o) else 0
  {
    assert [o][1..] == [];
  }

  lemma LockedInsert(side: Side, s: seq<Order>, o: Order, u: UserId)
    requires Sorted(side, s)
    ensures Locked(Insert(side, s, o), u) == Locked(s, u) + if o.user == u then LockAmount(o) else 0
  {
    var p := InsertAt(side, s, o);
    LockedAppend(s[..p] + [o], s[p..], u);
    LockedAppend(s[..p], [o], u);
    LockedOne(o, u);
    assert s == s[..p] + s[p..];
    LockedAppend(s[..p], s[p..], u);
  }

  lemma LockedRemove(s: seq<Order>, i: nat, u: UserId)
    requires i < |s|
    ensures Locked(s, u) == Locked(RemoveAt(s, i), u) + if s[i].user == u then LockAmount(s[i]) else 0
  {
    assert s == s[..i] + [s[i]] + s[i + 1..];
    LockedAppend(s[..i] + [s[i]], s[i + 1..], u);
    LockedAppend(s[..i], [s[i]], u);
    LockedAppend(s[..i], s[i + 1..], u);
    LockedOne(s[i], u);
  }

  // ----- While an order is being matched -----

  /** What is frozen while the order `o` has `left` to go against `makers`: what everything else
      needs, what the makers need, and what the rest of the order needs. */
  ghost predicate Midway(m: Accounts, o: Order, pair: Pair, left: nat, makers: seq<Order>,
                         other: (UserId, AssetId) -> int) {
    forall u, a :: Get(m, u, a).frozen ==
      other(u, a)
      + (if a == LockAsset(pair, Opposite(o.side)) then Locked(makers, u) else 0)
      + (if u == o.user && a == LockAsset(pair, o.side) then LockAmount(o.(quantity := left)) else 0)
  }

  ghost predicate Ready(m: Accounts, o: Order, pair: Pair, left: nat, makers: seq<Order>,
                        other: (UserId, AssetId) -> int) {
    && SupplyFits(m) && pair.0 != pair.1
    && (forall u, a :: other(u, a) >= 0)
    && Midway(m, o, pair, left, makers, other)
    && Has(m, o.user, LockAsset(pair, o.side))
    && EntriesFor(m, makers, LockAsset(pair, Opposite(o.side)))
    && Resting(Opposite(o.side), makers)
  }

  /** The settlement of one fill, as the engine builds it from the fill's trade. */
  function FillDeal(o: Order, pair: Pair, f: Fill): Settlement {
    DealOf(o, pair, TradeOf(o, f, 0, 0))
  }

  function ApplyFills(m: Accounts, o: Order, pair: Pair, fills: seq<Fill>): Tx
    decreases |fills|
  {
    if fills == [] then Done(m) else
    match ApplyMatchExec(m, FillDeal(o, pair, fills[0]))
    case Done(m') => ApplyFills(m', o, pair, fills[1..])
    case r => r
  }

  /** What the taker gives up for a fill is its limit price times the quantity, whatever the maker's
      price is: the improvement comes back as the refund. */
  lemma TakerPaysLimit(o: Order, pair: Pair, f: Fill)
    requires o.side == Buy && f.maker.price <= o.price
    ensures var d := FillDeal(o, pair, f);
            d.Cost() + d.buyerRefund == o.price * f.quantity
  {
    assert f.maker.price * f.quantity + (o.price - f.maker.price) * f.quantity == o.price * f.quantity;
  }

  lemma LockAmountSplits(o: Order, n: nat, left: nat)
    requires n <= left
    ensures LockAmount(o.(quantity := left)) ==
            LockAmount(o.(quantity := n)) + LockAmount(o.(quantity := left - n))
  {
    if o.side == Buy {
      assert o.price * left == o.price * n + o.price * (left - n);
    }
  }

  /** What a fill takes out of the frozen funds, by user and asset. */
  lemma FillLoss(o: Order, pair: Pair, f: Fill, u: UserId, a: AssetId)
    requires pair.0 != pair.1 && Crosses(o.side, o.price, f.maker.price)
    requires f.maker.side == Opposite(o.side)
    ensures FrozenLoss(FillDeal(o, pair, f), u, a) ==
            (if u == f.maker.user && a == LockAsset(pair, Opposite(o.side))
             then LockAmount(f.maker.(quantity := f.quantity)) else 0)
            + (if u == o.user && a == LockAsset(pair, o.side)
               then LockAmount(o.(quantity := f.quantity)) else 0)
  {
    if o.side == Buy {
      TakerPaysLimit(o, pair, f);
    }
  }

  /** The next fill passes the pre-flight checks. */
  lemma NextFillChecks(m: Accounts, o: Order, pair: Pair, left: nat, makers: seq<Order>,
                       other: (UserId, AssetId) -> int, n: nat)
    requires Ready(m, o, pair, left, makers, other)
    requires makers != [] && Crosses(o.side, o.price, makers[0].price)
    requires n <= left && n <= makers[0].quantity
    ensures PreChecked(m, FillDeal(o, pair, Fill(makers[0], n)))
  {
    var maker := makers[0];
    var f := Fill(maker, n);
    LockAmountSplits(o, n, left);
    LockAmountSplits(maker, n, maker.quantity);
    assert maker.(quantity := maker.quantity) == maker;
    var ta, ma := LockAsset(pair, o.side), LockAsset(pair, Opposite(o.side));
    assert Get(m, o.user, ta).frozen >= LockAmount(o.(quantity := n));
    assert Get(m, maker.user, ma).frozen >= LockAmount(maker.(quantity := n));
    HoldingWithinSupply(m, o.user, ta);
    HoldingWithinSupply(m, maker.user, ma);
    if o.side == Buy {
      TakerPaysLimit(o, pair, f);
    }
  }

  /** The makers after one fill. */
  function Reduced(makers: seq<Order>, n: nat): seq<Order>
    requires makers != [] && n <= makers[0].quantity
  {
    (if n < makers[0].quantity then [makers[0].(quantity := makers[0].quantity - n)] else []) + makers[1..]
  }

  /** After the fill, the same picture holds with the maker reduced or gone. */
  lemma AfterFill(m: Accounts, o: Order, pair: Pair, left: nat, makers: seq<Order>,
                  other: (UserId, AssetId) -> int, n: nat, m': Accounts)
    requires Midway(m, o, pair, left, makers, other) && pair.0 != pair.1
    requires makers != [] && Crosses(o.side, o.price, makers[0].price)
    requires makers[0].side == Opposite(o.side) && n <= left && n <= makers[0].quantity
    requires Settled(m, FillDeal(o, pair, Fill(makers[0], n)), m')
    ensures Midway(m', o, pair, left - n, Reduced(makers, n), other)
  {
    hide Get, Locked, LockAsset, LockAmount, FillDeal, Settled, Crosses, Reduced;
    forall u, a ensures Get(m', u, a).frozen ==
        other(u, a)
        + (if a == LockAsset(pair, Opposite(o.side)) then Locked(Reduced(makers, n), u) else 0)
        + (if u == o.user && a == LockAsset(pair, o.side) then LockAmount(o.(quantity := left - n)) else 0)
    {
      AfterFillAt(m, o, pair, left, makers, other, n, m', u, a);
    }
  }

  lemma AfterFillAt(m: Accounts, o: Order, pair: Pair, left: nat, makers: seq<Order>,
                    other: (UserId, AssetId) -> int, n: nat, m': Accounts, u: UserId, a: AssetId)
    requires Midway(m, o, pair, left, makers, other) && pair.0 != pair.1
    requires makers != [] && Crosses(o.side, o.price, makers[0].price)
    requires makers[0].side == Opposite(o.side) && n <= left && n <= makers[0].quantity
    requires Settled(m, FillDeal(o, pair, Fill(makers[0], n)), m')
    ensures Get(m', u, a).frozen ==
        other(u, a)
        + (if a == LockAsset(pair, Opposite(o.side)) then Locked(Reduced(makers, n), u) else 0)
        + (if u == o.user && a == LockAsset(pair, o.side) then LockAmount(o.(quantity := left - n)) else 0)
  {
    hide *;
    var f := Fill(makers[0], n);
    MidwayAt(m, o, pair, left, makers, other, u, a);
    SettledAt(m, FillDeal(o, pair, f), m', u, a);
    FillLoss(o, pair, f, u, a);
    LockAmountSplits(o, n, left);
    LockedReduced(makers, n, u);
  }

  lemma MidwayAt(m: Accounts, o: Order, pair: Pair, left: nat, makers: seq<Order>,
                 other: (UserId, AssetId) -> int, u: UserId, a: AssetId)
    requires Midway(m, o, pair, left, makers, other)
    ensures Get(m, u, a).frozen ==
      other(u, a)
      + (if a == LockAsset(pair, Opposite(o.side)) then Locked(makers, u) else 0)
      + (if u == o.user && a == LockAsset(pair, o.side) then LockAmount(o.(quantity := left)) else 0)
  {
  }

  lemma SettledAt(m: Accounts, s: Settlement, m': Accounts, u: UserId, a: AssetId)
    requires Settled(m, s, m')
    ensures Get(m', u, a).frozen == Get(m, u, a).frozen - FrozenLoss(s, u, a)
  {
  }

  /** What the makers need after one of them was filled by `n`. */
  lemma LockedReduced(makers: seq<Order>, n: nat, u: UserId)
    requires makers != [] && n <= makers[0].quantity
    ensures Locked(Reduced(makers, n), u) ==
            Locked(makers, u) - if u == makers[0].user then LockAmount(makers[0].(quantity := n)) else 0
  {
    var maker := makers[0];
    var kept := if n < maker.quantity then [maker.(quantity := maker.quantity - n)] else [];
    LockAmountSplits(maker, n, maker.quantity);
    assert maker.(quantity := maker.quantity) == maker;
    LockedAppend(kept, makers[1..], u);
    if n < maker.quantity {
      LockedOne(kept[0], u);
    }
  }

  /** One fill settles, and the picture is ready for the next one. */
  lemma OneFillSettles(m: Accounts, o: Order, pair: Pair, left: nat, makers: seq<Order>,
                       other: (UserId, AssetId) -> int, n: nat)
    requires Ready(m, o, pair, left, makers, other)
    requires makers != [] && Crosses(o.side, o.price, makers[0].price)
    requires n <= left && n <= makers[0].quantity
    ensures var r := ApplyMatchExec(m, FillDeal(o, pair, Fill(makers[0], n)));
            && r.Done?
            && Ready(r.accts, o, pair, left - n, Reduced(makers, n), other)
            && (forall u, a :: Has(m, u, a) ==> Has(r.accts, u, a))
  {
    var s := FillDeal(o, pair, Fill(makers[0], n));
    NextFillChecks(m, o, pair, left, makers, other, n);
    PreCheckedTradeSettles(m, s);
    var m' := ApplyMatchExec(m, s).accts;
    AfterFill(m, o, pair, left, makers, other, n, m');
    forall a ensures Supply(m', a) <= U64_MAX {
      MatchExecKeepsSupply(m, s, a);
    }
    ReducedStaysResting(m, m', o, pair, makers, n);
  }

  lemma ReducedStaysResting(m: Accounts, m': Accounts, o: Order, pair: Pair, makers: seq<Order>, n: nat)
    requires makers != [] && n <= makers[0].quantity
    requires EntriesFor(m, makers, LockAsset(pair, Opposite(o.side))) && Resting(Opposite(o.side), makers)
    requires forall u, a :: Has(m, u, a) ==> Has(m', u, a)
    ensures EntriesFor(m', Reduced(makers, n), LockAsset(pair, Opposite(o.side)))
    ensures Resting(Opposite(o.side), Reduced(makers, n))
  {
    var rest := Reduced(makers, n);
    forall i | 0 <= i < |rest| ensures exists j :: 0 <= j < |makers| && rest[i].user == makers[j].user &&
                                                   rest[i].side == makers[j].side && rest[i].quantity > 0
    {
      var j := i + |makers| - |rest|;
      assert rest[i].user == makers[j].user && rest[i].side == makers[j].side;
    }
  }

  /** Once the order's funds are locked, every fill of its match settles: no check fails, nothing
      overflows, nothing panics, and what stays frozen is what the leftovers need. */
  lemma {:induction false} FillsSettle(m: Accounts, o: Order, pair: Pair, left: nat, makers: seq<Order>,
                                       other: (UserId, AssetId) -> int)
    requires Ready(m, o, pair, left, makers, other)
    ensures var r := Match(o.side, o.price, left, makers);
            var tx := ApplyFills(m, o, pair, r.fills);
            && tx.Done?
            && Ready(tx.accts, o, pair, r.left, r.rest, other)
            && (forall u, a :: Has(m, u, a) ==> Has(tx.accts, u, a))
    decreases |makers|
  {
    hide Ready, ApplyMatchExec;
    if left > 0 && makers != [] && Crosses(o.side, o.price, makers[0].price) {
      var n := Min(left, makers[0].quantity);
      OneFillSettles(m, o, pair, left, makers, other, n);
      var m1 := ApplyMatchExec(m, FillDeal(o, pair, Fill(makers[0], n))).accts;
      if n < makers[0].quantity {
        assert [Fill(makers[0], n)][1..] == [];
        assert Reduced(makers, n) == [makers[0].(quantity := makers[0].quantity - n)] + makers[1..];
      } else {
        assert Reduced(makers, n) == makers[1..];
        FillsSettle(m1, o, pair, left - n, makers[1..], other);
        var r := Match(o.side, o.price, left - n, makers[1..]);
        assert ([Fill(makers[0], n)] + r.fills)[1..] == r.fills;
      }
    }
  }

  // ----- The batch is the fills -----

  /** Only the deals of a batch reach the accounts; the predicted versions and balances do not. */
  lemma {:induction false} BatchIsFills(m: Accounts, m0: Accounts, ov: Overlay, o: Order, pair: Pair,
                                        fills: seq<Fill>, seq0: nat, lastId: nat, ts: nat, outSeq: nat)
    ensures ApplyExecs(m, BuildBatch(m0, ov, o, pair, TradesOf(o, fills, seq0, lastId, ts), outSeq)) ==
            ApplyFills(m, o, pair, fills)
    ensures |TradesOf(o, fills, seq0, lastId, ts)| == |fills|
    decreases |fills|
  {
    hide ApplyMatchExec, NextId, AddVersion, AddAvail, VersionIn, AvailIn;
    if fills != [] {
      var trades := TradesOf(o, fills, seq0, lastId, ts);
      var id := NextId(lastId, ts);
      assert trades[1..] == TradesOf(o, fills[1..], seq0 + 1, id, ts);
      var (d, ov') := Predict(m0, ov, o, pair, trades[0], outSeq + 1);
      assert d.deal == FillDeal(o, pair, fills[0]);
      var batch := BuildBatch(m0, ov, o, pair, trades, outSeq);
      assert batch[0] == d && batch[1..] == BuildBatch(m0, ov', o, pair, trades[1..], outSeq + 1);
      match ApplyMatchExec(m, d.deal)
      case Done(m') => BatchIsFills(m', m0, ov', o, pair, fills[1..], seq0 + 1, id, ts, outSeq + 1);
      case _ => BatchIsFills(m, m0, ov', o, pair, fills[1..], seq0 + 1, id, ts, outSeq + 1);
    }
  }
}
