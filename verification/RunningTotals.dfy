/** The running totals of one order (`total_filled`, `total_cost`), which the bundle path adds up without a
    check, fit 64 bits from every sound state. */
module RunningTotals {
  import opened Numbers
  import opened Sums
  import opened Balances
  import opened LedgerSpec
  import opened LedgerLaws
  import opened MirroredAccounts
  import opened BookSpec
  import opened ExchangeSpec
  import opened Collateral
  import opened Exchanges
  import opened Predictions
  import opened BundleSpec
  import opened BundleLaws
  import opened BundleTheorems

  ghost function Frozens(m: Accounts, a: AssetId): UserId -> int {
    (u: UserId) => Get(m, u, a).frozen
  }

  function CostOf(batch: seq<ExecData>): nat {
    if batch == [] then 0 else batch[0].deal.Cost() + CostOf(batch[1..])
  }

  /** Every trade of the batch pays in asset `a` for another one. */
  ghost predicate PaidIn(batch: seq<ExecData>, a: AssetId) {
    forall i :: 0 <= i < |batch| ==> batch[i].deal.quote == a && batch[i].deal.base != a
  }

  lemma {:induction false} SumAtMost(s: set<UserId>, f: UserId -> int, g: UserId -> int)
    requires forall u :: u in s ==> f(u) <= g(u)
    ensures Sum(s, f) <= Sum(s, g)
    decreases s
  {
    if s != {} {
      var u :| u in s;
      SumPick(s, f, u);
      SumPick(s, g, u);
      SumAtMost(s - {u}, f, g);
    }
  }

  /** A batch that settles pays its costs one after the other from frozen funds. */
  lemma {:induction false} CostsWithinFrozen(m: Accounts, batch: seq<ExecData>, users: set<UserId>, a: AssetId)
    requires SupplyFits(m) && ApplyExecs(m, batch).Done? && PaidIn(batch, a)
    requires forall i :: 0 <= i < |batch| ==> batch[i].deal.buyer in users
    ensures CostOf(batch) <= Sum(users, Frozens(m, a))
    decreases |batch|
  {
    hide Get, SupplyFits, ApplyMatchExec, Settlement.Cost;
    if batch == [] {
      FrozensAreNatural(m, users, a);
    } else {
      var s := batch[0].deal;
      var m1 := ApplyMatchExec(m, s).accts;
      MatchExecOutcome(m, s);
      PreCheckedTradeSettles(m, s);
      SupplyStillFits(m, s);
      FrozenSpent(m, s, m1, users);
      CostsWithinFrozen(m1, batch[1..], users, a);
    }
  }

  lemma FrozensAreNatural(m: Accounts, users: set<UserId>, a: AssetId)
    ensures Sum(users, Frozens(m, a)) >= 0
  {
    SumNonNegative(users, Frozens(m, a));
  }

  lemma FrozenSpent(m: Accounts, s: Settlement, m1: Accounts, users: set<UserId>)
    requires Settled(m, s, m1) && s.base != s.quote && s.buyer in users
    ensures Sum(users, Frozens(m1, s.quote)) == Sum(users, Frozens(m, s.quote)) - s.Cost() - s.buyerRefund
  {
    hide Get, Settlement.Cost;
    SumChange(users, Frozens(m, s.quote), Frozens(m1, s.quote), s.buyer);
  }

  lemma FrozenWithinSupply(m: Accounts, users: set<UserId>, a: AssetId)
    requires m.Keys <= users
    ensures Sum(users, Frozens(m, a)) <= Supply(m, a)
  {
    SupplyOver(m, users, a);
    SumAtMost(users, Frozens(m, a), Holdings(m, a));
  }

  /** So the costs of a batch are part of the supply of the asset they are paid in. */
  lemma CostsWithinSupply(m: Accounts, batch: seq<ExecData>, a: AssetId)
    requires SupplyFits(m) && ApplyExecs(m, batch).Done? && PaidIn(batch, a)
    ensures CostOf(batch) <= Supply(m, a)
  {
    hide SupplyFits, ApplyExecs, CostOf, Supply;
    var users := m.Keys + set d | d in batch :: d.deal.buyer;
    CostsWithinFrozen(m, batch, users, a);
    FrozenWithinSupply(m, users, a);
  }

  lemma {:induction false} BatchCosts(m: Accounts, ov: Overlay, o: Order, pair: Pair, trades: seq<Trade>, n: nat)
    requires pair.0 != pair.1
    ensures CostOf(OutputBatch(m, ov, o, pair, trades, n)) == TotalCost(trades)
    ensures PaidIn(OutputBatch(m, ov, o, pair, trades, n), pair.1)
    decreases |trades|
  {
    hide OutputExec, DealOf;
    if trades != [] {
      OutputExecDeal(m, ov, o, pair, trades[0], n);
      DealFields(o, pair, trades[0]);
      BatchCosts(m, OutputExec(m, ov, o, pair, trades[0], n).1, o, pair, trades[1..], n);
    }
  }

  /** For every accepted order, buy or sell, the quantity filled is within the order's and the total cost
      within the supply of the quote asset, so neither total ever leaves 64 bits. */
  lemma RunningTotalsFit(hs: Hashes, e: Engine, q: Request)
    requires Sound(e.x) && LockAmount(q.order) <= U64_MAX
    requires PlaceWithOutput(hs, e, q).Output? && PlaceWithOutput(hs, e, q).accepted
    ensures q.order.symbol in e.x.pairs && q.order.symbol in e.x.books
    ensures var added := Add(e.x.books[q.order.symbol], q.order, e.x.lastId, q.ts);
            && added.Added? && FilledQty(added.trades) <= q.order.quantity
            && TotalCost(added.trades) <= Supply(e.x.accts, e.x.pairs[q.order.symbol].1) <= U64_MAX
  {
    hide *;
    AcceptedMeans(hs, e, q);
    var pair, m := e.x.pairs[q.order.symbol], LockOf(e, q).accts;
    BooksTradeTwoAssets(e.x, q.order.symbol);
    LockedSupplyFits(e, q);
    BatchOfMeans(e, q, m);
    var trades := Add(e.x.books[q.order.symbol], q.order, e.x.lastId, q.ts).trades;
    BatchCosts(m, NO_OVERLAY, q.order, pair, trades, e.x.outputSeq + 1);
    CostsWithinSupply(m, BatchOf(e, q, m), pair.1);
    LockKeepsSupply(e, q, pair.1);
  }

  lemma LockKeepsSupply(e: Engine, q: Request, a: AssetId)
    requires q.order.symbol in e.x.pairs && LockOf(e, q).Done? && Sound(e.x)
    ensures Supply(LockOf(e, q).accts, a) == Supply(e.x.accts, a) <= U64_MAX
  {
    hide Supply, DoTouch, LockAmount;
    SoundParts(e.x);
    SupplyOfTouch(e.x.accts, Touch(q.order.user, LockAsset(e.x.pairs[q.order.symbol], q.order.side),
                                   BalOp.Lock(LockAmount(q.order))), a);
  }
}
