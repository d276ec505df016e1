/** What an accepted order's bundle says: its events are what happened to the balances and sum to zero per
    asset, but for the deltas that wrap around, and its report is consistent with its trades. */
module BundleLaws {
  import opened Numbers
  import opened LedgerSpec
  import opened LedgerLaws
  import opened BookSpec
  import opened BookLaws
  import opened TradeIds
  import opened EngineOutputs
  import opened BundleSpec

  // ----- Sums over events -----

  ghost function AvailDelta(es: seq<BalanceEvent>, u: UserId, a: AssetId): int {
    if es == [] then 0
    else (if es[0].user == u && es[0].asset == a then es[0].deltaAvail else 0) + AvailDelta(es[1..], u, a)
  }

  ghost function FrozenDelta(es: seq<BalanceEvent>, u: UserId, a: AssetId): int {
    if es == [] then 0
    else (if es[0].user == u && es[0].asset == a then es[0].deltaFrozen else 0) + FrozenDelta(es[1..], u, a)
  }

  /** Everything the events move in one asset, available and frozen together. */
  ghost function AssetDelta(es: seq<BalanceEvent>, a: AssetId): int {
    if es == [] then 0
    else (if es[0].asset == a then es[0].deltaAvail + es[0].deltaFrozen else 0) + AssetDelta(es[1..], a)
  }

  lemma {:induction false} DeltasAppend(es: seq<BalanceEvent>, fs: seq<BalanceEvent>, u: UserId, a: AssetId)
    ensures AvailDelta(es + fs, u, a) == AvailDelta(es, u, a) + AvailDelta(fs, u, a)
    ensures FrozenDelta(es + fs, u, a) == FrozenDelta(es, u, a) + FrozenDelta(fs, u, a)
    ensures AssetDelta(es + fs, a) == AssetDelta(es, a) + AssetDelta(fs, a)
    decreases |es|
  {
    if es == [] {
      assert es + fs == fs;
    } else {
      assert (es + fs)[0] == es[0] && (es + fs)[1..] == es[1..] + fs;
      DeltasAppend(es[1..], fs, u, a);
    }
  }

  lemma OneEvent(e: BalanceEvent, u: UserId, a: AssetId)
    ensures AvailDelta([e], u, a) == if e.user == u && e.asset == a then e.deltaAvail else 0
    ensures FrozenDelta([e], u, a) == if e.user == u && e.asset == a then e.deltaFrozen else 0
    ensures AssetDelta([e], a) == if e.asset == a then e.deltaAvail + e.deltaFrozen else 0
  {
    assert [e][1..] == [];
  }

  /** How often a trade's credits to one available balance wrap around in its events. */
  function CreditWraps(s: Settlement, u: UserId, a: AssetId): nat {
    (if u == s.buyer && a == s.quote then Wraps(s.buyerRefund) else 0)
    + (if u == s.buyer && a == s.base then Wraps(s.quantity) else 0)
    + (if u == s.seller && a == s.quote then Wraps(s.Cost()) else 0)
  }

  /** How often a trade's debits of one frozen balance wrap around; the buyer's cost and refund are one
      debit. */
  function DebitWraps(s: Settlement, u: UserId, a: AssetId): nat {
    (if u == s.buyer && a == s.quote then WrapsDown(s.Cost() + s.buyerRefund) else 0)
    + (if u == s.seller && a == s.base then WrapsDown(s.quantity) else 0)
  }

  /** How much more often its debits in one asset wrap around than its credits. */
  function TradeWraps(s: Settlement, a: AssetId): int {
    (if a == s.quote then WrapsDown(s.Cost() + s.buyerRefund) - Wraps(s.buyerRefund) - Wraps(s.Cost()) else 0)
    + (if a == s.base then WrapsDown(s.quantity) - Wraps(s.quantity) else 0)
  }

  function CreditWrapsIn(batch: seq<ExecData>, u: UserId, a: AssetId): nat {
    if batch == [] then 0 else CreditWraps(batch[0].deal, u, a) + CreditWrapsIn(batch[1..], u, a)
  }

  function DebitWrapsIn(batch: seq<ExecData>, u: UserId, a: AssetId): nat {
    if batch == [] then 0 else DebitWraps(batch[0].deal, u, a) + DebitWrapsIn(batch[1..], u, a)
  }

  function TradeWrapsIn(batch: seq<ExecData>, a: AssetId): int {
    if batch == [] then 0 else TradeWraps(batch[0].deal, a) + TradeWrapsIn(batch[1..], a)
  }

  /** The numbers in a trade's events, whatever its amounts. */
  lemma StoredAmounts(d: ExecData)
    ensures var es, s := TradeEvents(d), d.deal;
            && es[0].deltaAvail == s.buyerRefund - TWO_64 * Wraps(s.buyerRefund)
            && es[0].deltaFrozen == TWO_64 * WrapsDown(s.Cost() + s.buyerRefund) - s.Cost() - s.buyerRefund
            && es[1].deltaAvail == s.quantity - TWO_64 * Wraps(s.quantity) && es[1].deltaFrozen == 0
            && es[2].deltaAvail == 0 && es[2].deltaFrozen == TWO_64 * WrapsDown(s.quantity) - s.quantity
            && es[3].deltaAvail == s.Cost() - TWO_64 * Wraps(s.Cost()) && es[3].deltaFrozen == 0
  {
    hide AsI64, NegI64, AddI64, Wraps, WrapsDown;
    var s := d.deal;
    StoredAmount(s.buyerRefund);
    StoredAmount(s.Cost());
    StoredAmount(s.quantity);
    StoredSum(s.Cost(), s.buyerRefund);
    NothingWraps();
  }

  lemma NothingWraps()
    ensures Wraps(0) == 0
  {
  }

  /** The four events of a trade are the trade's settlement, off by 2^64 for each delta that wraps. */
  lemma TradeEventsAreTheDeal(d: ExecData, u: UserId, a: AssetId)
    requires d.deal.sellerRefund == 0
    ensures AvailDelta(TradeEvents(d), u, a) == AvailGain(d.deal, u, a) - TWO_64 * CreditWraps(d.deal, u, a)
    ensures FrozenDelta(TradeEvents(d), u, a) == TWO_64 * DebitWraps(d.deal, u, a) - FrozenLoss(d.deal, u, a)
    ensures AssetDelta(TradeEvents(d), a) == TWO_64 * TradeWraps(d.deal, a)
  {
    hide AvailDelta, FrozenDelta, AssetDelta, Wraps, WrapsDown, TradeEvents, Settlement.Cost;
    StoredAmounts(d);
    EventOwners(d);
    SumOfFour(TradeEvents(d), u, a);
  }

  lemma EventOwners(d: ExecData)
    ensures var es := TradeEvents(d);
            && |es| == 4
            && es[0].user == es[1].user == d.deal.buyer && es[2].user == es[3].user == d.deal.seller
            && es[0].asset == es[3].asset == d.deal.quote && es[1].asset == es[2].asset == d.deal.base
  {
    hide AsI64, NegI64, AddI64;
  }

  lemma SumOfFour(es: seq<BalanceEvent>, u: UserId, a: AssetId)
    requires |es| == 4
    ensures AvailDelta(es, u, a) == AvailDelta([es[0]], u, a) + AvailDelta([es[1]], u, a)
                                    + AvailDelta([es[2]], u, a) + AvailDelta([es[3]], u, a)
    ensures FrozenDelta(es, u, a) == FrozenDelta([es[0]], u, a) + FrozenDelta([es[1]], u, a)
                                     + FrozenDelta([es[2]], u, a) + FrozenDelta([es[3]], u, a)
    ensures AssetDelta(es, a) == AssetDelta([es[0]], a) + AssetDelta([es[1]], a)
                                 + AssetDelta([es[2]], a) + AssetDelta([es[3]], a)
    ensures forall i :: 0 <= i < 4 ==>
              && AvailDelta([es[i]], u, a) == (if es[i].user == u && es[i].asset == a then es[i].deltaAvail else 0)
              && FrozenDelta([es[i]], u, a) == (if es[i].user == u && es[i].asset == a then es[i].deltaFrozen else 0)
              && AssetDelta([es[i]], a) == (if es[i].asset == a then es[i].deltaAvail + es[i].deltaFrozen else 0)
  {
    hide AvailDelta, FrozenDelta, AssetDelta;
    assert es == [es[0]] + ([es[1]] + ([es[2]] + [es[3]]));
    DeltasAppend([es[2]], [es[3]], u, a);
    DeltasAppend([es[1]], [es[2]] + [es[3]], u, a);
    DeltasAppend([es[0]], [es[1]] + ([es[2]] + [es[3]]), u, a);
    forall i | 0 <= i < 4
      ensures AvailDelta([es[i]], u, a) == if es[i].user == u && es[i].asset == a then es[i].deltaAvail else 0
      ensures FrozenDelta([es[i]], u, a) == if es[i].user == u && es[i].asset == a then es[i].deltaFrozen else 0
      ensures AssetDelta([es[i]], a) == if es[i].asset == a then es[i].deltaAvail + es[i].deltaFrozen else 0
    {
      OneEvent(es[i], u, a);
    }
  }

  lemma SumOfTrade(d: ExecData, a: AssetId)
    ensures AssetDelta(TradeEvents(d), a) == TWO_64 * TradeWraps(d.deal, a)
  {
    hide AvailDelta, FrozenDelta, AssetDelta, Wraps, WrapsDown, TradeEvents, Settlement.Cost;
    StoredAmounts(d);
    EventOwners(d);
    SumOfFour(TradeEvents(d), 0, a);
  }

  /** When the four events of one trade cancel out, in the amounts that a settled trade can have: in the
      base asset for every quantity but 2^63; in the quote asset when the buyer's debit wraps exactly
      if one of the two credits it pays for does. */
  lemma WhenTradesCancel(s: Settlement, a: AssetId)
    requires s.base != s.quote && s.quantity <= U64_MAX && s.Cost() + s.buyerRefund <= U64_MAX
    ensures TradeWraps(s, a) == 0 <==>
            && (a == s.base ==> s.quantity != I64_MAX + 1)
            && (a == s.quote ==>
                  (s.Cost() > I64_MAX || s.buyerRefund > I64_MAX <==> s.Cost() + s.buyerRefund > I64_MAX + 1))
  {
    WrapsOfWord(s.quantity);
    WrapsOfWord(s.buyerRefund);
    WrapsOfWord(s.Cost());
    WrapsOfWord(s.Cost() + s.buyerRefund);
    hide Wraps, WrapsDown;
  }

  /** What a trade takes from a frozen balance is more than 2^63 for every wrap of its debits. */
  lemma WrapsAreLarge(s: Settlement, u: UserId, a: AssetId)
    ensures (I64_MAX + 2) * DebitWraps(s, u, a) <= FrozenLoss(s, u, a)
  {
    hide WrapsDown;
    StoredAmount(s.Cost() + s.buyerRefund);
    StoredAmount(s.quantity);
  }

  ghost predicate TakerRefundsOnly(batch: seq<ExecData>) {
    forall i :: 0 <= i < |batch| ==> batch[i].deal.sellerRefund == 0
  }

  /** Over a whole batch that settles, the events are the change of every balance, off by 2^64 for each
      delta that wraps; their sum is off zero likewise. */
  lemma {:induction false} BatchEventsAreTheChange(m: Accounts, batch: seq<ExecData>, u: UserId, a: AssetId)
    requires SupplyFits(m) && TakerRefundsOnly(batch) && ApplyExecs(m, batch).Done?
    ensures var m' := ApplyExecs(m, batch).accts;
            && AvailDelta(EventsOf(batch), u, a) ==
               Get(m', u, a).avail - Get(m, u, a).avail - TWO_64 * CreditWrapsIn(batch, u, a)
            && FrozenDelta(EventsOf(batch), u, a) ==
               Get(m', u, a).frozen - Get(m, u, a).frozen + TWO_64 * DebitWrapsIn(batch, u, a)
            && AssetDelta(EventsOf(batch), a) == TWO_64 * TradeWrapsIn(batch, a)
    decreases |batch|
  {
    hide Get, TradeEvents, AvailGain, FrozenLoss, SupplyFits, Supply, CreditWraps, DebitWraps, TradeWraps,
         ApplyMatchExec;
    if batch != [] {
      var d := batch[0];
      MatchExecOutcome(m, d.deal);
      PreCheckedTradeSettles(m, d.deal);
      SupplyStillFits(m, d.deal);
      BatchEventsAreTheChange(ApplyMatchExec(m, d.deal).accts, batch[1..], u, a);
      TradeEventsAreTheDeal(d, u, a);
      DeltasAppend(TradeEvents(d), EventsOf(batch[1..]), u, a);
    }
  }

  lemma SupplyStillFits(m: Accounts, s: Settlement)
    requires SupplyFits(m) && ApplyMatchExec(m, s).Done?
    ensures SupplyFits(ApplyMatchExec(m, s).accts)
  {
    forall a ensures Supply(ApplyMatchExec(m, s).accts, a) <= U64_MAX {
      MatchExecKeepsSupply(m, s, a);
    }
  }

  // ----- Report arithmetic -----

  lemma MulIsMonotone(x: nat, y: nat, k: nat)
    requires x <= y
    ensures x * k <= y * k
  {
  }

  lemma MulDistributes(x: nat, y: nat, k: nat)
    ensures k * (x + y) == k * x + k * y
  {
  }

  lemma {:induction false} CostBounds(trades: seq<Trade>, low: nat, high: nat)
    requires forall t :: t in trades ==> low <= t.price <= high
    ensures low * FilledQty(trades) <= TotalCost(trades) <= high * FilledQty(trades)
    decreases |trades|
  {
    if trades != [] {
      var t := trades[0];
      assert t in trades;
      CostBounds(trades[1..], low, high);
      MulDistributes(t.quantity, FilledQty(trades[1..]), low);
      MulDistributes(t.quantity, FilledQty(trades[1..]), high);
      MulIsMonotone(low, t.price, t.quantity);
      MulIsMonotone(t.price, high, t.quantity);
    }
  }

  lemma QuotientAtMost(total: nat, n: nat, high: nat)
    requires n > 0 && total <= high * n
    ensures total / n <= high
  {
    QuotientIsMonotone(total, high * n, n);
    assert (high * n) / n == high;
  }

  lemma QuotientAtLeast(total: nat, n: nat, low: nat)
    requires n > 0 && low * n <= total
    ensures low <= total / n
  {
    QuotientIsMonotone(low * n, total, n);
    assert (low * n) / n == low;
  }

  lemma QuotientIsMonotone(x: nat, y: nat, n: nat)
    requires n > 0 && x <= y
    ensures x / n <= y / n
  {
    var k := y / n - x / n;
    assert y - x == k * n + (y % n - x % n);
    assert k * n > 0 as int - n;
    assert k >= 0;
  }

  /** The floored average lies between the lowest and the highest trade price. */
  lemma AveragePriceIsBetween(trades: seq<Trade>, low: nat, high: nat)
    requires FilledQty(trades) > 0 && forall t :: t in trades ==> low <= t.price <= high
    ensures low <= TotalCost(trades) / FilledQty(trades) <= high
  {
    CostBounds(trades, low, high);
    hide FilledQty, TotalCost;
    QuotientAtLeast(TotalCost(trades), FilledQty(trades), low);
    QuotientAtMost(TotalCost(trades), FilledQty(trades), high);
  }

  ghost function HighestPrice(trades: seq<Trade>): (high: nat)
    ensures forall t :: t in trades ==> t.price <= high
  {
    if trades == [] then 0 else
    var h := HighestPrice(trades[1..]);
    assert forall t :: t in trades ==> t == trades[0] || t in trades[1..];
    if trades[0].price > h then trades[0].price else h
  }

  lemma {:induction false} TradesReportFills(o: Order, fills: seq<Fill>, seq0: nat, lastId: nat, ts: nat)
    ensures FilledQty(TradesOf(o, fills, seq0, lastId, ts)) == Taken(fills)
    ensures |TradesOf(o, fills, seq0, lastId, ts)| == |fills|
    ensures forall i :: 0 <= i < |fills| ==>
              TradesOf(o, fills, seq0, lastId, ts)[i].price == fills[i].maker.price
              && TradesOf(o, fills, seq0, lastId, ts)[i].matchSeq == seq0 + i + 1
    decreases |fills|
  {
    if fills != [] {
      TradesReportFills(o, fills[1..], seq0 + 1, NextId(lastId, ts), ts);
      assert TradesOf(o, fills, seq0, lastId, ts)[1..] == TradesOf(o, fills[1..], seq0 + 1, NextId(lastId, ts), ts);
    }
  }

  /** Every trade of an accepted order is at a price its limit accepts. */
  lemma TradesRespectTheLimit(b: Book, o: Order, lastId: nat, ts: nat)
    requires Add(b, o, lastId, ts).Added?
    ensures forall t :: t in Add(b, o, lastId, ts).trades ==> Crosses(o.side, o.price, t.price)
  {
    var trades := Add(b, o, lastId, ts).trades;
    var fills := MatchIn(b, o).fills;
    MatchFollowsPriority(o.side, o.price, o.quantity, Half(b, Opposite(o.side)));
    TradesReportFills(o, fills, b.matchSeq, lastId, ts);
    hide Match, Add, TradesOf, AfterMatch;
    forall t | t in trades ensures Crosses(o.side, o.price, t.price) {
      var i :| 0 <= i < |trades| && trades[i] == t;
      assert fills[i].maker == Half(b, Opposite(o.side))[i];
    }
  }

  /** What an accepted order trades is everything crossing that it can get. */
  lemma TradesAreMaximal(b: Book, o: Order, lastId: nat, ts: nat)
    requires WellFormed(b) && Add(b, o, lastId, ts).Added?
    ensures FilledQty(Add(b, o, lastId, ts).trades) ==
            Min(o.quantity, CrossingDepth(o.side, o.price, Half(b, Opposite(o.side))))
  {
    TradesReportFills(o, MatchIn(b, o).fills, b.matchSeq, lastId, ts);
    MatchIsMaximal(o.side, o.price, o.quantity, Half(b, Opposite(o.side)));
  }

  /** The average price is between the trade prices, and never worse than the limit. */
  lemma AveragePriceRespectsTheLimit(o: Order, trades: seq<Trade>)
    requires FilledQty(trades) > 0
    requires forall t :: t in trades ==> Crosses(o.side, o.price, t.price)
    ensures Crosses(o.side, o.price, TotalCost(trades) / FilledQty(trades))
  {
    if o.side == Buy {
      AveragePriceIsBetween(trades, 0, o.price);
    } else {
      AveragePriceIsBetween(trades, o.price, HighestPrice(trades));
    }
  }

  /** The report of an accepted order: filled plus remaining is the order's quantity, the filled
      quantity is everything crossing that the order could get, the status says which case it is,
      and the average price never violates the limit. */
  lemma ReportIsConsistent(b: Book, o: Order, lastId: nat, ts: nat)
    requires WellFormed(b) && Add(b, o, lastId, ts).Added?
    ensures var trades := Add(b, o, lastId, ts).trades;
            && FilledQty(trades) == Min(o.quantity, CrossingDepth(o.side, o.price, Half(b, Opposite(o.side))))
            && var r := ReportOf(o, trades, ts);
               && r.filledQty + r.remainingQty == o.quantity
               && r.filledQty == FilledQty(trades)
               && (r.status == STATUS_FILLED <==> r.filledQty > 0 && r.remainingQty == 0)
               && (r.status == STATUS_NEW <==> r.filledQty == 0)
               && (r.filledQty > 0 ==> Crosses(o.side, o.price, r.avgPrice))
  {
    TradesRespectTheLimit(b, o, lastId, ts);
    TradesAreMaximal(b, o, lastId, ts);
    hide WellFormed, CrossingDepth, FilledQty, TotalCost, Add, Crosses;
    var trades := Add(b, o, lastId, ts).trades;
    if FilledQty(trades) > 0 {
      AveragePriceRespectsTheLimit(o, trades);
    }
  }
}
