/** What is in a bundle, field by field: of a rejected order, and of an accepted one. */
module BundleContents {
  import opened Numbers
  import opened Options
  import opened Balances
  import opened LedgerSpec
  import opened BookSpec
  import opened ExchangeSpec
  import opened Collateral
  import opened EngineOutputs
  import opened BundleSpec
  import opened BundleLaws
  import opened BundleTheorems
  import opened TradeIdRuns

  /** Every bundle names its request, takes the next number and links to the last bundle. */
  ghost predicate Names(hs: Hashes, e: Engine, q: Request, b: Bundle) {
    && b.outputSeq == e.x.outputSeq + 1 && b.prevHash == e.lastHash
    && b.input.inputSeq == q.inputSeq && b.input.data == PlaceOrder(q.order, q.cid)
    && b.input.crc == hs.crc(b.input.data)
  }

  /** From any state, the bundle of a rejected order: its report names the order and its user, with status
      rejected, nothing filled, the whole quantity remaining and no price; there are no trades, placements
      or completions, and at most one event, of a lock that was taken before the missing book was found. */
  lemma RejectedBundle(hs: Hashes, e: Engine, q: Request)
    requires PlaceWithOutput(hs, e, q).Output? && !PlaceWithOutput(hs, e, q).accepted
    ensures var b, o := PlaceWithOutput(hs, e, q).bundle, q.order;
            && Names(hs, e, q, b) && b.symbol == 0
            && b.trades == [] && b.placements == [] && b.completions == []
            && (if o.symbol in e.x.pairs && LockOf(e, q).Done? then |b.events| == 1 else b.events == [])
            && b.report.Some?
            && var r := b.report.value;
               && r.orderId == o.id && r.userId == o.user && r.status == 5 && r.updatedAt == q.ts
               && r.filledQty == 0 && r.remainingQty == o.quantity && r.avgPrice == 0
  {
    hide DoTouch, LockEventOf, ReportOf, Add, TradeOutputs, OutputBatch, FilledQty, EventsOf, ApplyExecs, Get,
         LockAmount;
  }

  // ----- Accepted orders -----

  /** What an accepted bundle is put together from. */
  lemma AcceptedParts(hs: Hashes, e: Engine, q: Request)
    requires PlaceWithOutput(hs, e, q).Output? && PlaceWithOutput(hs, e, q).accepted
    ensures q.order.symbol in e.x.pairs && q.order.symbol in e.x.books
    ensures Add(e.x.books[q.order.symbol], q.order, e.x.lastId, q.ts).Added?
    ensures var b, o := PlaceWithOutput(hs, e, q).bundle, q.order;
            var trades := Add(e.x.books[o.symbol], o, e.x.lastId, q.ts).trades;
            && Names(hs, e, q, b) && b.placements == [o]
            && b.trades == TradeOutputs(o, e.x.pairs[o.symbol], trades)
            && b.symbol == (if b.trades == [] then 0 else b.trades[0].symbol)
            && FilledQty(trades) <= o.quantity && b.report == Some(ReportOf(o, trades, q.ts))
  {
    hide DoTouch, LockEventOf, ReportOf, Add, TradeOutputs, OutputBatch, FilledQty, EventsOf, ApplyExecs, Get,
         LockAmount,
         RejectReport;
  }

  lemma {:induction false} TradeOutputAt(o: Order, pair: Pair, trades: seq<Trade>, i: nat)
    requires i < |trades|
    ensures |TradeOutputs(o, pair, trades)| == |trades|
    ensures var out := TradeOutputs(o, pair, trades)[i];
            && out.trade == trades[i] && out.symbol == o.symbol && out.base == pair.0 && out.quote == pair.1
            && out.buyerRefund == Refund(o, trades[i]) && out.sellerRefund == 0
    decreases |trades|
  {
    hide Refund;
    if |trades| > 1 {
      TradeOutputAt(o, pair, trades[1..], if i == 0 then 0 else i - 1);
    } else {
      assert TradeOutputs(o, pair, trades[1..]) == [];
    }
  }

  /** The value of the trades a bundle lists. */
  function ValueOf(outs: seq<TradeOutput>): nat {
    if outs == [] then 0 else outs[0].trade.price * outs[0].trade.quantity + ValueOf(outs[1..])
  }

  lemma {:induction false} ListedValue(o: Order, pair: Pair, trades: seq<Trade>)
    ensures ValueOf(TradeOutputs(o, pair, trades)) == TotalCost(trades)
    decreases |trades|
  {
    if trades != [] {
      ListedValue(o, pair, trades[1..]);
    }
  }

  /** The price improvement of the i-th trade of a match: a buyer gets back the difference to its limit, a
      seller's trade has no refund. */
  lemma RefundIsImprovement(b: Book, o: Order, lastId: nat, ts: nat, i: nat)
    requires Add(b, o, lastId, ts).Added? && i < |Add(b, o, lastId, ts).trades|
    ensures var t := Add(b, o, lastId, ts).trades[i];
            && (o.side == Buy ==> t.price <= o.price && t.buyer == o.user)
            && Refund(o, t) == if o.side == Buy then (o.price - t.price) * t.quantity else 0
  {
    hide Match, TradesOf, MatchIn, AfterMatch, LastIdAfter, Crosses;
    var fills := MatchIn(b, o).fills;
    TradesRespectTheLimit(b, o, lastId, ts);
    TradesReportFills(o, fills, b.matchSeq, lastId, ts);
    TradesNameTheirOrders(o, fills, b.matchSeq, lastId, ts, i);
    var t := Add(b, o, lastId, ts).trades[i];
    assert t in Add(b, o, lastId, ts).trades;
    CrossingBuy(o, t.price);
    if o.side == Buy && t.price == o.price {
      assert (o.price - t.price) * t.quantity == 0;
    }
  }

  lemma CrossingBuy(o: Order, price: nat)
    ensures o.side == Buy && Crosses(o.side, o.price, price) ==> price <= o.price
  {
  }

  lemma FlooredQuotient(total: nat, n: nat)
    requires n > 0
    ensures n * (total / n) <= total < n * (total / n + 1)
  {
    var r := total % n;
    assert total == n * (total / n) + r;
    assert n * (total / n + 1) == n * (total / n) + n;
  }

  /** The bundle of an accepted order. It places exactly that order; it lists exactly the trades of its
      match, in their order, with the symbol, the pair and the buyer's price improvement; and its report
      names the order and its user, has the status that the quantities call for - new, filled or partially
      filled - and the average price: the value of the listed trades over the filled quantity, rounded
      down, or 0 when nothing was filled. */
  lemma AcceptedBundle(hs: Hashes, e: Engine, q: Request)
    requires PlaceWithOutput(hs, e, q).Output? && PlaceWithOutput(hs, e, q).accepted
    ensures q.order.symbol in e.x.pairs && q.order.symbol in e.x.books
    ensures Add(e.x.books[q.order.symbol], q.order, e.x.lastId, q.ts).Added?
    ensures var b, o := PlaceWithOutput(hs, e, q).bundle, q.order;
            var pair, trades := e.x.pairs[o.symbol], Add(e.x.books[o.symbol], o, e.x.lastId, q.ts).trades;
            && Names(hs, e, q, b) && b.placements == [o]
            && b.symbol == (if trades == [] then 0 else o.symbol)
            && |b.trades| == |trades|
            && (forall i :: 0 <= i < |trades| ==>
                  var out, t := b.trades[i], trades[i];
                  && out.trade == t && out.symbol == o.symbol && out.base == pair.0 && out.quote == pair.1
                  && (o.side == Buy ==> t.price <= o.price)
                  && out.buyerRefund == (if o.side == Buy then (o.price - t.price) * t.quantity else 0)
                  && out.sellerRefund == 0)
            && b.report.Some?
            && var r := b.report.value;
               && r.orderId == o.id && r.userId == o.user && r.updatedAt == q.ts
               && r.filledQty + r.remainingQty == o.quantity
               && r.status == (if r.filledQty == 0 then 1 else if r.remainingQty == 0 then 3 else 2)
               && (r.filledQty == 0 ==> r.avgPrice == 0)
               && (r.filledQty > 0 ==>
                     r.filledQty * r.avgPrice <= ValueOf(b.trades) < r.filledQty * (r.avgPrice + 1))
  {
    hide PlaceWithOutput, Add, TradeOutputs, FilledQty, TotalCost, ValueOf, Names, Refund, ReportOf;
    AcceptedParts(hs, e, q);
    var o := q.order;
    var pair, trades := e.x.pairs[o.symbol], Add(e.x.books[o.symbol], o, e.x.lastId, q.ts).trades;
    NothingListed(o, pair);
    ListedValue(o, pair, trades);
    forall i | 0 <= i < |trades|
      ensures |TradeOutputs(o, pair, trades)| == |trades|
      ensures var out, t := TradeOutputs(o, pair, trades)[i], trades[i];
              && out.trade == t && out.symbol == o.symbol && out.base == pair.0 && out.quote == pair.1
              && (o.side == Buy ==> t.price <= o.price)
              && out.buyerRefund == (if o.side == Buy then (o.price - t.price) * t.quantity else 0)
              && out.sellerRefund == 0
    {
      TradeOutputAt(o, pair, trades, i);
      RefundIsImprovement(e.x.books[o.symbol], o, e.x.lastId, q.ts, i);
    }
    AverageOf(o, trades, q.ts);
    if trades != [] {
      TradeOutputAt(o, pair, trades, 0);
    }
  }

  lemma AverageOf(o: Order, trades: seq<Trade>, ts: nat)
    requires FilledQty(trades) <= o.quantity
    ensures var r := ReportOf(o, trades, ts);
            && r.orderId == o.id && r.userId == o.user && r.updatedAt == ts
            && r.filledQty + r.remainingQty == o.quantity
            && r.status == (if r.filledQty == 0 then 1 else if r.remainingQty == 0 then 3 else 2)
            && (r.filledQty == 0 ==> r.avgPrice == 0)
            && (r.filledQty > 0 ==>
                  r.filledQty * r.avgPrice <= TotalCost(trades) < r.filledQty * (r.avgPrice + 1))
  {
    hide FilledQty, TotalCost;
    if FilledQty(trades) > 0 {
      FlooredQuotient(TotalCost(trades), FilledQty(trades));
    }
  }

  lemma NothingListed(o: Order, pair: Pair)
    ensures TradeOutputs(o, pair, []) == []
  {
  }

  // ----- Events -----

  lemma {:induction false} EventsAt(batch: seq<ExecData>, i: nat, j: nat)
    requires i < |batch| && j < 4
    ensures |EventsOf(batch)| == 4 * |batch|
    ensures |TradeEvents(batch[i])| == 4 && EventsOf(batch)[4 * i + j] == TradeEvents(batch[i])[j]
    decreases |batch|
  {
    EventOwners(batch[0]);
    hide TradeEvents;
    assert EventsOf(batch) == TradeEvents(batch[0]) + EventsOf(batch[1..]);
    if |batch| > 1 {
      EventsAt(batch[1..], if i == 0 then 0 else i - 1, j);
      if i > 0 {
        assert EventsOf(batch)[4 * i + j] == EventsOf(batch[1..])[4 * (i - 1) + j];
      }
    } else {
      assert EventsOf(batch[1..]) == [];
    }
  }

  /** Element by element, the bundle path's batch records its trades under the bundle's number, without
      balances. */
  lemma {:induction false} OutputBatchRecordsTheTrades(m: Accounts, ov: Overlay, o: Order, pair: Pair,
                                                       trades: seq<Trade>, n: nat, i: nat)
    requires i < |trades|
    ensures var batch := OutputBatch(m, ov, o, pair, trades, n);
            && |batch| == |trades|
            && var d, t := batch[i], trades[i];
               && d.deal == DealOf(o, pair, t) && d.outputSequence == n
               && d.tradeId == t.tradeId && d.matchSeq == t.matchSeq
               && d.buyOrderId == t.buyOrderId && d.sellOrderId == t.sellOrderId
               && d.buyerQuoteAfter == d.buyerBaseAfter == d.sellerBaseAfter == d.sellerQuoteAfter == 0
    decreases |trades|
  {
    hide VersionChain, VersionIn, DealOf;
    var ov' := OutputExec(m, ov, o, pair, trades[0], n).1;
    if |trades| > 1 {
      OutputBatchRecordsTheTrades(m, ov', o, pair, trades[1..], n, if i == 0 then 0 else i - 1);
    } else {
      assert OutputBatch(m, ov', o, pair, trades[1..], n) == [];
    }
  }

  /** One event: whose balance, its number, its kind and what it refers to; no absolute balances. */
  ghost predicate EventIs(ev: BalanceEvent, u: UserId, a: AssetId, seqNo: nat, kind: EventKind, refId: nat) {
    && ev.user == u && ev.asset == a && ev.seqNo == seqNo && ev.kind == kind && ev.refId == refId
    && ev.avail == None && ev.frozen == None
  }

  /** The events of an accepted bundle, one by one: the lock with the number and the balances right after it,
      then four for every trade - buyer's quote, buyer's base, seller's base, seller's quote - each
      numbered one above the version before it, with the trade's id. */
  lemma EventsInOrder(hs: Hashes, e: Engine, q: Request, i: nat)
    requires Sound(e.x) && LockAmount(q.order) <= U64_MAX
    requires PlaceWithOutput(hs, e, q).Output? && PlaceWithOutput(hs, e, q).accepted
    ensures q.order.symbol in e.x.pairs && q.order.symbol in e.x.books && LockOf(e, q).Done?
    ensures Add(e.x.books[q.order.symbol], q.order, e.x.lastId, q.ts).Added?
    ensures var es, o := PlaceWithOutput(hs, e, q).bundle.events, q.order;
            var pair, trades := e.x.pairs[o.symbol], Add(e.x.books[o.symbol], o, e.x.lastId, q.ts).trades;
            var batch := BatchOf(e, q, LockOf(e, q).accts);
            var asset := if o.side == Buy then pair.1 else pair.0;
            var after := Get(LockOf(e, q).accts, o.user, asset);
            && |batch| == |trades| && |es| == 1 + 4 * |trades|
            && es[0].user == o.user && es[0].asset == asset && es[0].kind == LockEvent && es[0].refId == o.id
            && es[0].seqNo == after.version && es[0].avail == Some(after.avail) && es[0].frozen == Some(after.frozen)
            && (i < |trades| ==>
                  var d, t, k := batch[i], trades[i], 1 + 4 * i;
                  && EventIs(es[k], t.buyer, pair.1, WrapAdd(d.buyerQuoteVersion, 1),
                             if o.side == Buy && t.price < o.price && t.quantity > 0 then TradeRefund else TradeDebit,
                             t.tradeId)
                  && EventIs(es[k + 1], t.buyer, pair.0, WrapAdd(d.buyerBaseVersion, 1), TradeCredit, t.tradeId)
                  && EventIs(es[k + 2], t.seller, pair.0, WrapAdd(d.sellerBaseVersion, 1), TradeDebit, t.tradeId)
                  && EventIs(es[k + 3], t.seller, pair.1, WrapAdd(d.sellerQuoteVersion, 1), TradeCredit, t.tradeId))
  {
    hide *;
    AcceptedMeans(hs, e, q);
    var o := q.order;
    var pair, trades := e.x.pairs[o.symbol], Add(e.x.books[o.symbol], o, e.x.lastId, q.ts).trades;
    var m := LockOf(e, q).accts;
    var batch := BatchOf(e, q, m);
    BatchOfMeans(e, q, m);
    LockEventDetails(e, q);
    NoEventsNoTrades(m, o, pair, e.x.outputSeq + 1);
    if trades != [] {
      OutputBatchRecordsTheTrades(m, NO_OVERLAY, o, pair, trades, e.x.outputSeq + 1, 0);
      EventsAt(batch, 0, 0);
    }
    if i < |trades| {
      OutputBatchRecordsTheTrades(m, NO_OVERLAY, o, pair, trades, e.x.outputSeq + 1, i);
      EventsAt(batch, i, 0);
      EventsAt(batch, i, 1);
      EventsAt(batch, i, 2);
      EventsAt(batch, i, 3);
      TradeEventDetails(batch[i], o, pair, trades[i]);
      RefundIsImprovement(e.x.books[o.symbol], o, e.x.lastId, q.ts, i);
      WhenImproved(o, trades[i]);
    }
  }

  lemma NoEventsNoTrades(m: Accounts, o: Order, pair: Pair, n: nat)
    ensures OutputBatch(m, NO_OVERLAY, o, pair, [], n) == [] && EventsOf([]) == []
  {
  }

  lemma WhenImproved(o: Order, t: Trade)
    requires o.side == Buy ==> t.price <= o.price
    requires Refund(o, t) == if o.side == Buy then (o.price - t.price) * t.quantity else 0
    ensures Refund(o, t) > 0 <==> o.side == Buy && t.price < o.price && t.quantity > 0
  {
    hide Refund;
    if o.side == Buy && t.price < o.price && t.quantity > 0 {
      assert (o.price - t.price) * t.quantity >= 1;
    }
  }

  lemma TradeEventDetails(d: ExecData, o: Order, pair: Pair, t: Trade)
    requires d.deal == DealOf(o, pair, t) && d.tradeId == t.tradeId
    ensures var es := TradeEvents(d);
            && |es| == 4
            && EventIs(es[0], t.buyer, pair.1, WrapAdd(d.buyerQuoteVersion, 1),
                       if Refund(o, t) > 0 then TradeRefund else TradeDebit, t.tradeId)
            && EventIs(es[1], t.buyer, pair.0, WrapAdd(d.buyerBaseVersion, 1), TradeCredit, t.tradeId)
            && EventIs(es[2], t.seller, pair.0, WrapAdd(d.sellerBaseVersion, 1), TradeDebit, t.tradeId)
            && EventIs(es[3], t.seller, pair.1, WrapAdd(d.sellerQuoteVersion, 1), TradeCredit, t.tradeId)
  {
    hide AsI64, NegI64, AddI64, WrapAdd, Refund, Settlement.Cost;
  }

  lemma LockEventDetails(e: Engine, q: Request)
    requires q.order.symbol in e.x.pairs && LockOf(e, q).Done?
    ensures var o, pair := q.order, e.x.pairs[q.order.symbol];
            var asset := if o.side == Buy then pair.1 else pair.0;
            var ev, after := LockEventOf(e.x.accts, pair, o), Get(LockOf(e, q).accts, o.user, asset);
            && ev.user == o.user && ev.asset == asset && ev.kind == LockEvent && ev.refId == o.id
            && ev.seqNo == after.version && ev.avail == Some(after.avail) && ev.frozen == Some(after.frozen)
  {
    hide AsI64, NegI64, Get, DoTouch, LockAmount;
    var o, pair := q.order, e.x.pairs[q.order.symbol];
    var t := Touch(o.user, LockAsset(pair, o.side), BalOp.Lock(LockAmount(o)));
    TouchReads(e.x.accts, t);
    TouchSucceeded(e.x.accts, t);
    OpOutcome(Get(e.x.accts, t.user, t.asset), t.op);
    OpEffect(Get(e.x.accts, t.user, t.asset), t.op);
  }

  // ----- The hash -----

  ghost predicate SameTrade(t: TradeOutput, u: TradeOutput) {
    && t.trade == u.trade && t.base == u.base && t.quote == u.quote
    && t.buyerRefund == u.buyerRefund && t.sellerRefund == u.sellerRefund
  }

  ghost predicate SameEvent(f: BalanceEvent, g: BalanceEvent) {
    && f.user == g.user && f.asset == g.asset && f.seqNo == g.seqNo && f.kind == g.kind && f.refId == g.refId
    && f.deltaAvail == g.deltaAvail && f.deltaFrozen == g.deltaFrozen
    && OrZero(f.avail) == OrZero(g.avail) && OrZero(f.frozen) == OrZero(g.frozen)
  }

  /** What the hash covers: bundles with the same hashed content agree in number, link, symbol, input, report,
      events and trades, but for the trades' symbols and for whether a balance is 0 or not given. */
  lemma HashCovers(b: Bundle, c: Bundle)
    ensures b.Content() == c.Content() <==>
            && b.outputSeq == c.outputSeq && b.prevHash == c.prevHash && b.symbol == c.symbol
            && b.input == c.input && b.report == c.report
            && |b.events| == |c.events| && |b.trades| == |c.trades|
            && (forall i :: 0 <= i < |b.events| ==> SameEvent(b.events[i], c.events[i]))
            && (forall i :: 0 <= i < |b.trades| ==> SameTrade(b.trades[i], c.trades[i]))
  {
    SameTrades(b.trades, c.trades);
    SameEvents(b.events, c.events);
    hide WithoutSymbols, Shown, SameTrade, SameEvent;
  }

  lemma SameTrades(ts: seq<TradeOutput>, us: seq<TradeOutput>)
    ensures WithoutSymbols(ts) == WithoutSymbols(us) <==>
            |ts| == |us| && forall i :: 0 <= i < |ts| ==> SameTrade(ts[i], us[i])
  {
    var t', u' := WithoutSymbols(ts), WithoutSymbols(us);
    if |ts| == |us| {
      assert t' == u' <==> forall i :: 0 <= i < |ts| ==> t'[i] == u'[i];
      assert forall i :: 0 <= i < |ts| ==> (t'[i] == u'[i] <==> SameTrade(ts[i], us[i]));
    } else {
      assert |t'| != |u'|;
    }
  }

  lemma SameEvents(fs: seq<BalanceEvent>, gs: seq<BalanceEvent>)
    ensures Shown(fs) == Shown(gs) <==>
            |fs| == |gs| && forall i :: 0 <= i < |fs| ==> SameEvent(fs[i], gs[i])
  {
    var f', g' := Shown(fs), Shown(gs);
    if |fs| == |gs| {
      assert f' == g' <==> forall i :: 0 <= i < |fs| ==> f'[i] == g'[i];
      assert forall i :: 0 <= i < |fs| ==> (f'[i] == g'[i] <==> SameEvent(fs[i], gs[i]));
    } else {
      assert |f'| != |g'|;
    }
  }
}
