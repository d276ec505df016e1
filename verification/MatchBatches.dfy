/** The loops that turn trades into a match batch before the ledger sees it
    (`src/matching_engine_base.rs`, lines 702-805 and 1057-1210). */
module MatchBatches {
  import opened Numbers
  import opened Options
  import opened LedgerSpec
  import opened Ledgers
  import opened BookSpec
  import opened ExchangeSpec
  import opened EngineOutputs
  import opened BundleSpec

  /** `temp_versions` and `temp_balances` with the closures that update them. */
  class TempMaps {
    var versions: map<Key, nat>
    var balances: map<Key, nat>

    ghost function Value(): Overlay
      reads this
    {
      Overlay(versions, balances)
    }

    constructor ()
      ensures Value() == NO_OVERLAY
    {
      versions, balances := map[], map[];
    }

    /** `get_and_add_version`: the version before, while the entry moves on. */
    method GetAndAddVersion(ledger: ShadowLedger, u: UserId, a: AssetId, inc: nat) returns (v: nat)
      requires ledger.Valid()
      modifies this
      ensures v == VersionIn(old(Value()), ledger.Accts(), (u, a))
      ensures Value() == AddVersion(old(Value()), ledger.Accts(), (u, a), inc)
    {
      if (u, a) !in versions {
        var b := ledger.GetBalance(u, a);
        versions := versions[(u, a) := b.version];
      }
      v := versions[(u, a)];
      versions := versions[(u, a) := WrapAdd(v, inc)];
      assert versions == old(versions)[(u, a) := WrapAdd(v, inc)];
    }

    /** `get_and_update_balance`: the balance after the signed change, never below zero. */
    method GetAndUpdateBalance(ledger: ShadowLedger, u: UserId, a: AssetId, delta: int) returns (after: nat)
      requires ledger.Valid()
      modifies this
      ensures Value() == AddAvail(old(Value()), ledger.Accts(), (u, a), delta)
      ensures after == AvailIn(Value(), ledger.Accts(), (u, a))
    {
      if (u, a) !in balances {
        var b := ledger.GetBalance(u, a);
        balances := balances[(u, a) := b.avail];
      }
      var entry := balances[(u, a)];
      if delta >= 0 {
        entry := entry + delta;
      } else {
        var abs := -delta;
        if entry >= abs {
          entry := entry - abs;
        } else {
          entry := 0;
        }
      }
      balances := balances[(u, a) := entry];
      assert balances == old(balances)[(u, a) := entry];
      after := entry;
    }
  }

  method RefundOf(o: Order, t: Trade) returns (refund: nat)
    ensures refund == Refund(o, t)
  {
    refund := 0;
    if o.side == Buy && t.buyer == o.user {
      if o.price > t.price {
        refund := (o.price - t.price) * t.quantity;
      }
    }
  }

  /** The four version updates of one trade. */
  method TakeVersions(ledger: ShadowLedger, temps: TempMaps, pair: Pair, t: Trade, refund: nat)
    returns (bq: nat, bb: nat, sb: nat, sq: nat)
    requires ledger.Valid()
    modifies temps
    ensures var ov, m := old(temps.Value()), ledger.Accts();
            var (ov1, ov2, ov3, ov4) := VersionChain(m, ov, refund, pair, t);
            && temps.Value() == ov4
            && bq == VersionIn(ov, m, (t.buyer, pair.1)) && bb == VersionIn(ov1, m, (t.buyer, pair.0))
            && sb == VersionIn(ov2, m, (t.seller, pair.0)) && sq == VersionIn(ov3, m, (t.seller, pair.1))
  {
    hide AddVersion, VersionIn, ShadowLedger.Accts, ShadowLedger.Valid;
    bq := temps.GetAndAddVersion(ledger, t.buyer, pair.1, if refund > 0 then 2 else 1);
    bb := temps.GetAndAddVersion(ledger, t.buyer, pair.0, 1);
    sb := temps.GetAndAddVersion(ledger, t.seller, pair.0, 1);
    sq := temps.GetAndAddVersion(ledger, t.seller, pair.1, 1);
  }

  /** The four balance updates of one trade. */
  method TakeBalances(ledger: ShadowLedger, temps: TempMaps, pair: Pair, t: Trade, refund: nat)
    returns (bq: nat, bb: nat, sb: nat, sq: nat)
    requires ledger.Valid()
    modifies temps
    ensures var ov, m := old(temps.Value()), ledger.Accts();
            var (ov5, ov6, ov7, ov8) := AvailChain(m, ov, refund, pair, t);
            && temps.Value() == ov8
            && bq == AvailIn(ov5, m, (t.buyer, pair.1)) && bb == AvailIn(ov6, m, (t.buyer, pair.0))
            && sb == AvailIn(ov7, m, (t.seller, pair.0)) && sq == AvailIn(ov8, m, (t.seller, pair.1))
  {
    hide AddAvail, AvailIn, ShadowLedger.Accts, ShadowLedger.Valid;
    bq := temps.GetAndUpdateBalance(ledger, t.buyer, pair.1, AsI64(refund));
    bb := temps.GetAndUpdateBalance(ledger, t.buyer, pair.0, AsI64(t.quantity));
    sb := temps.GetAndUpdateBalance(ledger, t.seller, pair.0, 0);
    var cost := t.price * t.quantity;
    sq := temps.GetAndUpdateBalance(ledger, t.seller, pair.1, AsI64(cost));
  }

  /** One turn of the plain path's loop. */
  method NextExec(ledger: ShadowLedger, temps: TempMaps, o: Order, pair: Pair, t: Trade, outSeq: nat)
    returns (d: ExecData)
    requires ledger.Valid()
    modifies temps
    ensures (d, temps.Value()) == Predict(ledger.Accts(), old(temps.Value()), o, pair, t, outSeq)
  {
    hide VersionIn, AvailIn, VersionChain, AvailChain, ShadowLedger.Accts, ShadowLedger.Valid;
    var refund := RefundOf(o, t);
    var bqv, bbv, sbv, sqv := TakeVersions(ledger, temps, pair, t, refund);
    var bqa, bba, sba, sqa := TakeBalances(ledger, temps, pair, t, refund);
    d := ExecData(Settlement(t.buyer, t.seller, pair.0, pair.1, t.price, t.quantity, refund, 0),
                  t.tradeId, t.buyOrderId, t.sellOrderId, t.matchSeq, outSeq,
                  bqv, bbv, sbv, sqv, bqa, bba, sba, sqa);
  }

  /** The plain path's loop: the batch, and the output counter moved once per trade. */
  method BuildMatchBatch(ledger: ShadowLedger, o: Order, pair: Pair, trades: seq<Trade>, outSeq: nat)
    returns (batch: seq<ExecData>, next: nat)
    requires ledger.Valid()
    ensures batch == BuildBatch(ledger.Accts(), NO_OVERLAY, o, pair, trades, outSeq)
    ensures next == outSeq + |trades|
  {
    hide Predict, ShadowLedger.Accts, ShadowLedger.Valid;
    var temps := new TempMaps();
    batch, next := [], outSeq;
    ghost var m := ledger.Accts();
    var i := 0;
    assert trades[0..] == trades;
    while i < |trades|
      invariant i <= |trades| && next == outSeq + i
      invariant BuildBatch(m, NO_OVERLAY, o, pair, trades, outSeq) ==
                batch + BuildBatch(m, temps.Value(), o, pair, trades[i..], next)
    {
      assert trades[i..][1..] == trades[i + 1..];
      next := next + 1;
      var d := NextExec(ledger, temps, o, pair, trades[i], next);
      batch := batch + [d];
      i := i + 1;
    }
  }

  /** One turn of the bundle path's loop: trade, four events, batch element. */
  method NextOutput(ledger: ShadowLedger, temps: TempMaps, builder: Builder, o: Order, pair: Pair, t: Trade,
                    outSeq: nat)
    returns (d: ExecData)
    requires ledger.Valid()
    modifies temps, builder`trades, builder`events
    ensures (d, temps.Value()) == OutputExec(ledger.Accts(), old(temps.Value()), o, pair, t, outSeq)
    ensures builder.trades == old(builder.trades) + [TradeOutput(t, o.symbol, pair.0, pair.1, Refund(o, t), 0)]
    ensures builder.events == old(builder.events) + TradeEvents(d)
  {
    hide VersionIn, AvailIn, AddVersion, ShadowLedger.Accts, ShadowLedger.Valid;
    var refund := RefundOf(o, t);
    var bqv, bbv, sbv, sqv := TakeVersions(ledger, temps, pair, t, refund);
    var cost := t.price * t.quantity;
    builder.AddTrade(TradeOutput(t, o.symbol, pair.0, pair.1, refund, 0));
    var e1 := if refund > 0 then
      BalanceEvent(t.buyer, pair.1, WrapAdd(bqv, 1), AsI64(refund), NegI64(AddI64(AsI64(cost), AsI64(refund))),
                   None, None, TradeRefund, t.tradeId)
    else
      BalanceEvent(t.buyer, pair.1, WrapAdd(bqv, 1), 0, NegI64(AsI64(cost)), None, None, TradeDebit, t.tradeId);
    var e2 := BalanceEvent(t.buyer, pair.0, WrapAdd(bbv, 1), AsI64(t.quantity), 0, None, None, TradeCredit, t.tradeId);
    var e3 := BalanceEvent(t.seller, pair.0, WrapAdd(sbv, 1), 0, NegI64(AsI64(t.quantity)), None, None,
                           TradeDebit, t.tradeId);
    var e4 := BalanceEvent(t.seller, pair.1, WrapAdd(sqv, 1), AsI64(cost), 0, None, None, TradeCredit, t.tradeId);
    ghost var before := builder.events;
    builder.AddEvent(e1);
    builder.AddEvent(e2);
    builder.AddEvent(e3);
    builder.AddEvent(e4);
    assert builder.events == before + [e1, e2, e3, e4];
    d := ExecData(Settlement(t.buyer, t.seller, pair.0, pair.1, t.price, t.quantity, refund, 0),
                  t.tradeId, t.buyOrderId, t.sellOrderId, t.matchSeq, outSeq, bqv, bbv, sbv, sqv, 0, 0, 0, 0);
  }

  /** The bundle path's loop. */
  method BuildOutputs(ledger: ShadowLedger, builder: Builder, o: Order, pair: Pair, trades: seq<Trade>, outSeq: nat)
    returns (batch: seq<ExecData>, totalFilled: nat, totalCost: nat)
    requires ledger.Valid()
    modifies builder`trades, builder`events
    ensures batch == OutputBatch(ledger.Accts(), NO_OVERLAY, o, pair, trades, outSeq)
    ensures builder.trades == old(builder.trades) + TradeOutputs(o, pair, trades)
    ensures builder.events == old(builder.events) + EventsOf(batch)
    ensures totalFilled == FilledQty(trades) && totalCost == TotalCost(trades)
  {
    hide OutputExec, TradeEvents, ShadowLedger.Accts, ShadowLedger.Valid, OutputBatch, TradeOutputs, FilledQty,
         TotalCost, EventsOf, Refund;
    NoTrades(ledger.Accts(), o, pair, outSeq);
    var temps := new TempMaps();
    batch, totalFilled, totalCost := [], 0, 0;
    ghost var m := ledger.Accts();
    var i := 0;
    assert trades[0..] == trades;
    while i < |trades|
      invariant i <= |trades|
      invariant OutputBatch(m, NO_OVERLAY, o, pair, trades, outSeq) ==
                batch + OutputBatch(m, temps.Value(), o, pair, trades[i..], outSeq)
      invariant old(builder.trades) + TradeOutputs(o, pair, trades) ==
                builder.trades + TradeOutputs(o, pair, trades[i..])
      invariant builder.events == old(builder.events) + EventsOf(batch)
      invariant FilledQty(trades) == totalFilled + FilledQty(trades[i..])
      invariant TotalCost(trades) == totalCost + TotalCost(trades[i..])
    {
      FirstTrade(m, temps.Value(), o, pair, trades, i, outSeq);
      ghost var ov, done := temps.Value(), builder.trades;
      totalFilled := totalFilled + trades[i].quantity;
      totalCost := totalCost + trades[i].price * trades[i].quantity;
      var d := NextOutput(ledger, temps, builder, o, pair, trades[i], outSeq);
      EventsSnoc(batch, d);
      ghost var later := OutputBatch(m, temps.Value(), o, pair, trades[i + 1..], outSeq);
      assert batch + ([d] + later) == batch + [d] + later;
      ghost var t := TradeOutput(trades[i], o.symbol, pair.0, pair.1, Refund(o, trades[i]), 0);
      ghost var outs := TradeOutputs(o, pair, trades[i + 1..]);
      assert done + ([t] + outs) == done + [t] + outs;
      batch := batch + [d];
      i := i + 1;
    }
    assert trades[i..] == [];
  }

  lemma NoTrades(m: Accounts, o: Order, pair: Pair, n: nat)
    ensures forall ov :: OutputBatch(m, ov, o, pair, [], n) == []
    ensures TradeOutputs(o, pair, []) == [] && EventsOf([]) == []
    ensures FilledQty([]) == 0 && TotalCost([]) == 0
  {
  }

  lemma FirstTrade(m: Accounts, ov: Overlay, o: Order, pair: Pair, trades: seq<Trade>, i: nat, n: nat)
    requires i < |trades|
    ensures var (d, ov') := OutputExec(m, ov, o, pair, trades[i], n);
            OutputBatch(m, ov, o, pair, trades[i..], n) == [d] + OutputBatch(m, ov', o, pair, trades[i + 1..], n)
    ensures TradeOutputs(o, pair, trades[i..]) ==
            [TradeOutput(trades[i], o.symbol, pair.0, pair.1, Refund(o, trades[i]), 0)]
            + TradeOutputs(o, pair, trades[i + 1..])
    ensures FilledQty(trades[i..]) == trades[i].quantity + FilledQty(trades[i + 1..])
    ensures TotalCost(trades[i..]) == trades[i].price * trades[i].quantity + TotalCost(trades[i + 1..])
  {
    hide OutputExec, Refund;
    assert trades[i..][0] == trades[i] && trades[i..][1..] == trades[i + 1..];
  }

  lemma {:induction false} EventsSnoc(batch: seq<ExecData>, d: ExecData)
    ensures EventsOf(batch + [d]) == EventsOf(batch) + TradeEvents(d)
    decreases |batch|
  {
    hide TradeEvents;
    if batch == [] {
      assert [d][1..] == [];
    } else {
      assert (batch + [d])[1..] == batch[1..] + [d];
      EventsSnoc(batch[1..], d);
    }
  }
}
