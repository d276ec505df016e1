/** What can be said of every bundle the engine produces, and of every chain of them. */
module BundleTheorems {
  import opened Numbers
  import opened Options
  import opened Balances
  import opened LedgerSpec
  import opened LedgerLaws
  import opened BookSpec
  import opened BookLaws
  import opened TradeIds
  import opened ExchangeSpec
  import opened Collateral
  import opened Exchanges
  import opened Predictions
  import opened EngineOutputs
  import opened ChainConsumer
  import opened BundleSpec
  import opened BundleLaws

  // ----- The two batches of one order -----

  /** The bundle path's batch moves what the plain path's moves, whatever the two predict. */
  lemma {:induction false} SameDeals(m: Accounts, m0: Accounts, ov: Overlay, m0': Accounts, ov': Overlay,
                                     o: Order, pair: Pair, trades: seq<Trade>, n: nat, k: nat)
    ensures ApplyExecs(m, OutputBatch(m0, ov, o, pair, trades, n)) ==
            ApplyExecs(m, BuildBatch(m0', ov', o, pair, trades, k))
    decreases |trades|
  {
    hide Predict, OutputExec, ApplyMatchExec;
    if trades != [] {
      OutputExecDeal(m0, ov, o, pair, trades[0], n);
      PredictDeal(m0', ov', o, pair, trades[0], k + 1);
      var (d, next) := OutputExec(m0, ov, o, pair, trades[0], n);
      var (d', next') := Predict(m0', ov', o, pair, trades[0], k + 1);
      var rest := OutputBatch(m0, next, o, pair, trades[1..], n);
      var rest' := BuildBatch(m0', next', o, pair, trades[1..], k + 1);
      ExecsCons(m, d, rest);
      ExecsCons(m, d', rest');
      if ApplyMatchExec(m, d.deal).Done? {
        SameDeals(ApplyMatchExec(m, d.deal).accts, m0, next, m0', next', o, pair, trades[1..], n, k + 1);
      }
    }
  }

  lemma PredictDeal(m0: Accounts, ov: Overlay, o: Order, pair: Pair, t: Trade, n: nat)
    ensures Predict(m0, ov, o, pair, t, n).0.deal == DealOf(o, pair, t)
  {
    hide ChainOf, VersionIn, AvailIn;
  }

  lemma OutputExecDeal(m0: Accounts, ov: Overlay, o: Order, pair: Pair, t: Trade, n: nat)
    ensures OutputExec(m0, ov, o, pair, t, n).0.deal == DealOf(o, pair, t)
  {
    hide VersionChain, VersionIn;
  }

  // ----- The bundle path against the plain path -----

  /** Same accounts, books, pairs and trade ids; only the output counter may differ. */
  predicate SameState(x: Exchange, y: Exchange) {
    x.accts == y.accts && x.books == y.books && x.pairs == y.pairs && x.lastId == y.lastId
  }

  lemma OutputUnregistered(hs: Hashes, e: Engine, q: Request)
    requires q.order.symbol !in e.x.pairs
    ensures var r := PlaceWithOutput(hs, e, q);
            && r.Output? && !r.accepted && r.bundle.events == []
            && r.e.x == e.x.(outputSeq := e.x.outputSeq + 1)
  {
    hide RejectReport, InputOf;
  }

  lemma OutputBranches(hs: Hashes, e: Engine, q: Request)
    requires q.order.symbol in e.x.pairs && q.order.symbol in e.x.books
    ensures var o, x := q.order, e.x.(outputSeq := e.x.outputSeq + 1);
            var pair, b := x.pairs[o.symbol], x.books[o.symbol];
            var locked := DoTouch(x.accts, Touch(o.user, LockAsset(pair, o.side), BalOp.Lock(LockAmount(o))));
            var a := Add(b, o, x.lastId, q.ts);
            var r := PlaceWithOutput(hs, e, q);
            && (locked.Failed? ==>
                  r.Output? && !r.accepted && r.bundle.events == [] && r.e.x == x.(accts := locked.accts))
            && (locked.Done? && a.Duplicate? ==> r == NoOutput(Engine(x, e.lastHash)))
            && (locked.Done? && a.Added? ==>
                  r == SettleWithOutput(hs, e, q, pair, locked.accts, a.book, a.trades, a.lastId))
  {
    hide DoTouch, LockAmount, AfterMatch, TradesOf, MatchIn, LastIdAfter, SettleWithOutput, Get, RejectReport, InputOf;
  }

  lemma FilledWithinOrder(b: Book, o: Order, lastId: nat, ts: nat)
    requires Add(b, o, lastId, ts).Added?
    ensures FilledQty(Add(b, o, lastId, ts).trades) <= o.quantity
  {
    TradesReportFills(o, MatchIn(b, o).fills, b.matchSeq, lastId, ts);
    MatchConserves(o.side, o.price, o.quantity, Half(b, Opposite(o.side)));
  }

  /** What settling with a bundle produces when the batch applies. */
  lemma SettleContents(hs: Hashes, e: Engine, q: Request, pair: Pair, a: Accounts, b: Book, trades: seq<Trade>,
                       lastId: nat)
    requires FilledQty(trades) <= q.order.quantity
    requires ApplyExecs(a, OutputBatch(a, NO_OVERLAY, q.order, pair, trades, e.x.outputSeq + 1)).Done?
    ensures var o, n := q.order, e.x.outputSeq + 1;
            var batch := OutputBatch(a, NO_OVERLAY, o, pair, trades, n);
            var r := SettleWithOutput(hs, e, q, pair, a, b, trades, lastId);
            && r.Output? && r.accepted
            && r.e.x == e.x.(outputSeq := n, accts := ApplyExecs(a, batch).accts,
                             books := e.x.books[o.symbol := b], lastId := lastId)
            && r.bundle.events == [LockEventOf(e.x.accts, pair, o)] + EventsOf(batch)
            && r.bundle.report == Some(ReportOf(o, trades, q.ts))
            && r.bundle.trades == TradeOutputs(o, pair, trades)
            && r.bundle.placements == [o]
            && r.bundle.completions == if ReportOf(o, trades, q.ts).status == STATUS_FILLED then [o.id] else []
  {
    hide ApplyExecs, OutputBatch, ReportOf, TradeOutputs, LockEventOf, EventsOf, InputOf, FilledQty;
  }

  lemma SettleTradesMeans(x: Exchange, o: Order, pair: Pair, a: Accounts, b: Book, trades: seq<Trade>, lastId: nat)
    ensures var tx := ApplyExecs(a, BuildBatch(a, NO_OVERLAY, o, pair, trades, x.outputSeq));
            var p := SettleTrades(x, o, pair, a, b, trades, lastId);
            && (p.Placed? <==> tx.Done?)
            && (p.Placed? ==> p.x == x.(accts := tx.accts, books := x.books[o.symbol := b], lastId := lastId,
                                        outputSeq := x.outputSeq + |trades|))
  {
    hide ApplyExecs, BuildBatch;
  }

  /** Settling with a bundle succeeds when settling without one does, in the same state. */
  lemma SettleAgrees(hs: Hashes, e: Engine, q: Request, pair: Pair, a: Accounts, b: Book, trades: seq<Trade>,
                     lastId: nat)
    requires FilledQty(trades) <= q.order.quantity
    requires SettleTrades(e.x, q.order, pair, a, b, trades, lastId).Placed?
    ensures var p := SettleTrades(e.x, q.order, pair, a, b, trades, lastId);
            var r := SettleWithOutput(hs, e, q, pair, a, b, trades, lastId);
            && r.Output? && r.accepted && SameState(r.e.x, p.x) && r.e.x.outputSeq == e.x.outputSeq + 1
  {
    hide *;
    SameDeals(a, a, NO_OVERLAY, a, NO_OVERLAY, q.order, pair, trades, e.x.outputSeq + 1, e.x.outputSeq);
    SettleTradesMeans(e.x, q.order, pair, a, b, trades, lastId);
    SettleContents(hs, e, q, pair, a, b, trades, lastId);
    SameStateFacts();
  }

  lemma SoundIgnoresCounters(x: Exchange, y: Exchange)
    requires Sound(x) && x.accts == y.accts && x.books == y.books && x.pairs == y.pairs
    ensures Sound(y)
  {
    hide Required, WellFormed, Supply, Get;
    forall u, a ensures Required(x, u, a) == Required(y, u, a) {
      RequiredSame(x, y, u, a);
    }
    forall s | s in y.books ensures SoundBook(y.accts, y.books[s], y.pairs[s]) {
      assert SoundBook(x.accts, x.books[s], x.pairs[s]);
    }
  }

  /** From a sound state the bundle path does exactly what the plain path does: it accepts the same
      orders and reaches the same state, which is sound again. It always produces a bundle, except
      for a duplicate id, which only uses up a number. */
  lemma OutputIsPlacement(hs: Hashes, e: Engine, q: Request)
    requires Sound(e.x) && LockAmount(q.order) <= U64_MAX
    ensures var r, p := PlaceWithOutput(hs, e, q), Place(e.x, q.order, q.ts);
            && (r.NoOutput? <==> p.DuplicateOrder?)
            && (r.NoOutput? ==> r.e == Engine(e.x.(outputSeq := e.x.outputSeq + 1), e.lastHash))
            && (r.Output? <==> p.Placed? || p.NotAccepted?)
            && (r.Output? ==> (r.accepted <==> p.Placed?) && SameState(r.e.x, p.x))
            && (r.Output? || r.NoOutput? ==> Sound(r.e.x) && r.e.x.outputSeq == e.x.outputSeq + 1)
            && !r.OutputCrash?
  {
    hide *;
    var o, x := q.order, e.x;
    SoundParts(x);
    StepOfPlace(x, o, q.ts);
    PlaceKeepsSound(x, o, q.ts);
    if o.symbol in x.pairs {
      var pair := x.pairs[o.symbol];
      LockOutcome(x.accts, o.user, LockAsset(pair, o.side), LockAmount(o));
      PlaceBranches(x, o, q.ts);
      OutputBranches(hs, e, q);
      var a := Add(x.books[o.symbol], o, x.lastId, q.ts);
      var locked := DoTouch(x.accts, Touch(o.user, LockAsset(pair, o.side), BalOp.Lock(LockAmount(o))));
      if locked.Done? && a.Added? {
        FilledWithinOrder(x.books[o.symbol], o, x.lastId, q.ts);
        SettleAgrees(hs, e, q, pair, locked.accts, a.book, a.trades, a.lastId);
      }
    } else {
      PlaceUnregistered(x, o, q.ts);
      OutputUnregistered(hs, e, q);
    }
    SameStateFacts();
    var r := PlaceWithOutput(hs, e, q);
    if r.Output? {
      SoundIgnoresCounters(DoStep(x, PlaceStep(o, q.ts)), r.e.x);
    } else if r.NoOutput? {
      SoundIgnoresCounters(x, r.e.x);
    }
  }

  lemma SameStateFacts()
    ensures forall x, y :: SameState(x, y) <==>
              x.accts == y.accts && x.books == y.books && x.pairs == y.pairs && x.lastId == y.lastId
  {
  }

  // ----- Zero-sum -----

  /** What the events of a batch sum to in one asset, whatever its amounts. */
  lemma {:induction false} SumOfEvents(batch: seq<ExecData>, a: AssetId)
    ensures AssetDelta(EventsOf(batch), a) == TWO_64 * TradeWrapsIn(batch, a)
    decreases |batch|
  {
    hide TradeEvents, AssetDelta, TradeWraps;
    if batch == [] {
      NoEvents(a);
    } else {
      SumOfEvents(batch[1..], a);
      SumOfTrade(batch[0], a);
      DeltasAppend(TradeEvents(batch[0]), EventsOf(batch[1..]), 0, a);
    }
  }

  lemma NoEvents(a: AssetId)
    ensures AssetDelta([], a) == 0
  {
  }

  lemma SumOfLock(m: Accounts, pair: Pair, o: Order, a: AssetId)
    ensures AssetDelta([LockEventOf(m, pair, o)], a) == TWO_64 * LockWraps(pair, o, a)
  {
    LockAmounts(m, pair, o);
    OneEvent(LockEventOf(m, pair, o), 0, a);
    hide AssetDelta, Wraps, WrapsDown, LockEventOf;
  }

  /** How much more often the debit of a lock wraps around than its credit. */
  function LockWraps(pair: Pair, o: Order, a: AssetId): int {
    if a == LockAsset(pair, o.side) then WrapsDown(LockAmount(o)) - Wraps(LockAmount(o)) else 0
  }

  /** The numbers in a lock's event, whatever its amount. */
  lemma LockAmounts(m: Accounts, pair: Pair, o: Order)
    ensures var e, n := LockEventOf(m, pair, o), LockAmount(o);
            && e.user == o.user && e.asset == LockAsset(pair, o.side)
            && e.deltaAvail == TWO_64 * WrapsDown(n) - n && e.deltaFrozen == n - TWO_64 * Wraps(n)
  {
    hide AsI64, NegI64, Wraps, WrapsDown, LockAmount, Get;
    StoredAmount(LockAmount(o));
  }

  /** The two deltas of a lock cancel out unless its amount is exactly 2^63. */
  lemma WhenLockCancels(pair: Pair, o: Order, a: AssetId)
    requires LockAmount(o) <= U64_MAX
    ensures LockWraps(pair, o, a) == 0 <==> a == LockAsset(pair, o.side) ==> LockAmount(o) != I64_MAX + 1
  {
    hide Wraps, WrapsDown, LockAmount;
    WrapsOfWord(LockAmount(o));
  }

  /** How much more often the debits of a request's bundle wrap around than its credits, in one asset. */
  ghost function BundleWraps(e: Engine, q: Request, a: AssetId): int {
    if q.order.symbol !in e.x.pairs || !LockOf(e, q).Done? then 0 else
    LockWraps(e.x.pairs[q.order.symbol], q.order, a)
    + if q.order.symbol in e.x.books && Add(e.x.books[q.order.symbol], q.order, e.x.lastId, q.ts).Added?
      then TradeWrapsIn(BatchOf(e, q, LockOf(e, q).accts), a) else 0
  }

  /** The events of a bundle, whatever became of the order: none, the lock, or the lock and a batch. */
  lemma EventsOfOutput(hs: Hashes, e: Engine, q: Request)
    requires PlaceWithOutput(hs, e, q).Output?
    ensures var es := PlaceWithOutput(hs, e, q).bundle.events;
            if q.order.symbol !in e.x.pairs || !LockOf(e, q).Done? then es == [] else
            var lock := [LockEventOf(e.x.accts, e.x.pairs[q.order.symbol], q.order)];
            if q.order.symbol !in e.x.books then es == lock
            else Add(e.x.books[q.order.symbol], q.order, e.x.lastId, q.ts).Added?
                 && es == lock + EventsOf(BatchOf(e, q, LockOf(e, q).accts))
  {
    hide DoTouch, LockEventOf, ReportOf, RejectReport, InputOf, Add, TradeOutputs, OutputBatch, FilledQty, ApplyExecs,
         Get,
         LockAmount;
  }

  /** What the deltas of every bundle, of an accepted or a rejected order, sum to in every asset: 2^64 for
      each of them that wraps around, and so zero exactly when as many debits as credits do. */
  lemma EveryBundleIsZeroSum(hs: Hashes, e: Engine, q: Request, a: AssetId)
    requires PlaceWithOutput(hs, e, q).Output?
    ensures var sum := AssetDelta(PlaceWithOutput(hs, e, q).bundle.events, a);
            && sum == TWO_64 * BundleWraps(e, q, a)
            && (sum == 0 <==> BundleWraps(e, q, a) == 0)
  {
    hide *;
    EventsOfOutput(hs, e, q);
    NoEvents(a);
    WrapsOfBundle(e, q, a);
    if q.order.symbol in e.x.pairs && LockOf(e, q).Done? {
      var lock := LockEventOf(e.x.accts, e.x.pairs[q.order.symbol], q.order);
      SumOfLock(e.x.accts, e.x.pairs[q.order.symbol], q.order, a);
      if q.order.symbol in e.x.books {
        var batch := BatchOf(e, q, LockOf(e, q).accts);
        SumOfEvents(batch, a);
        DeltasAppend([lock], EventsOf(batch), 0, a);
      }
    }
    WordIsPositive();
  }

  lemma WordIsPositive()
    ensures TWO_64 == 0x1_0000_0000_0000_0000 && I64_MAX < U64_MAX
  {
  }

  lemma WrapsOfBundle(e: Engine, q: Request, a: AssetId)
    ensures q.order.symbol !in e.x.pairs || !LockOf(e, q).Done? ==> BundleWraps(e, q, a) == 0
    ensures q.order.symbol in e.x.pairs && LockOf(e, q).Done? ==>
              BundleWraps(e, q, a) == LockWraps(e.x.pairs[q.order.symbol], q.order, a)
              + if q.order.symbol in e.x.books && Add(e.x.books[q.order.symbol], q.order, e.x.lastId, q.ts).Added?
                then TradeWrapsIn(BatchOf(e, q, LockOf(e, q).accts), a) else 0
  {
    hide LockOf, LockWraps, Add, BatchOf, TradeWrapsIn;
  }

  // ----- Events against the ledger -----

  lemma {:induction false} OutputBatchRefundsTaker(m0: Accounts, ov: Overlay, o: Order, pair: Pair, trades: seq<Trade>,
                                                   n: nat)
    ensures TakerRefundsOnly(OutputBatch(m0, ov, o, pair, trades, n))
    decreases |trades|
  {
    hide OutputExec;
    if trades != [] {
      OutputExecDeal(m0, ov, o, pair, trades[0], n);
      OutputBatchRefundsTaker(m0, OutputExec(m0, ov, o, pair, trades[0], n).1, o, pair, trades[1..], n);
    }
  }

  /** How often the lock's delta wraps around for one available and one frozen balance. */
  function LockDebitWraps(pair: Pair, o: Order, u: UserId, a: AssetId): nat {
    if u == o.user && a == LockAsset(pair, o.side) then WrapsDown(LockAmount(o)) else 0
  }

  function LockCreditWraps(pair: Pair, o: Order, u: UserId, a: AssetId): nat {
    if u == o.user && a == LockAsset(pair, o.side) then Wraps(LockAmount(o)) else 0
  }

  /** The lock event is the lock, but for deltas that wrap. */
  lemma LockEventIsTheLock(m: Accounts, pair: Pair, o: Order, u: UserId, a: AssetId)
    requires DoTouch(m, Touch(o.user, LockAsset(pair, o.side), BalOp.Lock(LockAmount(o)))).Done?
    ensures var m' := DoTouch(m, Touch(o.user, LockAsset(pair, o.side), BalOp.Lock(LockAmount(o)))).accts;
            && AvailDelta([LockEventOf(m, pair, o)], u, a) ==
               Get(m', u, a).avail - Get(m, u, a).avail + TWO_64 * LockDebitWraps(pair, o, u, a)
            && FrozenDelta([LockEventOf(m, pair, o)], u, a) ==
               Get(m', u, a).frozen - Get(m, u, a).frozen - TWO_64 * LockCreditWraps(pair, o, u, a)
  {
    LockAmounts(m, pair, o);
    hide AvailDelta, FrozenDelta, Get, DoTouch, Wraps, WrapsDown, LockEventOf, LockAmount;
    TouchReads(m, Touch(o.user, LockAsset(pair, o.side), BalOp.Lock(LockAmount(o))));
    OneEvent(LockEventOf(m, pair, o), u, a);
    assert Touch(o.user, LockAsset(pair, o.side), BalOp.Lock(LockAmount(o))).op.amount == LockAmount(o);
    TouchSucceeded(m, Touch(o.user, LockAsset(pair, o.side), BalOp.Lock(LockAmount(o))));
  }

  lemma TouchSucceeded(m: Accounts, t: Touch)
    requires DoTouch(m, t).Done?
    ensures ApplyOp(Get(m, t.user, t.asset), t.op).status == Success
  {
  }

  /** The lock, the match, and the batch behind an accepted bundle. */
  ghost function LockOf(e: Engine, q: Request): Tx
    requires q.order.symbol in e.x.pairs
  {
    DoTouch(e.x.accts, Touch(q.order.user, LockAsset(e.x.pairs[q.order.symbol], q.order.side),
                             BalOp.Lock(LockAmount(q.order))))
  }

  ghost function BatchOf(e: Engine, q: Request, m: Accounts): seq<ExecData>
    requires q.order.symbol in e.x.pairs && q.order.symbol in e.x.books
    requires Add(e.x.books[q.order.symbol], q.order, e.x.lastId, q.ts).Added?
  {
    OutputBatch(m, NO_OVERLAY, q.order, e.x.pairs[q.order.symbol],
                Add(e.x.books[q.order.symbol], q.order, e.x.lastId, q.ts).trades, e.x.outputSeq + 1)
  }

  lemma AcceptedMeans(hs: Hashes, e: Engine, q: Request)
    requires Sound(e.x) && LockAmount(q.order) <= U64_MAX
    requires PlaceWithOutput(hs, e, q).Output? && PlaceWithOutput(hs, e, q).accepted
    ensures q.order.symbol in e.x.pairs && q.order.symbol in e.x.books
    ensures var x, o, r := e.x, q.order, PlaceWithOutput(hs, e, q);
            var a := Add(x.books[o.symbol], o, x.lastId, q.ts);
            && LockOf(e, q).Done? && a.Added? && FilledQty(a.trades) <= o.quantity
            && var batch := BatchOf(e, q, LockOf(e, q).accts);
               && ApplyExecs(LockOf(e, q).accts, batch) == Done(r.e.x.accts)
               && r.bundle.events == [LockEventOf(x.accts, x.pairs[o.symbol], o)] + EventsOf(batch)
               && r.bundle.report == Some(ReportOf(o, a.trades, q.ts))
               && r.bundle.completions == if ReportOf(o, a.trades, q.ts).status == STATUS_FILLED then [o.id] else []
  {
    hide DoTouch, Place, LockAmount, Add, PlaceWithOutput, SettleWithOutput, SettleTrades, Sound, Get, ReportOf,
         LockEventOf, EventsOf, OutputBatch, BuildBatch, ApplyExecs, FilledQty, RejectReport, LockAsset;
    var o, x := q.order, e.x;
    SoundParts(x);
    OutputIsPlacement(hs, e, q);
    PlaceKeepsSound(x, o, q.ts);
    var pair, b := x.pairs[o.symbol], x.books[o.symbol];
    LockOutcome(x.accts, o.user, LockAsset(pair, o.side), LockAmount(o));
    PlaceBranches(x, o, q.ts);
    OutputBranches(hs, e, q);
    var a, locked := Add(b, o, x.lastId, q.ts), LockOf(e, q);
    FilledWithinOrder(b, o, x.lastId, q.ts);
    SettleTradesMeans(x, o, pair, locked.accts, a.book, a.trades, a.lastId);
    SameDeals(locked.accts, locked.accts, NO_OVERLAY, locked.accts, NO_OVERLAY, o, pair, a.trades, x.outputSeq + 1,
              x.outputSeq);
    SettleContents(hs, e, q, pair, locked.accts, a.book, a.trades, a.lastId);
  }

  /** The events of an accepted order's bundle against what happened, for every user and asset and with
      no bound on the amounts: the deltas add up to the change of the balance, off by 2^64 for each of
      them that wraps around, one way for a debit and the other for a credit. So they tell the truth about
      a balance if and only if as many wrap in its lock as in its trades. */
  lemma BundleTellsTheTruth(hs: Hashes, e: Engine, q: Request, u: UserId, a: AssetId)
    requires Sound(e.x) && LockAmount(q.order) <= U64_MAX
    requires PlaceWithOutput(hs, e, q).Output? && PlaceWithOutput(hs, e, q).accepted
    ensures q.order.symbol in e.x.pairs && q.order.symbol in e.x.books && LockOf(e, q).Done?
    ensures Add(e.x.books[q.order.symbol], q.order, e.x.lastId, q.ts).Added?
    ensures var r, pair := PlaceWithOutput(hs, e, q), e.x.pairs[q.order.symbol];
            var batch := BatchOf(e, q, LockOf(e, q).accts);
            var availWraps := LockDebitWraps(pair, q.order, u, a) - CreditWrapsIn(batch, u, a);
            var frozenWraps := DebitWrapsIn(batch, u, a) - LockCreditWraps(pair, q.order, u, a);
            var availChange := Get(r.e.x.accts, u, a).avail - Get(e.x.accts, u, a).avail;
            var frozenChange := Get(r.e.x.accts, u, a).frozen - Get(e.x.accts, u, a).frozen;
            && AvailDelta(r.bundle.events, u, a) == availChange + TWO_64 * availWraps
            && FrozenDelta(r.bundle.events, u, a) == frozenChange + TWO_64 * frozenWraps
            && (AvailDelta(r.bundle.events, u, a) == availChange <==> availWraps == 0)
            && (FrozenDelta(r.bundle.events, u, a) == frozenChange <==> frozenWraps == 0)
  {
    hide *;
    AcceptedMeans(hs, e, q);
    var x, o := e.x, q.order;
    var pair := x.pairs[o.symbol];
    var m := LockOf(e, q).accts;
    var batch := BatchOf(e, q, m);
    LockedSupplyFits(e, q);
    BatchOfRefundsTaker(e, q, m);
    LockOfMeans(e, q);
    LockEventIsTheLock(x.accts, pair, o, u, a);
    BatchEventsAreTheChange(m, batch, u, a);
    DeltasAppend([LockEventOf(x.accts, pair, o)], EventsOf(batch), u, a);
    WordIsPositive();
  }

  lemma LockOfMeans(e: Engine, q: Request)
    requires q.order.symbol in e.x.pairs
    ensures LockOf(e, q) == DoTouch(e.x.accts, Touch(q.order.user, LockAsset(e.x.pairs[q.order.symbol], q.order.side),
                                                     BalOp.Lock(LockAmount(q.order))))
  {
  }

  lemma BatchOfRefundsTaker(e: Engine, q: Request, m: Accounts)
    requires q.order.symbol in e.x.pairs && q.order.symbol in e.x.books
    requires Add(e.x.books[q.order.symbol], q.order, e.x.lastId, q.ts).Added?
    ensures TakerRefundsOnly(BatchOf(e, q, m))
  {
    hide OutputBatch, Add, TakerRefundsOnly;
    OutputBatchRefundsTaker(m, NO_OVERLAY, q.order, e.x.pairs[q.order.symbol],
                            Add(e.x.books[q.order.symbol], q.order, e.x.lastId, q.ts).trades, e.x.outputSeq + 1);
  }

  /** A lock moves no supply. */
  lemma LockedSupplyFits(e: Engine, q: Request)
    requires q.order.symbol in e.x.pairs && Sound(e.x)
    ensures !LockOf(e, q).Panicked? && SupplyFits(LockOf(e, q).accts)
  {
    hide DoTouch, Supply, Get, LockAmount, SupplyFits;
    SoundParts(e.x);
    LockOutcome(e.x.accts, q.order.user, LockAsset(e.x.pairs[q.order.symbol], q.order.side), LockAmount(q.order));
  }

  /** Castable amounts: when the lock and every trade's cost, refund and quantity fit a signed integer,
      all deltas of the bundle are exact, and they sum to zero. */
  lemma CastableBundleTellsTheTruth(hs: Hashes, e: Engine, q: Request, u: UserId, a: AssetId)
    requires Sound(e.x) && LockAmount(q.order) <= I64_MAX
    requires PlaceWithOutput(hs, e, q).Output? && PlaceWithOutput(hs, e, q).accepted
    requires q.order.symbol in e.x.pairs && q.order.symbol in e.x.books
    requires Add(e.x.books[q.order.symbol], q.order, e.x.lastId, q.ts).Added?
    requires CastableTrades(q.order, e.x.pairs[q.order.symbol],
                            Add(e.x.books[q.order.symbol], q.order, e.x.lastId, q.ts).trades)
    ensures var r := PlaceWithOutput(hs, e, q);
            && AvailDelta(r.bundle.events, u, a) == Get(r.e.x.accts, u, a).avail - Get(e.x.accts, u, a).avail
            && FrozenDelta(r.bundle.events, u, a) == Get(r.e.x.accts, u, a).frozen - Get(e.x.accts, u, a).frozen
            && AssetDelta(r.bundle.events, a) == 0
  {
    hide *;
    WordIsPositive();
    AcceptedMeans(hs, e, q);
    BundleTellsTheTruth(hs, e, q, u, a);
    EveryBundleIsZeroSum(hs, e, q, a);
    WrapsOfBundle(e, q, a);
    CastableWraps(e, q, u, a);
  }

  lemma CastableWraps(e: Engine, q: Request, u: UserId, a: AssetId)
    requires LockAmount(q.order) <= I64_MAX && q.order.symbol in e.x.pairs && q.order.symbol in e.x.books
    requires Add(e.x.books[q.order.symbol], q.order, e.x.lastId, q.ts).Added?
    requires var trades := Add(e.x.books[q.order.symbol], q.order, e.x.lastId, q.ts).trades;
             CastableTrades(q.order, e.x.pairs[q.order.symbol], trades) && FilledQty(trades) <= q.order.quantity
    ensures var pair := e.x.pairs[q.order.symbol];
            && LockWraps(pair, q.order, a) == 0
            && LockDebitWraps(pair, q.order, u, a) == 0 && LockCreditWraps(pair, q.order, u, a) == 0
    ensures !LockOf(e, q).Panicked? ==>
              var batch := BatchOf(e, q, LockOf(e, q).accts);
              CreditWrapsIn(batch, u, a) == 0 && DebitWrapsIn(batch, u, a) == 0 && TradeWrapsIn(batch, a) == 0
  {
    hide Add, OutputBatch, CastableTrades, LockAsset, LockAmount, LockOf, Wraps, WrapsDown, CastableDebits, FilledQty;
    var o, pair, trades := q.order, e.x.pairs[q.order.symbol],
                           Add(e.x.books[q.order.symbol], q.order, e.x.lastId, q.ts).trades;
    TradesRespectTheLimit(e.x.books[o.symbol], o, e.x.lastId, q.ts);
    DebitsAreCastable(o, pair, trades);
    if !LockOf(e, q).Panicked? {
      NothingWrapsIn(LockOf(e, q).accts, NO_OVERLAY, o, pair, trades, e.x.outputSeq + 1, u, a);
    }
    WrapsOfWord(LockAmount(o));
  }

  /** The buyer's cost and refund together survive the cast too. */
  predicate CastableDebits(o: Order, pair: Pair, trades: seq<Trade>) {
    forall i :: 0 <= i < |trades| ==> DealOf(o, pair, trades[i]).Cost() + Refund(o, trades[i]) <= I64_MAX
  }

  /** For a buy because they are part of the lock, for a sell because there is no refund. */
  lemma DebitsAreCastable(o: Order, pair: Pair, trades: seq<Trade>)
    requires LockAmount(o) <= I64_MAX && CastableTrades(o, pair, trades) && FilledQty(trades) <= o.quantity
    requires forall t :: t in trades ==> Crosses(o.side, o.price, t.price)
    ensures CastableDebits(o, pair, trades)
  {
    forall i | 0 <= i < |trades|
      ensures DealOf(o, pair, trades[i]).Cost() + Refund(o, trades[i]) <= I64_MAX
    {
      var t := trades[i];
      assert Castable(DealOf(o, pair, t));
      if o.side == Buy {
        assert t in trades;
        OneOfTheFilled(trades, i);
        MulIsMonotone(t.price, o.price, t.quantity);
        MulIsMonotone(t.quantity, o.quantity, o.price);
        CostAndRefund(o.price, t.price, t.quantity);
      }
    }
  }

  lemma CostAndRefund(limit: nat, price: nat, quantity: nat)
    requires price <= limit
    ensures price * quantity + (limit - price) * quantity == limit * quantity
  {
  }

  lemma {:induction false} OneOfTheFilled(trades: seq<Trade>, i: nat)
    requires i < |trades|
    ensures trades[i].quantity <= FilledQty(trades)
    decreases i
  {
    if i > 0 {
      OneOfTheFilled(trades[1..], i - 1);
    }
  }

  lemma {:induction false} NothingWrapsIn(m0: Accounts, ov: Overlay, o: Order, pair: Pair, trades: seq<Trade>, n: nat,
                                          u: UserId, a: AssetId)
    requires CastableTrades(o, pair, trades) && CastableDebits(o, pair, trades)
    ensures var batch := OutputBatch(m0, ov, o, pair, trades, n);
            CreditWrapsIn(batch, u, a) == 0 && DebitWrapsIn(batch, u, a) == 0 && TradeWrapsIn(batch, a) == 0
    decreases |trades|
  {
    hide OutputExec, DealOf, Wraps, WrapsDown, Refund;
    if trades != [] {
      OutputExecDeal(m0, ov, o, pair, trades[0], n);
      var s := DealOf(o, pair, trades[0]);
      assert Castable(s) && s.Cost() + Refund(o, trades[0]) <= I64_MAX;
      DealHasRefund(o, pair, trades[0]);
      WrapsOfWord(s.Cost());
      WrapsOfWord(s.buyerRefund);
      WrapsOfWord(s.quantity);
      WrapsOfWord(s.Cost() + s.buyerRefund);
      assert forall i :: 0 <= i < |trades[1..]| ==> trades[1..][i] == trades[i + 1];
      NothingWrapsIn(m0, OutputExec(m0, ov, o, pair, trades[0], n).1, o, pair, trades[1..], n, u, a);
    }
  }

  lemma DealHasRefund(o: Order, pair: Pair, t: Trade)
    ensures DealOf(o, pair, t).buyerRefund == Refund(o, t)
  {
  }

  // ----- The taker's frozen funds -----

  lemma {:induction false} FillsSpendTheLock(m0: Accounts, ov: Overlay, o: Order, pair: Pair, fills: seq<Fill>,
                                             seq0: nat, lastId: nat, ts: nat, n: nat)
    requires pair.0 != pair.1
    requires forall f :: f in fills ==> Crosses(o.side, o.price, f.maker.price) && f.maker.side == Opposite(o.side)
    ensures var batch := OutputBatch(m0, ov, o, pair, TradesOf(o, fills, seq0, lastId, ts), n);
            var wraps := DebitWrapsIn(batch, o.user, LockAsset(pair, o.side));
            && FrozenDelta(EventsOf(batch), o.user, LockAsset(pair, o.side)) ==
               TWO_64 * wraps - LockAmount(o.(quantity := Taken(fills)))
            && (I64_MAX + 2) * wraps <= LockAmount(o.(quantity := Taken(fills)))
    decreases |fills|
  {
    hide OutputExec, FrozenLoss, TradeEvents, Crosses, FillDeal, DealOf, LockAmount, NextId, DebitWraps, CreditWraps;
    var a := LockAsset(pair, o.side);
    if fills == [] {
      NothingLocked(o);
    } else {
      var f, id := fills[0], NextId(lastId, ts);
      var trades := TradesOf(o, fills, seq0, lastId, ts);
      TradesFirst(o, fills, seq0, lastId, ts);
      OutputExecDeal(m0, ov, o, pair, trades[0], n);
      var (d, ov') := OutputExec(m0, ov, o, pair, trades[0], n);
      var rest := OutputBatch(m0, ov', o, pair, trades[1..], n);
      var batch := OutputBatch(m0, ov, o, pair, trades, n);
      assert batch == [d] + rest;
      assert batch[0] == d && batch[1..] == rest;
      SameDealWhateverId(o, pair, f, seq0 + 1, id);
      FillsSpendTheLock(m0, ov', o, pair, fills[1..], seq0 + 1, id, ts, n);
      FillRefundsTaker(o, pair, f);
      TradeEventsAreTheDeal(d, o.user, a);
      WrapsAreLarge(d.deal, o.user, a);
      FillLoss(o, pair, f, o.user, a);
      DeltasAppend(TradeEvents(d), EventsOf(rest), o.user, a);
      LockAmountSplits(o, f.quantity, Taken(fills));
    }
  }

  lemma FillRefundsTaker(o: Order, pair: Pair, f: Fill)
    ensures FillDeal(o, pair, f).sellerRefund == 0
  {
  }

  lemma NothingLocked(o: Order)
    ensures LockAmount(o.(quantity := 0)) == 0
  {
    assert o.price * 0 == 0;
  }

  lemma TradesFirst(o: Order, fills: seq<Fill>, seq0: nat, lastId: nat, ts: nat)
    requires fills != []
    ensures var trades := TradesOf(o, fills, seq0, lastId, ts);
            && trades != []
            && trades[0] == TradeOf(o, fills[0], seq0 + 1, NextId(lastId, ts))
            && trades[1..] == TradesOf(o, fills[1..], seq0 + 1, NextId(lastId, ts), ts)
  {
  }

  lemma SameDealWhateverId(o: Order, pair: Pair, f: Fill, n: nat, id: nat)
    ensures DealOf(o, pair, TradeOf(o, f, n, id)) == FillDeal(o, pair, f)
  {
  }

  /** The lock's and the fills' events leave frozen exactly what the rest of the order needs - limit
      price times remaining quantity of quote for a buy, the remaining quantity of base for a sell - if
      and only if the fills wrap around as often as the lock; in particular whenever the lock itself
      fits a signed integer. */
  lemma TakerKeepsFrozen(hs: Hashes, e: Engine, q: Request)
    requires Sound(e.x) && LockAmount(q.order) <= U64_MAX
    requires PlaceWithOutput(hs, e, q).Output? && PlaceWithOutput(hs, e, q).accepted
    ensures q.order.symbol in e.x.pairs && q.order.symbol in e.x.books && LockOf(e, q).Done?
    ensures Add(e.x.books[q.order.symbol], q.order, e.x.lastId, q.ts).Added?
    ensures var b, o := PlaceWithOutput(hs, e, q).bundle, q.order;
            var a := LockAsset(e.x.pairs[o.symbol], o.side);
            var wraps := DebitWrapsIn(BatchOf(e, q, LockOf(e, q).accts), o.user, a);
            && b.report.Some? && b.report.value.remainingQty <= o.quantity
            && var needed := LockAmount(o.(quantity := b.report.value.remainingQty));
               && (FrozenDelta(b.events, o.user, a) == needed <==> Wraps(LockAmount(o)) == wraps)
               && (LockAmount(o) <= I64_MAX ==> FrozenDelta(b.events, o.user, a) == needed)
  {
    hide *;
    AcceptedMeans(hs, e, q);
    var x, o := e.x, q.order;
    var pair := x.pairs[o.symbol];
    var b, m := x.books[o.symbol], LockOf(e, q).accts;
    var batch := BatchOf(e, q, m);
    BooksTradeTwoAssets(x, o.symbol);
    SoundHasBook(x, o.symbol);
    AddMeans(b, o, x.lastId, q.ts);
    var fills := MatchIn(b, o).fills;
    BatchOfMeans(e, q, m);
    FillsSpendTheLock(m, NO_OVERLAY, o, pair, fills, b.matchSeq, x.lastId, q.ts, x.outputSeq + 1);
    OneLockEvent(x.accts, pair, o);
    var a := LockAsset(pair, o.side);
    DeltasAppend([LockEventOf(x.accts, pair, o)], EventsOf(batch), o.user, a);
    ReportFields(o, Add(b, o, x.lastId, q.ts).trades, q.ts);
    LockAmountSplits(o, Taken(fills), o.quantity);
    assert o.(quantity := o.quantity) == o;
    WrapsOfParts(LockAmount(o), LockAmount(o.(quantity := Taken(fills))), DebitWrapsIn(batch, o.user, a));
  }

  lemma WrapsOfParts(whole: nat, part: nat, wraps: nat)
    requires part <= whole && (I64_MAX + 2) * wraps <= part
    ensures TWO_64 * Wraps(whole) == TWO_64 * wraps <==> Wraps(whole) == wraps
    ensures whole <= I64_MAX ==> Wraps(whole) == wraps
  {
    hide Wraps;
    if whole <= I64_MAX {
      WrapsOfWord(whole);
    }
  }

  lemma AddMeans(b: Book, o: Order, lastId: nat, ts: nat)
    requires WellFormed(b) && Add(b, o, lastId, ts).Added?
    ensures Add(b, o, lastId, ts).trades == TradesOf(o, MatchIn(b, o).fills, b.matchSeq, lastId, ts)
    ensures FilledQty(Add(b, o, lastId, ts).trades) == Taken(MatchIn(b, o).fills)
    ensures forall f :: f in MatchIn(b, o).fills ==>
              Crosses(o.side, o.price, f.maker.price) && f.maker.side == Opposite(o.side)
  {
    hide TradesOf, Match, Crosses, FilledQty, Taken, AfterMatch;
    TradesReportFills(o, MatchIn(b, o).fills, b.matchSeq, lastId, ts);
    MatchFollowsPriority(o.side, o.price, o.quantity, Half(b, Opposite(o.side)));
    SidesHaveTheirSide(b, Opposite(o.side));
  }

  lemma BatchOfMeans(e: Engine, q: Request, m: Accounts)
    requires q.order.symbol in e.x.pairs && q.order.symbol in e.x.books
    requires Add(e.x.books[q.order.symbol], q.order, e.x.lastId, q.ts).Added?
    ensures BatchOf(e, q, m) ==
            OutputBatch(m, NO_OVERLAY, q.order, e.x.pairs[q.order.symbol],
                        Add(e.x.books[q.order.symbol], q.order, e.x.lastId, q.ts).trades, e.x.outputSeq + 1)
  {
    hide OutputBatch, Add;
  }

  lemma OneLockEvent(m: Accounts, pair: Pair, o: Order)
    ensures FrozenDelta([LockEventOf(m, pair, o)], o.user, LockAsset(pair, o.side)) ==
            LockAmount(o) - TWO_64 * Wraps(LockAmount(o))
  {
    LockAmounts(m, pair, o);
    hide FrozenDelta, Get, LockAmount, Wraps, LockEventOf;
    OneEvent(LockEventOf(m, pair, o), o.user, LockAsset(pair, o.side));
  }

  lemma ReportFields(o: Order, trades: seq<Trade>, ts: nat)
    requires FilledQty(trades) <= o.quantity
    ensures ReportOf(o, trades, ts).remainingQty == o.quantity - FilledQty(trades)
  {
    hide FilledQty, TotalCost;
  }

  // ----- Sequence numbers of the events -----

  /** The versions behind the events' sequence numbers are the ledger's, as on the plain path. */
  lemma {:induction false} OutputVersionsAreRight(m0: Accounts, ov: Overlay, o: Order, pair: Pair,
                                                  trades: seq<Trade>, n: nat, now: Accounts)
    requires pair.0 != pair.1 && TracksVersions(ov, m0, now)
    requires ApplyExecs(now, OutputBatch(m0, ov, o, pair, trades, n)).Done?
    ensures Predicted(now, OutputBatch(m0, ov, o, pair, trades, n), false)
    decreases |trades|
  {
    hide Predict, OutputExec, TracksVersions, VersionsRight, BalancesRight, ApplyMatchExec, DealOf;
    if trades != [] {
      OutputExecDeal(m0, ov, o, pair, trades[0], n);
      var (d, ov') := OutputExec(m0, ov, o, pair, trades[0], n);
      var rest := OutputBatch(m0, ov', o, pair, trades[1..], n);
      ExecsCons(now, d, rest);
      OutputExecVersions(m0, ov, o, pair, trades[0], n, now);
      OutputVersionsAreRight(m0, ov', o, pair, trades[1..], n, ApplyMatchExec(now, d.deal).accts);
      PredictedCons(now, d, rest, false);
    }
  }

  /** Dropping the balances from the overlay does not change the versions it shows. */
  lemma OutputExecIsPredict(m0: Accounts, ov: Overlay, o: Order, pair: Pair, t: Trade, n: nat, k: Key)
    ensures var (d, ov') := OutputExec(m0, ov, o, pair, t, n);
            var (p, ov'') := Predict(m0, ov, o, pair, t, n);
            && d == p.(buyerQuoteAfter := 0, buyerBaseAfter := 0, sellerBaseAfter := 0, sellerQuoteAfter := 0)
            && VersionIn(ov', m0, k) == VersionIn(ov'', m0, k)
  {
    hide VersionIn, AvailIn, AddAvail, AsI64, DealOf, AddVersion;
    var c := ChainOf(m0, ov, o, pair, t);
    AddAvailReads(c.ov4, m0, (t.buyer, pair.1), AsI64(Refund(o, t)), k);
    AddAvailReads(c.ov5, m0, (t.buyer, pair.0), AsI64(t.quantity), k);
    AddAvailReads(c.ov6, m0, (t.seller, pair.0), 0, k);
    AddAvailReads(c.ov7, m0, (t.seller, pair.1), AsI64(t.price * t.quantity), k);
  }

  lemma OutputExecVersions(m0: Accounts, ov: Overlay, o: Order, pair: Pair, t: Trade, n: nat, now: Accounts)
    requires TracksVersions(ov, m0, now) && pair.0 != pair.1
    requires ApplyMatchExec(now, DealOf(o, pair, t)).Done?
    ensures var (d, ov') := OutputExec(m0, ov, o, pair, t, n);
            && d.deal == DealOf(o, pair, t) && VersionsRight(now, d)
            && TracksVersions(ov', m0, ApplyMatchExec(now, d.deal).accts)
  {
    hide Predict, OutputExec, VersionIn, Version, ApplyMatchExec, DealOf, VersionsRight;
    PredictVersions(m0, ov, o, pair, t, n, now);
    PredictDeal(m0, ov, o, pair, t, n);
    var (d, ov') := OutputExec(m0, ov, o, pair, t, n);
    var (p, ov'') := Predict(m0, ov, o, pair, t, n);
    OutputExecIsPredict(m0, ov, o, pair, t, n, (0, 0));
    VersionsWithoutBalances(now, p, d);
    forall k: Key ensures VersionIn(ov', m0, k) == Version(ApplyMatchExec(now, d.deal).accts, k) {
      OutputExecIsPredict(m0, ov, o, pair, t, n, k);
    }
  }

  lemma VersionsWithoutBalances(now: Accounts, d: ExecData, d0: ExecData)
    requires VersionsRight(now, d)
    requires d0 == d.(buyerQuoteAfter := 0, buyerBaseAfter := 0, sellerBaseAfter := 0, sellerQuoteAfter := 0)
    ensures VersionsRight(now, d0)
  {
    hide MomentsOf, Version;
  }

  /** For the batch of every bundle: its versions are the ledger's just before each touch. */
  lemma BundleVersionsAreRight(hs: Hashes, e: Engine, q: Request)
    requires Sound(e.x) && LockAmount(q.order) <= U64_MAX
    requires PlaceWithOutput(hs, e, q).Output? && PlaceWithOutput(hs, e, q).accepted
    ensures q.order.symbol in e.x.pairs && q.order.symbol in e.x.books && LockOf(e, q).Done?
    ensures Add(e.x.books[q.order.symbol], q.order, e.x.lastId, q.ts).Added?
    ensures Predicted(LockOf(e, q).accts, BatchOf(e, q, LockOf(e, q).accts), false)
  {
    hide *;
    AcceptedMeans(hs, e, q);
    BooksTradeTwoAssets(e.x, q.order.symbol);
    var m := LockOf(e, q).accts;
    BatchOfMeans(e, q, m);
    NoOverlayTracks(m);
    OutputVersionsAreRight(m, NO_OVERLAY, q.order, e.x.pairs[q.order.symbol],
                           Add(e.x.books[q.order.symbol], q.order, e.x.lastId, q.ts).trades, e.x.outputSeq + 1, m);
  }

  lemma NoOverlayTracks(m: Accounts)
    ensures TracksVersions(NO_OVERLAY, m, m)
  {
  }

  // ----- The report -----

  /** The report of an accepted order's bundle. */
  lemma BundleReportIsConsistent(hs: Hashes, e: Engine, q: Request)
    requires Sound(e.x) && LockAmount(q.order) <= U64_MAX
    requires PlaceWithOutput(hs, e, q).Output? && PlaceWithOutput(hs, e, q).accepted
    ensures var b, o := PlaceWithOutput(hs, e, q).bundle, q.order;
            && o.symbol in e.x.books && b.report.Some?
            && var r := b.report.value;
               && r.filledQty + r.remainingQty == o.quantity
               && r.filledQty ==
                  Min(o.quantity, CrossingDepth(o.side, o.price, Half(e.x.books[o.symbol], Opposite(o.side))))
               && (b.completions == if r.filledQty > 0 && r.remainingQty == 0 then [o.id] else [])
               && (r.filledQty > 0 ==> Crosses(o.side, o.price, r.avgPrice))
  {
    hide *;
    AcceptedMeans(hs, e, q);
    SoundHasBook(e.x, q.order.symbol);
    ReportIsConsistent(e.x.books[q.order.symbol], q.order, e.x.lastId, q.ts);
  }

  // ----- The chain -----

  lemma StepKeepsCounter(x: Exchange, s: Step)
    ensures DoStep(x, s).outputSeq >= x.outputSeq
  {
    hide ApplyTx, Add, Remove, BuildBatch, LockCommand, UnlockCommand;
  }

  /** Every bundle verifies, takes the next number and links to the one before it. */
  lemma OutputLinks(hs: Hashes, e: Engine, q: Request)
    ensures var r := PlaceWithOutput(hs, e, q);
            && (r.Output? ==>
                  && r.bundle.Verify(hs.xxh) && r.bundle.outputSeq == e.x.outputSeq + 1
                  && r.bundle.prevHash == e.lastHash
                  && r.e.x.outputSeq == r.bundle.outputSeq && r.e.lastHash == r.bundle.hash)
            && (r.NoOutput? ==> r.e.x.outputSeq == e.x.outputSeq + 1 && r.e.lastHash == e.lastHash)
  {
    hide ApplyTx, Add, OutputBatch, LockCommand, LockEventOf, ReportOf, EventsOf, TradeOutputs, InputOf, RejectReport,
         FilledQty;
  }

  lemma ProducedFromEarlier(h: HashFn, s: ChainState, t: ChainState, log: seq<Bundle>)
    requires Produced(h, t, log) && s.hash == t.hash && s.seqNo <= t.seqNo
    ensures Produced(h, s, log)
  {
  }

  function HeadState(e: Engine): ChainState {
    ChainState(e.x.outputSeq, e.lastHash)
  }

  /** Whatever an engine does, also with calls that fail and skip a number, its bundles form a
      chain: intact, with strictly increasing numbers, each linked to the bundle before it. */
  lemma {:induction false} PublishedIsProduced(hs: Hashes, e: Engine, actions: seq<Action>)
    ensures Produced(hs.xxh, HeadState(e), Published(hs, e, actions))
    decreases |actions|
  {
    hide PlaceWithOutput, DoStep;
    if actions != [] {
      var e' := Act(hs, e, actions[0]);
      var rest := Published(hs, e', actions[1..]);
      PublishedIsProduced(hs, e', actions[1..]);
      match actions[0]
      case Plain(s) =>
        StepKeepsCounter(e.x, s);
        ProducedFromEarlier(hs.xxh, HeadState(e), HeadState(e'), rest);
        assert [] + rest == rest;
      case Bundled(q) =>
        OutputLinks(hs, e, q);
        match PlaceWithOutput(hs, e, q) {
          case Output(_, b, _) =>
            assert ([b] + rest)[1..] == rest;
          case _ =>
            ProducedFromEarlier(hs.xxh, HeadState(e), HeadState(e'), rest);
            assert [] + rest == rest;
        }
    }
  }

  /** The batches, one after the other, are the bundles of `log` at the positions `d`. */
  ghost predicate Delivers(log: seq<Bundle>, d: seq<nat>, batches: seq<seq<Bundle>>) {
    && |Concat(batches)| == |d|
    && forall i :: 0 <= i < |d| ==> d[i] < |log| && Concat(batches)[i] == log[d[i]]
  }

  /** Exactly once, end to end: for every run of the engine from its start, every in-order delivery
      of its bundles with arbitrary rewinds, and every way of cutting the delivery into batches, the
      consumer accepts precisely the bundles reached, once each and in order. */
  lemma EndToEnd(hs: Hashes, actions: seq<Action>, d: seq<nat>, batches: seq<seq<Bundle>>)
    requires InOrder(d, |Published(hs, EMPTY_ENGINE, actions)|)
    requires Delivers(Published(hs, EMPTY_ENGINE, actions), d, batches)
    ensures Reach(d) <= |Published(hs, EMPTY_ENGINE, actions)|
    ensures AcceptedInBatches(hs.xxh, CHAIN_START, batches) == Published(hs, EMPTY_ENGINE, actions)[..Reach(d)]
  {
    hide Published, Concat, AcceptedInBatches, Produced, InOrder, Reach;
    var log := Published(hs, EMPTY_ENGINE, actions);
    PublishedIsProduced(hs, EMPTY_ENGINE, actions);
    ReachBounds(d, |log|);
    BatchCutsDoNotMatter(hs.xxh, CHAIN_START, batches);
    ExactlyOnce(hs.xxh, CHAIN_START, log, d);
    assert Concat(batches) == Deliver(log, d);
  }

  // ----- Runs stay sound -----

  ghost predicate AdmissibleAction(e: Engine, a: Action) {
    match a
    case Plain(s) => Admissible(e.x, s)
    case Bundled(q) => LockAmount(q.order) <= U64_MAX
  }

  ghost predicate AllActionsAdmissible(hs: Hashes, e: Engine, actions: seq<Action>)
    decreases |actions|
  {
    actions == [] ||
    (AdmissibleAction(e, actions[0]) && AllActionsAdmissible(hs, Act(hs, e, actions[0]), actions[1..]))
  }

  /** The collateral invariant over runs that mix both order paths with everything else. */
  lemma {:induction false} MixedRunsAreSound(hs: Hashes, e: Engine, actions: seq<Action>)
    requires Sound(e.x) && AllActionsAdmissible(hs, e, actions)
    ensures Sound(ActAll(hs, e, actions).x)
    decreases |actions|
  {
    hide Sound, PlaceWithOutput, DoStep, Admissible, LockAmount;
    if actions != [] {
      match actions[0]
      case Plain(s) =>
        StepKeepsSound(e.x, s);
        MixedRunsAreSound(hs, Act(hs, e, actions[0]), actions[1..]);
      case Bundled(q) =>
        OutputIsPlacement(hs, e, q);
        MixedRunsAreSound(hs, Act(hs, e, actions[0]), actions[1..]);
    }
  }
}
