/** Orders at which the signed casts go wrong: reachable states, and what exactly is then wrong. */
module LargeAmounts {
  import opened Numbers
  import opened Balances
  import opened LedgerSpec
  import opened LedgerLaws
  import opened BookSpec
  import opened BookInvariant
  import opened ExchangeSpec
  import opened Collateral
  import opened Exchanges
  import opened Predictions
  import opened BundleSpec
  import opened BundleLaws
  import opened BundleTheorems

  const HUGE: nat := 0x8000_0000_0000_0001
  const PAIR: Pair := (1, 2)

  /** User 1 offers one unit of asset 1 for 2^63 + 1 of asset 2; user 2 takes it. */
  const MAKER: Order := Order(11, 1, 0, Sell, Limit, HUGE, 1, 0)
  const TAKER: Order := Order(12, 2, 0, Buy, Limit, HUGE, 1, 0)

  const FUNDED: seq<Step> := [RegisterStep(0, PAIR), DepositStep(2, 2, HUGE), DepositStep(1, 1, 1)]

  const FUNDED_ACCOUNTS: Accounts := map[2 := map[2 := Bal(HUGE, 0, 1)], 1 := map[1 := Bal(1, 0, 1)]]

  lemma RunStepsFirst(x: Exchange, s: Step, rest: seq<Step>)
    ensures DoSteps(x, [s] + rest) == DoSteps(DoStep(x, s), rest)
    ensures AllAdmissible(x, [s] + rest) <==> Admissible(x, s) && AllAdmissible(DoStep(x, s), rest)
  {
    hide DoStep, Admissible;
    assert ([s] + rest)[0] == s && ([s] + rest)[1..] == rest;
  }

  lemma NoSteps(x: Exchange)
    ensures DoSteps(x, []) == x && AllAdmissible(x, [])
  {
  }

  lemma DepositTo(x: Exchange, u: UserId, a: AssetId, n: nat)
    requires u !in x.accts && n <= U64_MAX
    ensures DoStep(x, DepositStep(u, a, n)) == x.(accts := x.accts[u := map[a := Bal(n, 0, 1)]])
    ensures Supply(DoStep(x, DepositStep(u, a, n)).accts, a) == Supply(x.accts, a) + n
  {
    hide Supply;
    var t := Touch(u, a, BalOp.Deposit(n));
    assert TouchAccount(AccountOf(x.accts, u), a, t.op) == map[a := Bal(n, 0, 1)];
    SupplyOfTouch(x.accts, t, a);
  }

  /** The three steps one by one. */
  lemma FundingSteps()
    ensures var x0 := EMPTY_EXCHANGE;
            var x1 := DoStep(x0, RegisterStep(0, PAIR));
            var x2 := DoStep(x1, DepositStep(2, 2, HUGE));
            var x3 := DoStep(x2, DepositStep(1, 1, 1));
            && Admissible(x0, RegisterStep(0, PAIR)) && Admissible(x1, DepositStep(2, 2, HUGE))
            && Admissible(x2, DepositStep(1, 1, 1))
            && x3 == Exchange(FUNDED_ACCOUNTS, map[0 := EMPTY_BOOK], map[0 := PAIR], 0, 0)
  {
    hide Supply, ApplyTx;
    var x1 := DoStep(EMPTY_EXCHANGE, RegisterStep(0, PAIR));
    NoSupply();
    DepositTo(x1, 2, 2, HUGE);
    DepositTo(DoStep(x1, DepositStep(2, 2, HUGE)), 1, 1, 1);
    SupplyOfUpdate(x1.accts, 2, map[2 := Bal(HUGE, 0, 1)], 1);
  }

  lemma FundedState()
    ensures AllAdmissible(EMPTY_EXCHANGE, FUNDED)
    ensures DoSteps(EMPTY_EXCHANGE, FUNDED) ==
            Exchange(FUNDED_ACCOUNTS, map[0 := EMPTY_BOOK], map[0 := PAIR], 0, 0)
    ensures Sound(DoSteps(EMPTY_EXCHANGE, FUNDED))
  {
    hide Sound, AllAdmissible, DoSteps, DoStep, Admissible, FUNDED_ACCOUNTS, EMPTY_BOOK;
    FundingSteps();
    var s1, s2, s3 := RegisterStep(0, PAIR), DepositStep(2, 2, HUGE), DepositStep(1, 1, 1);
    var x1 := DoStep(EMPTY_EXCHANGE, s1);
    assert FUNDED == [s1] + ([s2] + ([s3] + []));
    RunStepsFirst(EMPTY_EXCHANGE, s1, [s2] + ([s3] + []));
    RunStepsFirst(x1, s2, [s3] + []);
    RunStepsFirst(DoStep(x1, s2), s3, []);
    NoSteps(DoStep(DoStep(x1, s2), s3));
    EveryRunIsCollateralised(FUNDED);
  }

  lemma NoSupply()
    ensures forall a :: Supply(map[], a) == 0
  {
  }

  /** The balance of user 2 in asset 2 covers an order worth 2^63 + 1. */
  lemma FundedBalance()
    ensures LockAmount(TAKER) == HUGE <= U64_MAX && LockAsset(PAIR, Buy) == 2
    ensures Get(FUNDED_ACCOUNTS, 2, 2).avail == HUGE && Get(FUNDED_ACCOUNTS, 1, 1).avail == 1
  {
  }

  // ----- A resting order -----

  /** An accepted order that meets nothing leaves the locked accounts and its book with it queued. */
  lemma RestingPlacement(x: Exchange, o: Order, ts: nat)
    requires Sound(x) && LockAmount(o) <= U64_MAX && Place(x, o, ts).Placed?
    requires o.quantity > 0 && o.symbol in x.books && MatchIn(x.books[o.symbol], o).fills == []
    ensures o.symbol in x.pairs
    ensures var t := Touch(o.user, LockAsset(x.pairs[o.symbol], o.side), BalOp.Lock(LockAmount(o)));
            DoTouch(x.accts, t) == Done(Place(x, o, ts).x.accts)
    ensures Add(x.books[o.symbol], o, x.lastId, ts).Added? && Add(x.books[o.symbol], o, x.lastId, ts).trades == []
    ensures Place(x, o, ts).x == x.(accts := Place(x, o, ts).x.accts, lastId := Place(x, o, ts).x.lastId,
                                    books := x.books[o.symbol := Add(x.books[o.symbol], o, x.lastId, ts).book])
  {
    hide Sound, DoTouch, LockAmount, Get, Match, BuildBatch, WellFormed, Place, Add, SettleTrades;
    SoundParts(x);
    PlaceKeepsSound(x, o, ts);
    var pair := x.pairs[o.symbol];
    LockOutcome(x.accts, o.user, LockAsset(pair, o.side), LockAmount(o));
    PlaceBranches(x, o, ts);
    var locked := DoTouch(x.accts, Touch(o.user, LockAsset(pair, o.side), BalOp.Lock(LockAmount(o))));
    RestedBook(x.books[o.symbol], o, x.lastId, ts);
    var a := Add(x.books[o.symbol], o, x.lastId, ts);
    SettleTradesMeans(x, o, pair, locked.accts, a.book, a.trades, a.lastId);
    NoBatch(locked.accts, o, pair, x.outputSeq);
  }

  lemma NoBatch(m: Accounts, o: Order, pair: Pair, n: nat)
    ensures BuildBatch(m, NO_OVERLAY, o, pair, [], n) == [] && ApplyExecs(m, []) == Done(m)
    ensures OutputBatch(m, NO_OVERLAY, o, pair, [], n) == []
  {
  }

  const MATCHABLE: seq<Step> := FUNDED + [PlaceStep(MAKER, 0)]

  lemma {:induction false} RunAppend(x: Exchange, steps: seq<Step>, s: Step)
    requires AllAdmissible(x, steps) && Admissible(DoSteps(x, steps), s)
    ensures AllAdmissible(x, steps + [s]) && DoSteps(x, steps + [s]) == DoStep(DoSteps(x, steps), s)
    decreases |steps|
  {
    hide DoStep, Admissible;
    if steps == [] {
      RunStepsFirst(x, s, []);
      NoSteps(x);
      NoSteps(DoStep(x, s));
      assert [s] + [] == [s] && [] + [s] == [s];
    } else {
      assert (steps + [s])[0] == steps[0] && (steps + [s])[1..] == steps[1..] + [s];
      RunAppend(DoStep(x, steps[0]), steps[1..], s);
    }
  }

  lemma MatchableState()
    ensures AllAdmissible(EMPTY_EXCHANGE, MATCHABLE)
    ensures var x := DoSteps(EMPTY_EXCHANGE, MATCHABLE);
            && Sound(x) && x.pairs == map[0 := PAIR] && 0 in x.books
            && x.books[0].asks == [MAKER] && x.books[0].active == {11}
            && Get(x.accts, 2, 2).avail == HUGE
  {
    hide *;
    MatchableIs();
    FundedState();
    FundedBalance();
    MakerRests();
    var x := DoSteps(EMPTY_EXCHANGE, FUNDED);
    RunAppend(EMPTY_EXCHANGE, FUNDED, PlaceStep(MAKER, 0));
    EveryRunIsCollateralised(MATCHABLE);
  }

  lemma MatchableIs()
    ensures MATCHABLE == FUNDED + [PlaceStep(MAKER, 0)]
  {
  }

  lemma MakerRests()
    ensures var x := Exchange(FUNDED_ACCOUNTS, map[0 := EMPTY_BOOK], map[0 := PAIR], 0, 0);
            && Admissible(x, PlaceStep(MAKER, 0))
            && (Sound(x) ==>
                  var y := DoStep(x, PlaceStep(MAKER, 0));
                  && y.pairs == x.pairs && 0 in y.books
                  && y.books[0].asks == [MAKER] && y.books[0].active == {11}
                  && Get(y.accts, 2, 2) == Get(x.accts, 2, 2))
  {
    var x := Exchange(FUNDED_ACCOUNTS, map[0 := EMPTY_BOOK], map[0 := PAIR], 0, 0);
    MakerInEmptyBook();
    FundedBalance();
    if Sound(x) {
      hide Sound, Place, Add, MatchIn, Get, FUNDED_ACCOUNTS;
      PlaceKeepsSound(x, MAKER, 0);
      RestingPlacement(x, MAKER, 0);
      StepOfPlace(x, MAKER, 0);
      TouchReads(x.accts, Touch(1, 1, BalOp.Lock(1)));
    }
  }

  lemma MakerInEmptyBook()
    ensures MatchIn(EMPTY_BOOK, MAKER).fills == []
    ensures var r := Add(EMPTY_BOOK, MAKER, 0, 0);
            r.Added? && r.book.asks == [MAKER] && r.book.active == {11}
  {
    RestedBook(EMPTY_BOOK, MAKER, 0, 0);
  }

  // ----- A misprediction -----

  /** A reachable state and an accepted order whose batch mispredicts a balance: its versions are right,
      its balances are not, because one trade is worth 2^63 + 1. */
  lemma LargeTradeIsMispredicted() returns (steps: seq<Step>, o: Order)
    ensures AllAdmissible(EMPTY_EXCHANGE, steps) && LockAmount(o) <= U64_MAX
    ensures var x := DoSteps(EMPTY_EXCHANGE, steps);
            && Place(x, o, 0).Placed? && o.symbol in x.pairs
            && var locked := ApplyTx(x.accts, LockCommand(x.accts, x.pairs[o.symbol], o));
               && locked.Done?
               && Predicted(locked.accts, Place(x, o, 0).batch, false)
               && !Predicted(locked.accts, Place(x, o, 0).batch, true)
  {
    hide Sound, DoSteps, AllAdmissible, Place, Predicted, Get, ApplyTx, LockCommand, LockAmount;
    steps, o := MATCHABLE, TAKER;
    MatchableState();
    FundedBalance();
    TwoIsTheTaker();
    TakerIsMispredicted(DoSteps(EMPTY_EXCHANGE, steps));
  }

  lemma TakerIsMispredicted(x: Exchange)
    requires Sound(x) && x.pairs == map[0 := PAIR] && 0 in x.books
    requires x.books[0].asks == [MAKER] && x.books[0].active == {11} && Get(x.accts, 2, 2).avail == HUGE
    ensures Place(x, TAKER, 0).Placed? && TAKER.symbol in x.pairs
    ensures var locked := ApplyTx(x.accts, LockCommand(x.accts, x.pairs[TAKER.symbol], TAKER));
            && locked.Done?
            && Predicted(locked.accts, Place(x, TAKER, 0).batch, false)
            && !Predicted(locked.accts, Place(x, TAKER, 0).batch, true)
  {
    hide Sound, Place, Add, LockCommand, ApplyTx, Predicted, Get, LockAmount, CastableTrades;
    FundedBalance();
    PlaceKeepsSound(x, TAKER, 0);
    PlacedBatchPredictsTheLedger(x, TAKER, 0);
    TakerTradesHuge(x.books[0], x.lastId);
  }

  lemma TakerTradesHuge(b: Book, lastId: nat)
    requires b.asks == [MAKER] && 12 !in b.active
    ensures Add(b, TAKER, lastId, 0).Added? && !CastableTrades(TAKER, PAIR, Add(b, TAKER, lastId, 0).trades)
  {
    var r := MatchIn(b, TAKER);
    assert r.fills == [Fill(MAKER, 1)] + Match(Buy, HUGE, 0, [MAKER][1..]).fills;
    var t := Add(b, TAKER, lastId, 0).trades[0];
    assert t.price == HUGE && t.quantity == 1;
    assert DealOf(TAKER, PAIR, t).Cost() == HUGE;
  }

  // ----- Wrong bundles -----

  /** The bundle of an order that is alone in its book: only the lock. */
  lemma LoneOrder(hs: Hashes, e: Engine, q: Request)
    requires Sound(e.x) && e.x.pairs == map[0 := PAIR] && e.x.books == map[0 := EMPTY_BOOK]
    requires q.order.symbol == 0 && q.order.side == Buy && q.order.quantity > 0 && LockAmount(q.order) <= U64_MAX
    requires Get(e.x.accts, q.order.user, 2).avail >= LockAmount(q.order)
    ensures var r, u := PlaceWithOutput(hs, e, q), q.order.user;
            && r.Output? && r.accepted
            && Get(r.e.x.accts, u, 2).avail == Get(e.x.accts, u, 2).avail - LockAmount(q.order)
            && AvailDelta(r.bundle.events, u, 2) == TWO_64 * WrapsDown(LockAmount(q.order)) - LockAmount(q.order)
            && AssetDelta(r.bundle.events, 2) == TWO_64 * (WrapsDown(LockAmount(q.order)) - Wraps(LockAmount(q.order)))
  {
    hide *;
    AloneInItsBook(e.x.lastId, q);
    PlaceKeepsSound(e.x, q.order, q.ts);
    OutputIsPlacement(hs, e, q);
    BundleTellsTheTruth(hs, e, q, q.order.user, 2);
    EveryBundleIsZeroSum(hs, e, q, 2);
    WrapsOfBundle(e, q, 2);
    AcceptedMeans(hs, e, q);
    OnlyTheLock(e, q);
  }

  lemma AloneInItsBook(lastId: nat, q: Request)
    requires q.order.side == Buy && q.order.quantity > 0
    ensures q.order.id !in EMPTY_BOOK.active && LockAsset(PAIR, Buy) == 2
    ensures Add(EMPTY_BOOK, q.order, lastId, q.ts).Added? && Add(EMPTY_BOOK, q.order, lastId, q.ts).trades == []
  {
    RestedBook(EMPTY_BOOK, q.order, lastId, q.ts);
  }

  lemma OnlyTheLock(e: Engine, q: Request)
    requires e.x.pairs == map[0 := PAIR] && e.x.books == map[0 := EMPTY_BOOK]
    requires q.order.symbol == 0 && q.order.side == Buy && LockOf(e, q).Done?
    requires Add(EMPTY_BOOK, q.order, e.x.lastId, q.ts).Added?
    requires Add(EMPTY_BOOK, q.order, e.x.lastId, q.ts).trades == []
    ensures BatchOf(e, q, LockOf(e, q).accts) == []
    ensures CreditWrapsIn([], q.order.user, 2) == 0 && TradeWrapsIn([], 2) == 0
    ensures LockDebitWraps(PAIR, q.order, q.order.user, 2) == WrapsDown(LockAmount(q.order))
    ensures LockWraps(PAIR, q.order, 2) == WrapsDown(LockAmount(q.order)) - Wraps(LockAmount(q.order))
    ensures ApplyExecs(LockOf(e, q).accts, []) == Done(LockOf(e, q).accts)
    ensures Get(LockOf(e, q).accts, q.order.user, 2).avail ==
            Get(e.x.accts, q.order.user, 2).avail - LockAmount(q.order)
  {
    hide Add, Wraps, WrapsDown, LockAmount, DoTouch;
    NoBatch(LockOf(e, q).accts, q.order, PAIR, e.x.outputSeq + 1);
    var t := Touch(q.order.user, 2, BalOp.Lock(LockAmount(q.order)));
    TouchReads(e.x.accts, t);
    TouchSucceeded(e.x.accts, t);
  }

  const FUNDING: seq<Action> := [Plain(FUNDED[0]), Plain(FUNDED[1]), Plain(FUNDED[2])]

  lemma LockOfOne(o: Order)
    requires o.side == Buy && o.quantity == 1
    ensures LockAmount(o) == o.price
  {
  }

  /** An order of user 2 for one unit, against the funded engine. */
  lemma FundedOrder(hs: Hashes, price: nat) returns (actions: seq<Action>, q: Request)
    requires price <= HUGE
    ensures AllActionsAdmissible(hs, EMPTY_ENGINE, actions) && LockAmount(q.order) == price && q.order.user == 2
    ensures var e := ActAll(hs, EMPTY_ENGINE, actions);
            var r := PlaceWithOutput(hs, e, q);
            && r.Output? && r.accepted
            && Get(r.e.x.accts, 2, 2).avail == Get(e.x.accts, 2, 2).avail - price
            && AvailDelta(r.bundle.events, 2, 2) == TWO_64 * WrapsDown(price) - price
            && AssetDelta(r.bundle.events, 2) == TWO_64 * (WrapsDown(price) - Wraps(price))
  {
    hide *;
    actions, q := FUNDING, Request(Order(12, 2, 0, Buy, Limit, price, 1, 0), "", 0, 0);
    LockOfOne(q.order);
    FundedState();
    FundedBalance();
    TwoIsTheTaker();
    FundedEngine(hs);
    LoneOrder(hs, ActAll(hs, EMPTY_ENGINE, actions), q);
  }

  /** A reachable engine state and an accepted order whose bundle lies about the user's available
      balance, with no trade at all: the lock is worth 2^63 + 1, and its debit wraps around to a credit. */
  lemma LargeLockMakesTheBundleLie(hs: Hashes) returns (actions: seq<Action>, q: Request)
    ensures AllActionsAdmissible(hs, EMPTY_ENGINE, actions) && LockAmount(q.order) <= U64_MAX
    ensures var e := ActAll(hs, EMPTY_ENGINE, actions);
            var r := PlaceWithOutput(hs, e, q);
            && r.Output? && r.accepted
            && Get(r.e.x.accts, 2, 2).avail < Get(e.x.accts, 2, 2).avail
            && AvailDelta(r.bundle.events, 2, 2) > 0
  {
    hide ActAll, AllActionsAdmissible, PlaceWithOutput, LockAmount, Get, AvailDelta, AssetDelta, Wraps, WrapsDown,
         AsI64;
    actions, q := FundedOrder(hs, HUGE);
    WrapsOfWord(HUGE);
  }

  /** And one whose bundle is not zero-sum: a lock of exactly 2^63 is stored twice as -2^63. */
  lemma HalfWordLockIsNotZeroSum(hs: Hashes) returns (actions: seq<Action>, q: Request)
    ensures AllActionsAdmissible(hs, EMPTY_ENGINE, actions) && LockAmount(q.order) <= U64_MAX
    ensures var r := PlaceWithOutput(hs, ActAll(hs, EMPTY_ENGINE, actions), q);
            r.Output? && r.accepted && AssetDelta(r.bundle.events, 2) == -(TWO_64 as int)
  {
    hide ActAll, AllActionsAdmissible, PlaceWithOutput, LockAmount, Get, AvailDelta, AssetDelta, Wraps, WrapsDown,
         AsI64;
    actions, q := FundedOrder(hs, HUGE - 1);
    WrapsOfWord(HUGE - 1);
  }

  lemma TwoIsTheTaker()
    ensures LockAmount(TAKER) == HUGE <= U64_MAX
    ensures TAKER.user == 2 && TAKER.side == Buy && TAKER.symbol == 0 && TAKER.id == 12
    ensures EMPTY_BOOK.active == {}
  {
  }

  lemma FundedEngine(hs: Hashes)
    requires AllAdmissible(EMPTY_EXCHANGE, FUNDED)
    ensures AllActionsAdmissible(hs, EMPTY_ENGINE, FUNDING)
    ensures ActAll(hs, EMPTY_ENGINE, FUNDING).x == DoSteps(EMPTY_EXCHANGE, FUNDED)
  {
    hide DoStep, Admissible;
    var s1, s2, s3 := FUNDED[0], FUNDED[1], FUNDED[2];
    assert FUNDED == [s1] + ([s2] + ([s3] + []));
    var x1 := DoStep(EMPTY_EXCHANGE, s1);
    RunStepsFirst(EMPTY_EXCHANGE, s1, [s2] + ([s3] + []));
    RunStepsFirst(x1, s2, [s3] + []);
    RunStepsFirst(DoStep(x1, s2), s3, []);
    hide DoSteps, AllAdmissible;
    PlainFirst(hs, EMPTY_ENGINE, s1, [Plain(s2)] + ([Plain(s3)] + []));
    PlainFirst(hs, EMPTY_ENGINE.(x := x1), s2, [Plain(s3)] + []);
    PlainFirst(hs, EMPTY_ENGINE.(x := DoStep(x1, s2)), s3, []);
    assert [Plain(s1), Plain(s2), Plain(s3)] == [Plain(s1)] + ([Plain(s2)] + ([Plain(s3)] + []));
  }

  lemma PlainFirst(hs: Hashes, e: Engine, s: Step, rest: seq<Action>)
    ensures ActAll(hs, e, [Plain(s)] + rest) == ActAll(hs, e.(x := DoStep(e.x, s)), rest)
    ensures AllActionsAdmissible(hs, e, [Plain(s)] + rest) <==>
            Admissible(e.x, s) && AllActionsAdmissible(hs, e.(x := DoStep(e.x, s)), rest)
    ensures ActAll(hs, e, []) == e && AllActionsAdmissible(hs, e, [])
  {
    hide DoStep, Admissible;
    assert ([Plain(s)] + rest)[0] == Plain(s) && ([Plain(s)] + rest)[1..] == rest;
  }
}
