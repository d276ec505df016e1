/** Replaying the log of any run of the exchange, declined orders included, gives every user's balance
    in every asset. Only entries that a refused lock created, all zero, may be missing. */
module ReplayedRuns {
  import opened Numbers
  import opened Options
  import opened Balances
  import opened LedgerSpec
  import opened LedgerLaws
  import opened MirroredAccounts
  import opened BookSpec
  import opened BookInvariant
  import opened ExchangeSpec
  import opened Collateral
  import opened Exchanges
  import opened Predictions
  import opened BundleSpec
  import opened BundleTheorems
  import opened RecordedCommands
  import opened WalSpec
  import opened Recovery

  /** A state over mirrored accounts: what the replay of the log has reached. */
  ghost predicate Replays(x: Exchange, y: Accounts) {
    Sound(x) && Sound(x.(accts := y)) && Mirrors(y, x.accts)
  }

  /** From `m`, the commands after the first `k` of a history lead to a replay of `x`. */
  ghost predicate ReplaysFrom(x: Exchange, history: seq<Cmd>, k: nat, m: Accounts) {
    k <= |history| && ApplyAll(m, history[k..]).Done? && Replays(x, ApplyAll(m, history[k..]).accts)
  }

  lemma MirroredAdmissible(x: Exchange, y: Accounts, s: Step)
    requires Mirrors(y, x.accts) && Admissible(x, s)
    ensures Admissible(x.(accts := y), s)
  {
    hide Mirrors, Supply, LockAmount;
    if s.DepositStep? {
      MirroredSupply(y, x.accts, s.asset);
    }
  }

  // ----- Transfers -----

  lemma TransferIsMirrored(x: Exchange, y: Accounts, c: Cmd) returns (y': Accounts)
    requires Mirrors(y, x.accts) && (c.Deposit? || c.Withdraw?)
    ensures ApplyAll(y, TransferCommands(x, c)) == Done(y') && Mirrors(y', Transfer(x, c).accts)
    ensures Transfer(x.(accts := y), c) == Transfer(x, c).(accts := y')
  {
    hide Mirrors, ApplyAll, DoTouch;
    var t := Touch(c.user, c.asset, TransferOp(c));
    MirrorTouch(y, x.accts, t);
    OnlyCommand(y, c);
    y' := if DoTouch(y, t).Done? then DoTouch(y, t).accts else y;
  }

  // ----- Placing -----

  /** Orders decide by balances, so both states accept the same ones. */
  lemma SamePlacing(x: Exchange, y: Accounts, o: Order, ts: nat)
    requires Replays(x, y) && LockAmount(o) <= U64_MAX
    ensures Place(x.(accts := y), o, ts).Placed? == Place(x, o, ts).Placed?
  {
    hide Sound, Place, LockAmount, Get, Has;
    PlaceKeepsSound(x, o, ts);
    PlaceKeepsSound(x.(accts := y), o, ts);
    SoundParts(x);
  }

  lemma LockOfAnySnapshot(m: Accounts, x: Exchange, o: Order)
    requires o.symbol in x.pairs
    ensures ApplyTx(m, LockCommand(x.accts, x.pairs[o.symbol], o)) ==
            DoTouch(m, Touch(o.user, LockAsset(x.pairs[o.symbol], o.side), BalOp.Lock(LockAmount(o))))
  {
    hide DoTouch, LockAmount, Get;
  }

  /** What an accepted order's state is made of. */
  lemma PlacedParts(x: Exchange, o: Order, ts: nat)
    requires Sound(x) && LockAmount(o) <= U64_MAX && Place(x, o, ts).Placed?
    ensures o.symbol in x.pairs && o.symbol in x.books
    ensures var pair, b, p := x.pairs[o.symbol], x.books[o.symbol], Place(x, o, ts);
            var a := Add(b, o, x.lastId, ts);
            var lock := DoTouch(x.accts, Touch(o.user, LockAsset(pair, o.side), BalOp.Lock(LockAmount(o))));
            && lock.Done? && a.Added?
            && p.batch == BuildBatch(lock.accts, NO_OVERLAY, o, pair, a.trades, x.outputSeq)
            && ApplyExecs(lock.accts, p.batch) == Done(p.x.accts)
            && p.x == x.(accts := p.x.accts, books := x.books[o.symbol := a.book], lastId := a.lastId,
                         outputSeq := x.outputSeq + |a.trades|)
            && a.trades == TradesOf(o, MatchIn(b, o).fills, b.matchSeq, x.lastId, ts)
  {
    hide Sound, DoTouch, LockAmount, BuildBatch, ApplyExecs, AfterMatch, TradesOf, MatchIn, LastIdAfter, Get;
    SoundParts(x);
    PlaceKeepsSound(x, o, ts);
    var pair := x.pairs[o.symbol];
    LockOutcome(x.accts, o.user, LockAsset(pair, o.side), LockAmount(o));
    PlaceBranches(x, o, ts);
  }

  lemma PlacedIsMirrored(x: Exchange, y: Accounts, o: Order, ts: nat) returns (y': Accounts)
    requires Replays(x, y) && LockAmount(o) <= U64_MAX && Place(x, o, ts).Placed?
    ensures ApplyAll(y, PlaceCommands(x, o, Place(x, o, ts))) == Done(y')
    ensures Mirrors(y', Place(x, o, ts).x.accts) && Sound(Place(x, o, ts).x.(accts := y'))
  {
    hide Sound, Mirrors, Place, DoTouch, LockAmount, BuildBatch, ApplyExecs, ApplyFills, ApplyAll, Get, Has,
         PlacedCommands,
         TradesOf, MatchIn, Add, LockCommand;
    var z := x.(accts := y);
    SamePlacing(x, y, o, ts);
    PlacedParts(x, o, ts);
    PlacedParts(z, o, ts);
    var pair, b := x.pairs[o.symbol], x.books[o.symbol];
    var t := Touch(o.user, LockAsset(pair, o.side), BalOp.Lock(LockAmount(o)));
    MirrorTouch(y, x.accts, t);
    var my, mx := DoTouch(y, t).accts, DoTouch(x.accts, t).accts;
    var batch, fills := Place(x, o, ts).batch, MatchIn(b, o).fills;
    BatchIsFills(my, mx, NO_OVERLAY, o, pair, fills, b.matchSeq, x.lastId, ts, x.outputSeq);
    BatchIsFills(my, my, NO_OVERLAY, o, pair, fills, b.matchSeq, x.lastId, ts, x.outputSeq);
    y' := Place(z, o, ts).x.accts;
    MirrorExecs(my, mx, batch);
    LockOfAnySnapshot(y, x, o);
    PlacedCommandsRun(x, o, batch, y);
    BatchIsExecs(my, batch);
    PlaceKeepsSound(z, o, ts);
    StepOfPlace(z, o, ts);
    assert Place(z, o, ts).x == Place(x, o, ts).x.(accts := y');
  }

  lemma BatchIsExecs(m: Accounts, batch: seq<ExecData>)
    ensures ApplyTx(m, MatchExecBatch(batch)) == ApplyExecs(m, batch)
  {
    hide ApplyExecs;
  }

  lemma DeclinedIsMirrored(x: Exchange, y: Accounts, o: Order, ts: nat)
    requires Replays(x, y) && LockAmount(o) <= U64_MAX && Place(x, o, ts).NotAccepted?
    ensures ApplyAll(y, PlaceCommands(x, o, Place(x, o, ts))) == Done(y)
    ensures Mirrors(y, Place(x, o, ts).x.accts) && Sound(Place(x, o, ts).x.(accts := y))
  {
    hide Sound, Place, DoTouch, LockAmount, ApplyAll, Get, Has, LockCommand, DeclinedCommands, Add, SettleTrades;
    SoundParts(x);
    DeclinedCommandsRun(x, o, y);
    if o.symbol in x.pairs {
      var asset := LockAsset(x.pairs[o.symbol], o.side);
      LockOutcome(x.accts, o.user, asset, LockAmount(o));
      LockOfAnySnapshot(x.accts, x, o);
      PlaceBranches(x, o, ts);
      SettlingIsNotDeclining(x, o, ts);
    } else {
      PlaceUnregistered(x, o, ts);
    }
  }

  lemma SettlingIsNotDeclining(x: Exchange, o: Order, ts: nat)
    ensures forall pair, a, b, trades, lastId :: !SettleTrades(x, o, pair, a, b, trades, lastId).NotAccepted?
  {
    hide ApplyTx, BuildBatch;
  }

  // ----- Cancelling -----

  lemma CancelIsMirrored(x: Exchange, y: Accounts, symbol: SymbolId, id: nat) returns (y': Accounts)
    requires Replays(x, y)
    ensures ApplyAll(y, CancelCommands(x, symbol, id)) == Done(y')
    ensures Mirrors(y', Cancel(x, symbol, id).x.accts) && Sound(Cancel(x, symbol, id).x.(accts := y'))
  {
    hide Sound, Mirrors, Cancel, ApplyAll, Get, Has, Remove, RestsIn, DoTouch, LockAmount;
    var z := x.(accts := y);
    SoundParts(x);
    SoundParts(z);
    CancelKeepsSound(x, symbol, id);
    CancelKeepsSound(z, symbol, id);
    CancelBranches(x, symbol, id);
    CancelBranches(z, symbol, id);
    NothingToRun(y);
    y' := Cancel(z, symbol, id).x.accts;
    if symbol in x.books && Remove(x.books[symbol], id).order.Some? {
      var o := Remove(x.books[symbol], id).order.value;
      UnlockSucceeds(x, symbol, id, o);
      UnlockSucceeds(z, symbol, id, o);
      var t := Touch(o.user, LockAsset(x.pairs[symbol], o.side), BalOp.Unlock(LockAmount(o)));
      MirrorTouch(y, x.accts, t);
      UnlockThenReport(x, symbol, o, x.accts);
      UnlockThenReport(x, symbol, o, y);
    }
  }

  lemma NothingToRun(m: Accounts)
    ensures ApplyAll(m, []) == Done(m)
  {
  }

  lemma UnlockThenReport(x: Exchange, symbol: SymbolId, o: Order, m: Accounts)
    requires symbol in x.pairs
    ensures ApplyAll(m, [UnlockCommand(x.pairs[symbol], o), UpdateOf(o, OrderState.Cancelled)]) ==
            DoTouch(m, Touch(o.user, LockAsset(x.pairs[symbol], o.side), BalOp.Unlock(LockAmount(o))))
  {
    hide DoTouch, LockAmount, ApplyAll;
    ThenReport(m, UnlockCommand(x.pairs[symbol], o), UpdateOf(o, OrderState.Cancelled));
  }

  // ----- Runs -----

  /** Every step keeps the replay of its commands mirrored. */
  lemma StepIsReplayed(x: Exchange, y: Accounts, s: Step) returns (y': Accounts)
    requires Replays(x, y) && Admissible(x, s)
    ensures ApplyAll(y, CommandsOf(x, s)) == Done(y') && Replays(DoStep(x, s), y')
  {
    hide Sound, Mirrors, ApplyAll, Place, Cancel, Transfer, Admissible, LockAmount, PlaceCommands, CancelCommands,
         TransferCommands;
    StepKeepsSound(x, s);
    var z := x.(accts := y);
    MirroredAdmissible(x, y, s);
    StepKeepsSound(z, s);
    NothingToRun(y);
    match s
    case DepositStep(u, a, n) => y' := TransferIsMirrored(x, y, Cmd.Deposit(u, a, n, 0, 0));
    case WithdrawStep(u, a, n) => y' := TransferIsMirrored(x, y, Cmd.Withdraw(u, a, n, 0, 0));
    case RegisterStep(symbol, pair) => y' := y;
    case PlaceStep(o, ts) =>
      AdmissibleOrder(x, o, ts);
      if Place(x, o, ts).Placed? {
        y' := PlacedIsMirrored(x, y, o, ts);
      } else if Place(x, o, ts).NotAccepted? {
        y' := y;
        DeclinedIsMirrored(x, y, o, ts);
      } else {
        y' := y;
        NothingRecorded(x, o, Place(x, o, ts));
      }
    case CancelStep(symbol, id) => y' := CancelIsMirrored(x, y, symbol, id);
  }

  lemma AdmissibleOrder(x: Exchange, o: Order, ts: nat)
    requires Admissible(x, PlaceStep(o, ts))
    ensures LockAmount(o) <= U64_MAX
  {
  }

  lemma NothingRecorded(x: Exchange, o: Order, p: PlaceResult)
    requires !p.Placed? && !p.NotAccepted?
    ensures PlaceCommands(x, o, p) == []
  {
  }

  /** Two batches of the same deals: an order's commands do the same with either. */
  lemma SameBatchSameRun(x: Exchange, o: Order, batch: seq<ExecData>, other: seq<ExecData>, y: Accounts)
    requires o.symbol in x.pairs && ApplyAll(y, PlacedCommands(x, o, batch)).Done?
    requires forall m :: ApplyExecs(m, batch) == ApplyExecs(m, other)
    ensures ApplyAll(y, PlacedCommands(x, o, other)) == ApplyAll(y, PlacedCommands(x, o, batch))
  {
    hide ApplyExecs, LockCommand, DoTouch, PlacedCommands;
    var lock := LockCommand(x.accts, x.pairs[o.symbol], o);
    LockComesFirst(x, o, batch, y);
    PlacedCommandsRun(x, o, batch, y);
    PlacedCommandsRun(x, o, other, y);
    BatchIsExecs(ApplyTx(y, lock).accts, batch);
    BatchIsExecs(ApplyTx(y, lock).accts, other);
  }

  lemma LockComesFirst(x: Exchange, o: Order, batch: seq<ExecData>, y: Accounts)
    requires o.symbol in x.pairs && ApplyAll(y, PlacedCommands(x, o, batch)).Done?
    ensures ApplyTx(y, LockCommand(x.accts, x.pairs[o.symbol], o)).Done?
  {
    hide ApplyTx, LockCommand;
  }

  /** What an order of the bundle path leaves does to any accounts what the plain path's commands do. */
  lemma OutputIsRecordedAlike(hs: Hashes, e: Engine, q: Request, y: Accounts)
    requires Sound(e.x) && LockAmount(q.order) <= U64_MAX
    requires ApplyAll(y, PlaceCommands(e.x, q.order, Place(e.x, q.order, q.ts))).Done?
    ensures ApplyAll(y, OutputCommands(hs, e, q)) == ApplyAll(y, PlaceCommands(e.x, q.order, Place(e.x, q.order, q.ts)))
  {
    hide Sound, Place, PlaceWithOutput, LockAmount, Add, OutputBatch, BuildBatch, ApplyAll, ApplyTx, LockCommand,
         DoTouch,
         ApplyExecs, PlacedCommands, DeclinedCommands;
    var x, o := e.x, q.order;
    OutputIsPlacement(hs, e, q);
    if Place(x, o, q.ts).Placed? {
      PlacedMeans(x, o, q.ts);
      var locked := ApplyTx(x.accts, LockCommand(x.accts, x.pairs[o.symbol], o)).accts;
      var trades := Add(x.books[o.symbol], o, x.lastId, q.ts).trades;
      var batch, other := Place(x, o, q.ts).batch, OutputBatchOf(e, q);
      forall m ensures ApplyExecs(m, batch) == ApplyExecs(m, other) {
        SameDeals(m, locked, NO_OVERLAY, locked, NO_OVERLAY, o, x.pairs[o.symbol], trades,
                  x.outputSeq + 1, x.outputSeq);
      }
      SameBatchSameRun(x, o, batch, other, y);
    }
  }

  lemma ReplaysIgnoresCounters(x: Exchange, x': Exchange, y: Accounts)
    requires Replays(x, y) && x.accts == x'.accts && x.books == x'.books && x.pairs == x'.pairs
    ensures Replays(x', y)
  {
    hide Sound, Mirrors;
    SoundIgnoresCounters(x, x');
    SoundIgnoresCounters(x.(accts := y), x'.(accts := y));
  }

  /** Every action keeps the replay of its commands mirrored. */
  lemma ActionIsReplayed(hs: Hashes, e: Engine, y: Accounts, a: Action) returns (y': Accounts)
    requires Replays(e.x, y) && AdmissibleAction(e, a)
    ensures ApplyAll(y, ActionCommands(hs, e, a)) == Done(y') && Replays(Act(hs, e, a).x, y')
  {
    hide Sound, Mirrors, ApplyAll, Place, PlaceWithOutput, DoStep, Admissible, LockAmount, PlaceCommands,
         OutputCommands;
    match a
    case Plain(s) =>
      y' := StepIsReplayed(e.x, y, s);
    case Bundled(q) =>
      BundledIsAdmissible(e, q);
      y' := StepIsReplayed(e.x, y, PlaceStep(q.order, q.ts));
      OutputIsRecordedAlike(hs, e, q, y);
      OutputIsPlacement(hs, e, q);
      StepOfPlace(e.x, q.order, q.ts);
      ReplaysIgnoresCounters(DoStep(e.x, PlaceStep(q.order, q.ts)), Act(hs, e, a).x, y');
  }

  lemma BundledIsAdmissible(e: Engine, q: Request)
    requires AdmissibleAction(e, Bundled(q))
    ensures LockAmount(q.order) <= U64_MAX && Admissible(e.x, PlaceStep(q.order, q.ts))
  {
  }

  lemma {:induction false} RunIsReplayed(hs: Hashes, e: Engine, y: Accounts, actions: seq<Action>)
    returns (y': Accounts)
    requires Replays(e.x, y) && AllActionsAdmissible(hs, e, actions)
    ensures ApplyAll(y, HistoryOf(hs, e, actions)) == Done(y') && Replays(ActAll(hs, e, actions).x, y')
    decreases |actions|
  {
    hide Replays, ApplyAll, ActionCommands, Act, AdmissibleAction;
    if actions == [] {
      y' := y;
      NothingToRun(y);
    } else {
      var y1 := ActionIsReplayed(hs, e, y, actions[0]);
      y' := RunIsReplayed(hs, Act(hs, e, actions[0]), y1, actions[1..]);
      ApplyAllAppend(y, ActionCommands(hs, e, actions[0]), HistoryOf(hs, Act(hs, e, actions[0]), actions[1..]));
    }
  }

  /** For every run from the empty engine, over both order paths, with accepted, declined, refused and
      cancelled orders: its log, replayed from nothing, succeeds and gives the same balance for every user
      and asset. */
  lemma EveryRunIsReplayed(hs: Hashes, actions: seq<Action>) returns (rebuilt: Accounts)
    requires AllActionsAdmissible(hs, EMPTY_ENGINE, actions)
    ensures ApplyAll(map[], HistoryOf(hs, EMPTY_ENGINE, actions)) == Done(rebuilt)
    ensures var m := ActAll(hs, EMPTY_ENGINE, actions).x.accts;
            && (forall u, a :: Get(rebuilt, u, a) == Get(m, u, a))
            && (forall u, a :: Has(rebuilt, u, a) ==> Has(m, u, a))
  {
    EmptyIsSound();
    hide Sound, ApplyAll, Get, Has, HistoryOf, ActAll, AllActionsAdmissible;
    rebuilt := RunIsReplayed(hs, EMPTY_ENGINE, map[], actions);
  }

  // ----- Recovery of a run -----

  lemma {:induction false} RunSplits(hs: Hashes, e: Engine, before: seq<Action>, later: seq<Action>)
    ensures ActAll(hs, e, before + later) == ActAll(hs, ActAll(hs, e, before), later)
    ensures HistoryOf(hs, e, before + later) == HistoryOf(hs, e, before) + HistoryOf(hs, ActAll(hs, e, before), later)
    ensures AllActionsAdmissible(hs, e, before + later) <==>
            AllActionsAdmissible(hs, e, before) && AllActionsAdmissible(hs, ActAll(hs, e, before), later)
    decreases |before|
  {
    hide ActionCommands, Act, AdmissibleAction;
    if before == [] {
      assert before + later == later;
    } else {
      assert (before + later)[0] == before[0] && (before + later)[1..] == before[1..] + later;
      RunSplits(hs, Act(hs, e, before[0]), before[1..], later);
    }
  }

  /** The snapshot of the ledger after the first `i` actions. */
  ghost function SnapshotAt(hs: Hashes, actions: seq<Action>, i: nat): Snapshot
    requires i <= |actions|
  {
    Snapshot(|HistoryOf(hs, EMPTY_ENGINE, actions[..i])|, ActAll(hs, EMPTY_ENGINE, actions[..i]).x.accts)
  }

  ghost predicate TakenDuring(hs: Hashes, actions: seq<Action>, s: Snapshot) {
    exists i :: 0 <= i <= |actions| && s == SnapshotAt(hs, actions, i)
  }

  /** Crash and recovery of any run over both order paths: from any snapshots taken during it and any suffix
      of the segments that keeps the newest records, recovery gives every balance of the run's end exactly
      when the segments reach back to the newest snapshot, and refuses otherwise. Declined orders, whose
      refused locks leave entries that no record makes again, change nothing about that. */
  lemma RunsAreRecovered(hs: Hashes, c: Codec, actions: seq<Action>, dir: seq<Snapshot>, log: seq<LoggedSegment>,
                         j: nat, files: seq<SegmentFile>)
    requires c.Lawful() && AllActionsAdmissible(hs, EMPTY_ENGINE, actions) && j <= |log|
    requires forall s :: s in dir ==> TakenDuring(hs, actions, s)
    requires Numbered(log, 1) && Flatten(log) == Logged(HistoryOf(hs, EMPTY_ENGINE, actions), 1)
    requires AllReadable(c, Flatten(log)) && FilesHold(c, files, log[j..])
    requires Flatten(log[j..]) != [] || Latest(dir).lastSeq == |HistoryOf(hs, EMPTY_ENGINE, actions)|
    ensures var rebuilt := Recover(c, dir, files);
            if j == |log| || log[j].start <= Latest(dir).lastSeq + 1 then
              && rebuilt.Some? && rebuilt.value.lastSeq == |HistoryOf(hs, EMPTY_ENGINE, actions)|
              && Mirrors(rebuilt.value.accts, ActAll(hs, EMPTY_ENGINE, actions).x.accts)
            else rebuilt == None
  {
    hide *;
    LatestIsNewest(dir);
    StartIsTaken(hs, actions);
    var i := TakenMeans(hs, actions, Latest(dir));
    var before, later := actions[..i], actions[i..];
    assert actions == before + later;
    RunSplits(hs, EMPTY_ENGINE, before, later);
    EmptyExchangeIsSound();
    MixedRunsAreSound(hs, EMPTY_ENGINE, before);
    var e := ActAll(hs, EMPTY_ENGINE, before);
    ReplaysItself(e.x);
    var y := RunIsReplayed(hs, e, e.x.accts, later);
    var k, cmds := |HistoryOf(hs, EMPTY_ENGINE, before)|, HistoryOf(hs, EMPTY_ENGINE, actions);
    assert cmds[k..] == HistoryOf(hs, e, later);
    RecoveryAppliesTheRest(c, cmds, dir, log, j, files);
    RestOnMeans(cmds, k, e.x.accts);
    ReplaysMeans(ActAll(hs, e, later).x, y);
  }

  lemma TakenMeans(hs: Hashes, actions: seq<Action>, s: Snapshot) returns (i: nat)
    requires TakenDuring(hs, actions, s)
    ensures i <= |actions| && s.lastSeq == |HistoryOf(hs, EMPTY_ENGINE, actions[..i])|
    ensures s.accts == ActAll(hs, EMPTY_ENGINE, actions[..i]).x.accts
  {
    hide HistoryOf, ActAll;
    i :| 0 <= i <= |actions| && s == SnapshotAt(hs, actions, i);
  }

  /** Starting from nothing is starting from the snapshot of the empty engine. */
  lemma StartIsTaken(hs: Hashes, actions: seq<Action>)
    ensures TakenDuring(hs, actions, Snapshot(0, map[]))
  {
    assert actions[..0] == [];
    assert Snapshot(0, map[]) == SnapshotAt(hs, actions, 0);
  }

  lemma EmptyExchangeIsSound()
    ensures Sound(EMPTY_ENGINE.x)
  {
    EmptyIsSound();
  }

  lemma ReplaysItself(x: Exchange)
    requires Sound(x)
    ensures Replays(x, x.accts)
  {
    hide Sound;
    MirrorsItself(x.accts);
  }

  lemma ReplaysMeans(x: Exchange, y: Accounts)
    requires Replays(x, y)
    ensures Mirrors(y, x.accts)
  {
  }

  lemma RestOnMeans(cmds: seq<Cmd>, k: nat, m: Accounts)
    requires k <= |cmds|
    ensures RestOn(cmds, k, m) ==
            if ApplyAll(m, cmds[k..]).Done? then Some(Snapshot(|cmds|, ApplyAll(m, cmds[k..]).accts)) else None
  {
    hide ApplyAll;
  }
}
