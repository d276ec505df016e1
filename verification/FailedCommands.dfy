/** What becomes of a command that was logged and then refused (`GlobalLedger::apply` logs before it
    validates), for every snapshot and every continuation of the run. */
module FailedCommands {
  import opened Options
  import opened Balances
  import opened LedgerSpec
  import opened LedgerLaws
  import opened WalSpec
  import opened Recovery

  // ----- A refused command is refused again -----

  /** Operations of a settlement never add to a frozen balance. */
  predicate SpendsFrozen(t: Touch) {
    t.op.SpendFrozen? || t.op.Deposit? || t.op.Unlock?
  }

  lemma SpendingLowersFrozen(m: Accounts, t: Touch)
    requires SpendsFrozen(t)
    ensures forall u, a :: Get(DoTouch(m, t).accts, u, a).frozen <= Get(m, u, a).frozen
  {
    TouchReads(m, t);
    hide Get, DoTouch;
  }

  lemma {:induction false} SpendingTouches(m: Accounts, ts: seq<Touch>)
    requires RunTouches(m, ts).Done? && forall t :: t in ts ==> SpendsFrozen(t)
    ensures var m' := RunTouches(m, ts).accts;
            && (forall u, a :: Get(m', u, a).frozen <= Get(m, u, a).frozen)
            && (forall u, a :: Has(m', u, a) ==> Has(m, u, a) || exists t :: t in ts && t.user == u && t.asset == a)
            && (forall u, a :: Has(m, u, a) ==> Has(m', u, a))
            && (forall t :: t in ts ==> Has(m', t.user, t.asset))
    decreases |ts|
  {
    hide Get, Has, DoTouch, ApplyOp;
    if ts != [] {
      assert ts[0] in ts;
      SpendingLowersFrozen(m, ts[0]);
      TouchReads(m, ts[0]);
      SpendingTouches(DoTouch(m, ts[0]).accts, ts[1..]);
      assert forall t :: t in ts ==> t == ts[0] || t in ts[1..];
    }
  }

  /** The entries a trade touches. */
  predicate Touches(s: Settlement, u: UserId, a: AssetId) {
    (u == s.buyer || u == s.seller) && (a == s.base || a == s.quote)
  }

  lemma SettledEntries(m: Accounts, s: Settlement)
    requires ApplyMatchExec(m, s).Done?
    ensures var m' := ApplyMatchExec(m, s).accts;
            && (forall u, a :: Get(m', u, a).frozen <= Get(m, u, a).frozen)
            && (forall u, a :: Has(m', u, a) <==> Has(m, u, a) || Touches(s, u, a))
  {
    hide RunTouches, Get, Has;
    CheckedOutcome(m, s);
    var b, c := BuyerTouches(s), SellerTouches(s);
    assert b[0].asset == s.quote && b[1].asset == s.base && c[0].asset == s.base && c[1].asset == s.quote;
    assert b[0] in b && b[1] in b && c[0] in c && c[1] in c;
    SpendingTouches(m, b);
    SpendingTouches(RunTouches(m, b).accts, c);
  }

  /** `m1` has no entry that `m2` lacks, and never more frozen. */
  ghost predicate Below(m1: Accounts, m2: Accounts) {
    && (forall u, a :: Has(m1, u, a) ==> Has(m2, u, a))
    && (forall u, a :: Get(m1, u, a).frozen <= Get(m2, u, a).frozen)
  }

  lemma RefusedBelow(m1: Accounts, m2: Accounts, s: Settlement)
    requires Below(m1, m2) && ApplyMatchExec(m2, s).Failed?
    ensures !ApplyMatchExec(m1, s).Done?
  {
    CheckedOutcome(m1, s);
    CheckedOutcome(m2, s);
    hide SettleBoth, ApplyMatchExec;
    assert Get(m1, s.buyer, s.quote).frozen <= Get(m2, s.buyer, s.quote).frozen;
    assert Get(m1, s.seller, s.base).frozen <= Get(m2, s.seller, s.base).frozen;
    assert PreChecked(m1, s) ==> PreChecked(m2, s);
  }

  /** Where a batch failed: after a prefix that settled, at a trade that was refused without effect. */
  lemma {:induction false} FailedAt(m: Accounts, batch: seq<ExecData>) returns (k: nat)
    requires ApplyExecs(m, batch).Failed?
    ensures k < |batch| && ApplyExecs(m, batch[..k]) == Done(ApplyExecs(m, batch).accts)
    ensures ApplyMatchExec(ApplyExecs(m, batch).accts, batch[k].deal).Failed?
    decreases |batch|
  {
    hide ApplyMatchExec;
    var s := batch[0].deal;
    if ApplyMatchExec(m, s).Done? {
      var j := FailedAt(ApplyMatchExec(m, s).accts, batch[1..]);
      k := j + 1;
      assert batch[..k][0] == batch[0] && batch[..k][1..] == batch[1..][..j];
    } else {
      k := 0;
      RefusalChangesNothing(m, s);
      assert batch[..0] == [];
    }
  }

  /** Every entry the trades touch is there. */
  ghost predicate Entered(m: Accounts, batch: seq<ExecData>) {
    forall i, u, a :: 0 <= i < |batch| && Touches(batch[i].deal, u, a) ==> Has(m, u, a)
  }

  lemma {:induction false} SettledBatchEntered(m: Accounts, batch: seq<ExecData>)
    requires ApplyExecs(m, batch).Done?
    ensures Entered(ApplyExecs(m, batch).accts, batch)
    ensures forall u, a :: Has(m, u, a) ==> Has(ApplyExecs(m, batch).accts, u, a)
    decreases |batch|
  {
    hide ApplyMatchExec, Has, Touches, Get;
    if batch != [] {
      SettledEntries(m, batch[0].deal);
      SettledBatchEntered(ApplyMatchExec(m, batch[0].deal).accts, batch[1..]);
      assert forall i :: 0 < i < |batch| ==> batch[i] == batch[1..][i - 1];
    }
  }

  lemma {:induction false} SettlingStaysBelow(m: Accounts, top: Accounts, batch: seq<ExecData>)
    requires ApplyExecs(m, batch).Done? && Below(m, top) && Entered(top, batch)
    ensures Below(ApplyExecs(m, batch).accts, top)
    decreases |batch|
  {
    hide ApplyMatchExec, Has, Touches, Get;
    if batch != [] {
      SettledEntries(m, batch[0].deal);
      assert forall i :: 0 <= i < |batch[1..]| ==> batch[1..][i] == batch[i + 1];
      SettlingStaysBelow(ApplyMatchExec(m, batch[0].deal).accts, top, batch[1..]);
    }
  }

  /** A match batch that failed half way cannot succeed on the accounts it left: what its first trades
      spent a second time is missing to the trade that was refused. */
  lemma FailedMatchBatchFailsAgain(m: Accounts, batch: seq<ExecData>)
    requires ApplyExecs(m, batch).Failed?
    ensures !ApplyExecs(ApplyExecs(m, batch).accts, batch).Done?
  {
    hide ApplyMatchExec, Has, Touches, Get, Entered, Below, ApplyExecs;
    var after := ApplyExecs(m, batch).accts;
    var k := FailedAt(m, batch);
    var front, rest := batch[..k], batch[k..];
    assert batch == front + rest && rest[0] == batch[k];
    ApplyExecsAppend(after, front, rest);
    if ApplyExecs(after, front).Done? {
      SettledBatchEntered(m, front);
      BelowItself(after);
      SettlingStaysBelow(after, after, front);
      var m' := ApplyExecs(after, front).accts;
      RefusedBelow(m', after, batch[k].deal);
      FirstRefused(m', rest);
    }
  }

  lemma BelowItself(m: Accounts)
    ensures Below(m, m)
  {
  }

  lemma FirstRefused(m: Accounts, batch: seq<ExecData>)
    requires batch != [] && !ApplyMatchExec(m, batch[0].deal).Done?
    ensures !ApplyExecs(m, batch).Done?
  {
    hide ApplyMatchExec;
  }

  lemma FailedTransferFailsAgain(m: Accounts, c: Cmd)
    requires IsTransfer(c) && ApplyTx(m, c).Failed?
    ensures ApplyTx(ApplyTx(m, c).accts, c).Failed?
  {
    TouchReads(m, Touch(c.user, c.asset, TransferOp(c)));
  }

  lemma FailedTradeSettleFailsAgain(m: Accounts, c: Cmd)
    requires c.TradeSettle? && ApplyTx(m, c).Failed?
    ensures ApplyTx(ApplyTx(m, c).accts, c).Failed?
  {
    hide Supply;
    var after := ApplyTx(m, c).accts;
    TradeSettleOutcome(m, c, 0);
    TradeSettleOutcome(after, c, 0);
    var m0 := m[c.user := AccountOf(m, c.user)];
    TouchReads(m0, Touch(c.user, c.spendAsset, SpendFrozen(c.spendAmount)));
  }

  /** A command that was refused, and is not a tree of commands, is refused again on the accounts it
      left. Only a tree can succeed the second time. */
  lemma FailedCommandFailsAgain(m: Accounts, c: Cmd)
    requires !c.Batch? && ApplyTx(m, c).Failed?
    ensures !ApplyTx(ApplyTx(m, c).accts, c).Done?
    ensures !c.MatchExecBatch? ==> ApplyTx(ApplyTx(m, c).accts, c).Failed?
  {
    hide ApplyMatchExec, DoTouch, ApplyExecs, ApplyTradeSettle;
    match c
    case MatchExec(d) => RefusalChangesNothing(m, d.deal);
    case MatchExecBatch(ds) => FailedMatchBatchFailsAgain(m, ds);
    case TradeSettle(_, _, _, _, _) => FailedTradeSettleFailsAgain(m, c);
    case OrderUpdate(_) =>
    case Deposit(_, _, _, _, _) => FailedTransferFailsAgain(m, c);
    case Withdraw(_, _, _, _, _) => FailedTransferFailsAgain(m, c);
    case Lock(_, _, _, _, _) => FailedTransferFailsAgain(m, c);
    case Unlock(_, _, _, _, _) => FailedTransferFailsAgain(m, c);
  }

  // ----- The log of any run of `apply` -----

  /** What one call of `GlobalLedger::apply` makes of number and accounts: a refused command keeps its
      effects and gives its number back. A panic ends the process and leaves no ledger. */
  function AfterApply(s: Snapshot, c: Cmd): Snapshot {
    match ApplyTx(s.accts, c)
    case Done(m) => Snapshot(s.lastSeq + 1, m)
    case Failed(m) => Snapshot(s.lastSeq, m)
    case Panicked => s
  }

  /** No command of the run panics, so there is a ledger after it. */
  predicate Survives(s: Snapshot, cmds: seq<Cmd>)
    decreases |cmds|
  {
    cmds == [] || (!ApplyTx(s.accts, cmds[0]).Panicked? && Survives(AfterApply(s, cmds[0]), cmds[1..]))
  }

  function AfterRun(s: Snapshot, cmds: seq<Cmd>): Snapshot
    decreases |cmds|
  {
    if cmds == [] then s else AfterRun(AfterApply(s, cmds[0]), cmds[1..])
  }

  /** Every command is logged, under the number after the last one that succeeded, up to one that panics. */
  function LogOf(s: Snapshot, cmds: seq<Cmd>): seq<LogRecord>
    decreases |cmds|
  {
    if cmds == [] then [] else
    [LogRecord(s.lastSeq + 1, cmds[0])]
    + if ApplyTx(s.accts, cmds[0]).Panicked? then [] else LogOf(AfterApply(s, cmds[0]), cmds[1..])
  }

  predicate Refused(s: Snapshot, c: Cmd) {
    !ApplyTx(s.accts, c).Done?
  }

  predicate AllRefused(s: Snapshot, cmds: seq<Cmd>)
    decreases |cmds|
  {
    cmds == [] || (Refused(s, cmds[0]) && AllRefused(AfterApply(s, cmds[0]), cmds[1..]))
  }

  /** The run is empty or its last command succeeded. */
  predicate EndsInSuccess(s: Snapshot, cmds: seq<Cmd>) {
    cmds == [] || !Refused(AfterRun(s, cmds[..|cmds| - 1]), cmds[|cmds| - 1])
  }

  lemma {:induction false} RunAppend(s: Snapshot, cmds: seq<Cmd>, more: seq<Cmd>)
    requires Survives(s, cmds)
    ensures AfterRun(s, cmds + more) == AfterRun(AfterRun(s, cmds), more)
    ensures LogOf(s, cmds + more) == LogOf(s, cmds) + LogOf(AfterRun(s, cmds), more)
    ensures AllRefused(s, cmds + more) <==> AllRefused(s, cmds) && AllRefused(AfterRun(s, cmds), more)
    ensures Survives(s, cmds + more) <==> Survives(AfterRun(s, cmds), more)
    decreases |cmds|
  {
    hide AfterApply, Refused, ApplyTx;
    if cmds == [] {
      assert cmds + more == more;
    } else {
      assert (cmds + more)[0] == cmds[0] && (cmds + more)[1..] == cmds[1..] + more;
      RunAppend(AfterApply(s, cmds[0]), cmds[1..], more);
    }
  }

  lemma {:induction false} SurvivesInit(s: Snapshot, cmds: seq<Cmd>, i: nat)
    requires Survives(s, cmds) && i <= |cmds|
    ensures Survives(s, cmds[..i]) && Survives(AfterRun(s, cmds[..i]), cmds[i..])
    decreases |cmds|
  {
    hide AfterApply, ApplyTx;
    if i > 0 {
      assert cmds[..i][0] == cmds[0] && cmds[..i][1..] == cmds[1..][..i - 1] && cmds[1..][i - 1..] == cmds[i..];
      SurvivesInit(AfterApply(s, cmds[0]), cmds[1..], i - 1);
    }
  }

  lemma {:induction false} NumbersOfRun(s: Snapshot, cmds: seq<Cmd>)
    ensures s.lastSeq <= AfterRun(s, cmds).lastSeq
    ensures forall r :: r in LogOf(s, cmds) ==> r.seqNo <= AfterRun(s, cmds).lastSeq + 1
    ensures AllRefused(s, cmds) ==>
              AfterRun(s, cmds).lastSeq == s.lastSeq && forall r :: r in LogOf(s, cmds) ==> r.seqNo == s.lastSeq + 1
    decreases |cmds|
  {
    hide ApplyTx;
    if cmds != [] {
      NumbersOfRun(AfterApply(s, cmds[0]), cmds[1..]);
    }
  }

  lemma OneMore(s: Snapshot, c: Cmd)
    ensures AfterRun(s, [c]) == AfterApply(s, c) && LogOf(s, [c]) == [LogRecord(s.lastSeq + 1, c)]
    ensures AllRefused(s, [c]) <==> Refused(s, c)
    ensures AfterApply(s, c).lastSeq == s.lastSeq + if Refused(s, c) then 0 else 1
    ensures Survives(s, [c]) <==> !ApplyTx(s.accts, c).Panicked?
  {
    hide ApplyTx;
    assert [c][1..] == [];
  }

  /** After a success, all numbers of the run are covered. */
  lemma SuccessCovers(s: Snapshot, cmds: seq<Cmd>)
    requires EndsInSuccess(s, cmds) && Survives(s, cmds)
    ensures forall r :: r in LogOf(s, cmds) ==> r.seqNo <= AfterRun(s, cmds).lastSeq
  {
    hide AfterApply, Refused, AfterRun, LogOf, AllRefused, Survives;
    if cmds == [] {
      NumbersOfRun(s, cmds);
      EmptyRun(s);
    } else {
      var init, c := cmds[..|cmds| - 1], cmds[|cmds| - 1];
      assert cmds == init + [c];
      SurvivesInit(s, cmds, |cmds| - 1);
      RunAppend(s, init, [c]);
      NumbersOfRun(s, init);
      OneMore(AfterRun(s, init), c);
    }
  }

  lemma EmptyRun(s: Snapshot)
    ensures AfterRun(s, []) == s && LogOf(s, []) == [] && AllRefused(s, []) && EndsInSuccess(s, []) && Survives(s, [])
  {
  }

  // ----- Replaying it -----

  lemma NextRecord(s: Snapshot, c: Cmd, rest: seq<LogRecord>)
    ensures ReplayRecords(s, [LogRecord(s.lastSeq + 1, c)] + rest) ==
            match ApplyTx(s.accts, c)
            case Done(m) => ReplayRecords(Snapshot(s.lastSeq + 1, m), rest)
            case _ => None
  {
    hide ApplyTx;
    assert ([LogRecord(s.lastSeq + 1, c)] + rest)[1..] == rest;
  }

  /** Replaying what follows a state: its end when nothing was refused, and an error otherwise. */
  lemma {:induction false} ReplayWhatFollows(s: Snapshot, cmds: seq<Cmd>)
    ensures ReplayRecords(s, LogOf(s, cmds)) ==
            if ApplyAll(s.accts, cmds).Done? then Some(AfterRun(s, cmds)) else None
    decreases |cmds|
  {
    hide ApplyTx, ReplayRecords;
    NothingToReplay(s);
    if cmds != [] {
      var rest := LogOf(AfterApply(s, cmds[0]), cmds[1..]);
      NextRecord(s, cmds[0], if ApplyTx(s.accts, cmds[0]).Panicked? then [] else rest);
      ReplayWhatFollows(AfterApply(s, cmds[0]), cmds[1..]);
    }
  }

  lemma NothingToReplay(s: Snapshot)
    ensures ReplayRecords(s, []) == Some(s)
  {
  }

  /** Replaying the log of any run of `apply` over a state of it: after `front`, which ends in a success,
      and `refused`, a run of refusals. Without such refusals replay gives the run's end if nothing is
      refused later, and refuses otherwise. With them it first replays the oldest of them: it refuses
      unless that succeeds on the state's accounts, and if it does, the command is silently run in place
      of the next one that gets its number. */
  lemma ReplayAfterRefusals(s0: Snapshot, front: seq<Cmd>, refused: seq<Cmd>, later: seq<Cmd>)
    requires Survives(s0, front + refused)
    requires EndsInSuccess(s0, front) && AllRefused(AfterRun(s0, front), refused)
    ensures ReplayRecords(AfterRun(s0, front + refused), LogOf(s0, front + refused + later)) ==
            AmongRefusals(AfterRun(s0, front + refused), refused, later)
  {
    hide ApplyTx, ApplyAll, ReplayRecords, EndsInSuccess, AfterApply, Refused, Survives, AfterRun, LogOf, AllRefused;
    var f, s := AfterRun(s0, front), AfterRun(s0, front + refused);
    var tail := LogOf(s, later);
    SurvivesInit(s0, front + refused, |front|);
    assert (front + refused)[..|front|] == front && (front + refused)[|front|..] == refused;
    RunAppend(s0, front + refused, later);
    RunAppend(s0, front, refused);
    SuccessCovers(s0, front);
    NumbersOfRun(f, refused);
    assert LogOf(s0, front + refused + later) == LogOf(s0, front) + (LogOf(f, refused) + tail);
    SkipOld(s, LogOf(s0, front), LogOf(f, refused) + tail);
    if refused == [] {
      EmptyRun(f);
      assert [] + tail == tail;
      ReplayWhatFollows(s, later);
    } else {
      FirstRefusal(f, refused);
      ReplayRefusals(s, LogOf(f, refused), refused[0], tail);
    }
  }

  lemma FirstRefusal(f: Snapshot, refused: seq<Cmd>)
    requires refused != []
    ensures LogOf(f, refused) != [] && LogOf(f, refused)[0] == LogRecord(f.lastSeq + 1, refused[0])
  {
    hide ApplyTx;
  }

  /** Records that all have the next number: the first one is run, the others are then covered. */
  lemma ReplayRefusals(s: Snapshot, rs: seq<LogRecord>, c: Cmd, tail: seq<LogRecord>)
    requires rs != [] && rs[0] == LogRecord(s.lastSeq + 1, c) && forall r :: r in rs ==> r.seqNo == s.lastSeq + 1
    ensures ReplayRecords(s, rs + tail) ==
            match ApplyTx(s.accts, c)
            case Done(m) => ReplayRecords(Snapshot(s.lastSeq + 1, m), tail)
            case _ => None
  {
    hide ApplyTx, ReplayRecords;
    assert rs + tail == [LogRecord(s.lastSeq + 1, c)] + (rs[1..] + tail);
    NextRecord(s, c, rs[1..] + tail);
    if ApplyTx(s.accts, c).Done? {
      SkipOld(Snapshot(s.lastSeq + 1, ApplyTx(s.accts, c).accts), rs[1..], tail);
    }
  }

  /** What recovery makes of a state `s` that it finds after the refusals `refused`, with `later` to come. */
  function AmongRefusals(s: Snapshot, refused: seq<Cmd>, later: seq<Cmd>): Option<Snapshot> {
    if refused == [] then if ApplyAll(s.accts, later).Done? then Some(AfterRun(s, later)) else None
    else
      match ApplyTx(s.accts, refused[0])
      case Done(again) => ReplayRecords(Snapshot(s.lastSeq + 1, again), LogOf(s, later))
      case _ => None
  }

  /** What the replay in place of the next command gives, when the later commands succeeded: their
      number is covered now, so the first of them is lost. */
  lemma ReplayedInItsPlace(s: Snapshot, wrong: Accounts, later: seq<Cmd>)
    requires ApplyAll(s.accts, later).Done?
    ensures var t := ApplyAll(wrong, later[if later == [] then 0 else 1..]);
            ReplayRecords(Snapshot(s.lastSeq + 1, wrong), LogOf(s, later)) ==
            if t.Done? then Some(Snapshot(s.lastSeq + if later == [] then 1 else |later|, t.accts)) else None
  {
    hide ApplyTx, ReplayRecords, Logged;
    var r := Snapshot(s.lastSeq + 1, wrong);
    if later == [] {
      NothingToReplay(r);
    } else {
      var s1 := AfterApply(s, later[0]);
      LogOfSuccesses(s1, later[1..]);
      SkipOld(r, [LogRecord(s.lastSeq + 1, later[0])], LogOf(s1, later[1..]));
      ReplayNumbered(r, later[1..], r.lastSeq + 1);
      assert later[1..][0..] == later[1..];
    }
  }

  lemma {:induction false} LogOfSuccesses(s: Snapshot, cmds: seq<Cmd>)
    requires ApplyAll(s.accts, cmds).Done?
    ensures LogOf(s, cmds) == Logged(cmds, s.lastSeq + 1) && Survives(s, cmds)
    ensures AfterRun(s, cmds) == Snapshot(s.lastSeq + |cmds|, ApplyAll(s.accts, cmds).accts)
    decreases |cmds|
  {
    hide ApplyTx;
    if cmds != [] {
      LogOfSuccesses(AfterApply(s, cmds[0]), cmds[1..]);
    }
  }

  /** One refusal since the last success, of a command that is no tree: replay over a state after it
      refuses, whatever came before and comes later. */
  lemma PlainRefusalIsNotReplayed(s0: Snapshot, front: seq<Cmd>, bad: Cmd, later: seq<Cmd>)
    requires Survives(s0, front + [bad]) && !bad.Batch?
    requires EndsInSuccess(s0, front) && Refused(AfterRun(s0, front), bad)
    ensures ReplayRecords(AfterRun(s0, front + [bad]), LogOf(s0, front + [bad] + later)) == None
  {
    hide ApplyTx, ReplayRecords, EndsInSuccess, AfterRun, LogOf, Survives, ApplyAll;
    var f := AfterRun(s0, front);
    SurvivesInit(s0, front + [bad], |front|);
    assert (front + [bad])[..|front|] == front;
    OneMore(f, bad);
    RunAppend(s0, front, [bad]);
    ReplayAfterRefusals(s0, front, [bad], later);
    FailedCommandFailsAgain(f.accts, bad);
  }

  // ----- Every snapshot of every run -----

  /** Every command since the last success, from the `i`-th on, was refused, and the `i`-th succeeds on the
      accounts they left. */
  predicate SucceedsLate(s0: Snapshot, past: seq<Cmd>, i: nat) {
    && i < |past| && EndsInSuccess(s0, past[..i]) && AllRefused(AfterRun(s0, past[..i]), past[i..])
    && ApplyTx(AfterRun(s0, past).accts, past[i]).Done?
  }

  /** Where the refusals before a state begin. */
  lemma {:induction false} LastSuccess(s0: Snapshot, past: seq<Cmd>) returns (i: nat)
    requires Survives(s0, past)
    ensures i <= |past| && EndsInSuccess(s0, past[..i]) && AllRefused(AfterRun(s0, past[..i]), past[i..])
    decreases |past|
  {
    hide AfterRun, AllRefused, Refused, Survives;
    if EndsInSuccess(s0, past) {
      i := |past|;
      assert past[..i] == past && past[i..] == [];
      EmptyRun(AfterRun(s0, past));
    } else {
      var init, c := past[..|past| - 1], past[|past| - 1];
      SurvivesInit(s0, past, |past| - 1);
      i := LastSuccess(s0, init);
      assert past[..i] == init[..i] && past[i..] == init[i..] + [c] && init == init[..i] + init[i..];
      SurvivesInit(s0, init, i);
      RunAppend(s0, init[..i], init[i..]);
      RunAppend(AfterRun(s0, init[..i]), init[i..], [c]);
      OneMore(AfterRun(s0, init), c);
    }
  }

  /** The state after `past` is safe for this continuation: recovery refuses or gives the ledger's state. */
  ghost predicate ExactOrRefused(s0: Snapshot, past: seq<Cmd>, later: seq<Cmd>) {
    var rebuilt := ReplayRecords(AfterRun(s0, past), LogOf(s0, past + later));
    rebuilt == None || rebuilt == Some(AfterRun(s0, past + later))
  }

  lemma NoneSucceedsLate(s0: Snapshot, past: seq<Cmd>, later: seq<Cmd>)
    requires Survives(s0, past) && forall i :: !SucceedsLate(s0, past, i)
    ensures ExactOrRefused(s0, past, later)
  {
    hide ApplyTx, ApplyAll, ReplayRecords, AfterRun, LogOf, AllRefused, EndsInSuccess, Survives;
    var i := LastSuccess(s0, past);
    assert past == past[..i] + past[i..];
    ReplayAfterRefusals(s0, past[..i], past[i..], later);
    RunAppend(s0, past, later);
    if past[i..] != [] {
      assert !SucceedsLate(s0, past, i);
      assert past[i..][0] == past[i];
    }
  }

  lemma LateSuccessIsWrong(s0: Snapshot, past: seq<Cmd>, i: nat)
    requires Survives(s0, past) && SucceedsLate(s0, past, i)
    ensures !ExactOrRefused(s0, past, [])
  {
    hide ApplyTx, ApplyAll, ReplayRecords, AfterRun, LogOf, AllRefused, EndsInSuccess, Survives;
    var s := AfterRun(s0, past);
    assert past == past[..i] + past[i..] && past + [] == past && past[i..][0] == past[i];
    ReplayAfterRefusals(s0, past[..i], past[i..], []);
    EmptyRun(s);
    NothingToReplay(Snapshot(s.lastSeq + 1, ApplyTx(s.accts, past[i]).accts));
  }

  /** A state of any run, refusals included, is safe to recover from, whatever comes later, if and only if
      the oldest of the refusals just before it does not succeed when it is run again. */
  lemma SafeIffNoneSucceedsLate(s0: Snapshot, past: seq<Cmd>)
    requires Survives(s0, past)
    ensures (forall later :: ExactOrRefused(s0, past, later)) <==> (forall i :: !SucceedsLate(s0, past, i))
  {
    hide ExactOrRefused, SucceedsLate, Survives;
    if forall i :: !SucceedsLate(s0, past, i) {
      forall later ensures ExactOrRefused(s0, past, later) {
        NoneSucceedsLate(s0, past, later);
      }
    } else {
      var i :| SucceedsLate(s0, past, i);
      LateSuccessIsWrong(s0, past, i);
    }
  }

  // ----- From files -----

  const EMPTY_LEDGER: Snapshot := Snapshot(0, map[])

  /** `calls` from the empty ledger lead to `s` and leave `log`. */
  ghost predicate IsRun(calls: seq<Cmd>, s: Snapshot, log: seq<LogRecord>) {
    && Survives(EMPTY_LEDGER, calls)
    && s == AfterRun(EMPTY_LEDGER, calls) && log == LogOf(EMPTY_LEDGER, calls)
  }

  lemma NothingCalled()
    ensures IsRun([], EMPTY_LEDGER, [])
  {
  }

  /** One more call, whatever becomes of it. */
  lemma CallExtendsRun(calls: seq<Cmd>, s: Snapshot, log: seq<LogRecord>, c: Cmd)
    requires IsRun(calls, s, log) && !ApplyTx(s.accts, c).Panicked?
    ensures IsRun(calls + [c], AfterApply(s, c), log + [LogRecord(s.lastSeq + 1, c)])
  {
    hide ApplyTx, AfterRun, LogOf, Survives, AfterApply;
    RunAppend(EMPTY_LEDGER, calls, [c]);
    OneMore(s, c);
  }

  /** A list that succeeds is a run of its commands. */
  lemma ListExtendsRun(calls: seq<Cmd>, s: Snapshot, log: seq<LogRecord>, cs: seq<Cmd>)
    requires IsRun(calls, s, log) && ApplyAll(s.accts, cs).Done?
    ensures IsRun(calls + cs, Snapshot(s.lastSeq + |cs|, ApplyAll(s.accts, cs).accts),
                  log + Logged(cs, s.lastSeq + 1))
  {
    hide ApplyTx, ApplyAll, AfterRun, LogOf, Survives, Logged;
    RunAppend(EMPTY_LEDGER, calls, cs);
    LogOfSuccesses(s, cs);
  }

  /** Recovery of any run of `apply` from its segment files and any snapshots of which the newest was taken
      after `past`: it is the replay of the whole log over that snapshot. */
  lemma RecoveryReplaysTheRun(c: Codec, past: seq<Cmd>, later: seq<Cmd>, dir: seq<Snapshot>,
                              log: seq<LoggedSegment>, files: seq<SegmentFile>)
    requires c.Lawful() && FilesHold(c, files, log) && AllReadable(c, Flatten(log)) && Ordered(log)
    requires Flatten(log) == LogOf(EMPTY_LEDGER, past + later) && Latest(dir) == AfterRun(EMPTY_LEDGER, past)
    ensures Recover(c, dir, files) == ReplayRecords(AfterRun(EMPTY_LEDGER, past), LogOf(EMPTY_LEDGER, past + later))
  {
    hide Resume, ReplayRecords, AfterRun, LogOf, Latest, AllReadable, FilesHold, Ordered, Flatten;
    ResumingReplaysTheLog(c, Latest(dir), files, log);
  }

  /** So from files, too, what recovery gives is known exactly for every run of `apply`, refused commands
      included, and a newest snapshot taken anywhere in it. */
  lemma RecoveryAfterRefusals(c: Codec, front: seq<Cmd>, refused: seq<Cmd>, later: seq<Cmd>, dir: seq<Snapshot>,
                              log: seq<LoggedSegment>, files: seq<SegmentFile>)
    requires c.Lawful() && FilesHold(c, files, log) && AllReadable(c, Flatten(log)) && Ordered(log)
    requires Flatten(log) == LogOf(EMPTY_LEDGER, front + refused + later)
    requires Survives(EMPTY_LEDGER, front + refused) && Latest(dir) == AfterRun(EMPTY_LEDGER, front + refused)
    requires EndsInSuccess(EMPTY_LEDGER, front) && AllRefused(AfterRun(EMPTY_LEDGER, front), refused)
    ensures Recover(c, dir, files) == AmongRefusals(AfterRun(EMPTY_LEDGER, front + refused), refused, later)
  {
    hide *;
    RecoveryReplaysTheRun(c, front + refused, later, dir, log, files);
    ReplayAfterRefusals(EMPTY_LEDGER, front, refused, later);
  }
}
