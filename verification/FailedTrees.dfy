/** Conservation for command trees that fail half way: under `GlobalLedger::apply` they keep what they
    did before the failure. */
module FailedTrees {
  import opened Numbers
  import opened Balances
  import opened LedgerSpec
  import opened LedgerLaws
  import opened LedgerOverlay

  /** Everything a command tree deposits in one asset. */
  ghost function DepositsIn(c: Cmd, a: AssetId): nat
    decreases c, 1
  {
    match c
    case Deposit(_, x, n, _, _) => if x == a then n else 0
    case Batch(cs) => DepositsInAll(cs, a)
    case _ => 0
  }

  ghost function DepositsInAll(cs: seq<Cmd>, a: AssetId): nat
    decreases cs, 0
  {
    if cs == [] then 0 else DepositsIn(cs[0], a) + DepositsInAll(cs[1..], a)
  }

  lemma {:induction false} FlowWithinDeposits(c: Cmd, a: AssetId)
    ensures ExternalFlow(c, a) <= DepositsIn(c, a)
    decreases c, 1
  {
    if c.Batch? {
      FlowWithinDepositsAll(c.cmds, a);
    }
  }

  lemma {:induction false} FlowWithinDepositsAll(cs: seq<Cmd>, a: AssetId)
    ensures ExternalFlowAll(cs, a) <= DepositsInAll(cs, a)
    decreases cs, 0
  {
    if cs != [] {
      FlowWithinDeposits(cs[0], a);
      FlowWithinDepositsAll(cs[1..], a);
    }
  }

  lemma {:induction false} FlowAppend(cs: seq<Cmd>, ds: seq<Cmd>, a: AssetId)
    ensures ExternalFlowAll(cs + ds, a) == ExternalFlowAll(cs, a) + ExternalFlowAll(ds, a)
    decreases |cs|
  {
    if cs == [] {
      assert cs + ds == ds;
    } else {
      assert (cs + ds)[0] == cs[0] && (cs + ds)[1..] == cs[1..] + ds;
      FlowAppend(cs[1..], ds, a);
    }
  }

  lemma {:induction false} FlowOfLeaves(c: Cmd, a: AssetId)
    ensures ExternalFlowAll(Leaves(c), a) == ExternalFlow(c, a)
    decreases c, 1
  {
    if c.Batch? {
      FlowOfLeavesAll(c.cmds, a);
    } else {
      assert [c][1..] == [];
    }
  }

  lemma {:induction false} FlowOfLeavesAll(cs: seq<Cmd>, a: AssetId)
    ensures ExternalFlowAll(LeavesOf(cs), a) == ExternalFlowAll(cs, a)
    decreases cs, 0
  {
    if cs != [] {
      FlowOfLeaves(cs[0], a);
      FlowOfLeavesAll(cs[1..], a);
      FlowAppend(Leaves(cs[0]), LeavesOf(cs[1..]), a);
    }
  }

  /** The tree's deposits leave every supply within 64 bits. */
  ghost predicate RoomFor(m: Accounts, c: Cmd) {
    forall a :: Supply(m, a) + DepositsIn(c, a) <= U64_MAX
  }

  ghost predicate RoomForAll(m: Accounts, cs: seq<Cmd>) {
    forall a :: Supply(m, a) + DepositsInAll(cs, a) <= U64_MAX
  }

  /** The supplies moved as if exactly the commands `done` had been applied. */
  ghost predicate FlowedLike(m: Accounts, m': Accounts, done: seq<Cmd>) {
    forall a :: Supply(m', a) == Supply(m, a) + ExternalFlowAll(done, a)
  }

  lemma FailedTransferKeepsSupply(m: Accounts, c: Cmd, a: AssetId)
    requires IsTransfer(c) && SupplyFits(m) && ApplyTx(m, c).Failed?
    ensures Supply(ApplyTx(m, c).accts, a) == Supply(m, a)
  {
    hide Supply;
    var t := Touch(c.user, c.asset, TransferOp(c));
    HoldingWithinSupply(m, c.user, c.asset);
    TouchReads(m, t);
    OpEffect(Get(m, c.user, c.asset), t.op);
    SupplyOfUpdate(m, c.user, TouchAccount(AccountOf(m, c.user), c.asset, t.op), a);
  }

  lemma {:induction false} FailedExecsKeepSupply(m: Accounts, batch: seq<ExecData>, a: AssetId)
    requires ApplyExecs(m, batch).Failed?
    ensures Supply(ApplyExecs(m, batch).accts, a) == Supply(m, a)
    decreases |batch|
  {
    hide ApplyMatchExec, Supply;
    RefusalChangesNothing(m, batch[0].deal);
    if ApplyMatchExec(m, batch[0].deal).Done? {
      MatchExecKeepsSupply(m, batch[0].deal, a);
      FailedExecsKeepSupply(ApplyMatchExec(m, batch[0].deal).accts, batch[1..], a);
    }
  }

  lemma FailedLeafKeepsSupply(m: Accounts, c: Cmd)
    requires !c.Batch? && !c.TradeSettle? && SupplyFits(m) && ApplyTx(m, c).Failed?
    ensures FlowedLike(m, ApplyTx(m, c).accts, [])
  {
    hide Supply, SupplyFits, ApplyMatchExec, ApplyExecs, DoTouch;
    forall a ensures Supply(ApplyTx(m, c).accts, a) == Supply(m, a) {
      if IsTransfer(c) {
        FailedTransferKeepsSupply(m, c, a);
      } else if c.MatchExec? {
        RefusalChangesNothing(m, c.data.deal);
      } else if c.MatchExecBatch? {
        FailedExecsKeepSupply(m, c.batch, a);
      }
    }
  }

  lemma RoomFits(m: Accounts, c: Cmd)
    requires RoomFor(m, c)
    ensures SupplyFits(m)
  {
    hide Supply, DepositsIn;
  }

  lemma RoomSplits(m: Accounts, cs: seq<Cmd>)
    requires RoomForAll(m, cs) && cs != []
    ensures RoomFor(m, cs[0])
    ensures NoTradeSettle(cs[0]) && ApplyTx(m, cs[0]).Done? ==> RoomForAll(ApplyTx(m, cs[0]).accts, cs[1..])
  {
    hide Supply, DepositsIn, ApplyTx, NoTradeSettle;
    if NoTradeSettle(cs[0]) && ApplyTx(m, cs[0]).Done? {
      forall a ensures Supply(ApplyTx(m, cs[0]).accts, a) + DepositsInAll(cs[1..], a) <= U64_MAX {
        SupplyConserved(m, cs[0], a);
        FlowWithinDeposits(cs[0], a);
      }
    }
  }

  lemma ListIsBatch(m: Accounts, cs: seq<Cmd>)
    ensures ApplyTx(m, Batch(cs)) == ApplyAll(m, cs)
    ensures RoomFor(m, Batch(cs)) <==> RoomForAll(m, cs)
    ensures NoTradeSettle(Batch(cs)) <==> NoTradeSettleIn(cs)
  {
    hide Supply;
  }

  /** A tree without TradeSettle that fails has moved every supply as a prefix of its commands, taken
      one after the other, would: nothing is created or destroyed on the way to the failure. */
  lemma {:induction false} FailedTreeIsAPrefix(m: Accounts, c: Cmd) returns (k: nat)
    requires NoTradeSettle(c) && RoomFor(m, c) && ApplyTx(m, c).Failed?
    ensures k <= |Leaves(c)| && FlowedLike(m, ApplyTx(m, c).accts, Leaves(c)[..k])
    decreases c, 1
  {
    hide RoomFor, FlowedLike, ApplyTx, NoTradeSettleIn, LeavesOf, ApplyAll;
    if c.Batch? {
      ListIsBatch(m, c.cmds);
      k := FailedListIsAPrefix(m, c.cmds);
    } else {
      RoomFits(m, c);
      k := 0;
      FailedLeafKeepsSupply(m, c);
      assert [c][..0] == [];
    }
  }

  lemma {:induction false} FailedListIsAPrefix(m: Accounts, cs: seq<Cmd>) returns (k: nat)
    requires NoTradeSettleIn(cs) && RoomForAll(m, cs) && ApplyAll(m, cs).Failed?
    ensures k <= |LeavesOf(cs)| && FlowedLike(m, ApplyAll(m, cs).accts, LeavesOf(cs)[..k])
    decreases cs, 0
  {
    hide RoomFor, RoomForAll, FlowedLike, ApplyTx, Leaves, NoTradeSettle;
    RoomSplits(m, cs);
    var first, rest := Leaves(cs[0]), LeavesOf(cs[1..]);
    assert LeavesOf(cs) == first + rest;
    if ApplyTx(m, cs[0]).Done? {
      var m1 := ApplyTx(m, cs[0]).accts;
      var j := FailedListIsAPrefix(m1, cs[1..]);
      k := |first| + j;
      assert (first + rest)[..k] == first + rest[..j];
      DoneThenFlowed(m, cs[0], ApplyAll(m1, cs[1..]).accts, rest[..j]);
    } else {
      k := FailedTreeIsAPrefix(m, cs[0]);
      assert (first + rest)[..k] == first[..k];
    }
  }

  lemma DoneThenFlowed(m: Accounts, c: Cmd, m': Accounts, done: seq<Cmd>)
    requires NoTradeSettle(c) && ApplyTx(m, c).Done? && FlowedLike(ApplyTx(m, c).accts, m', done)
    ensures FlowedLike(m, m', Leaves(c) + done)
  {
    hide Supply, ApplyTx, NoTradeSettle, Leaves, ExternalFlow, ExternalFlowAll;
    forall a ensures Supply(m', a) == Supply(m, a) + ExternalFlowAll(Leaves(c) + done, a) {
      SupplyConserved(m, c, a);
      FlowOfLeaves(c, a);
      FlowAppend(Leaves(c), done, a);
    }
  }
}
