/** Laws of the ledger: supply, settlement effects, and why settlement cannot panic. */
module LedgerLaws {
  import opened Numbers
  import opened Balances
  import opened LedgerSpec
  import opened Sums

  // ----- Supply -----

  ghost function Holding(m: Accounts, u: UserId, a: AssetId): int {
    Get(m, u, a).avail + Get(m, u, a).frozen
  }

  ghost function Holdings(m: Accounts, a: AssetId): UserId -> int {
    (u: UserId) => Holding(m, u, a)
  }

  /** Available plus frozen of one asset over all accounts. */
  ghost function Supply(m: Accounts, a: AssetId): int {
    Sum(m.Keys, Holdings(m, a))
  }

  ghost predicate SupplyFits(m: Accounts) {
    forall a :: Supply(m, a) <= U64_MAX
  }

  lemma HoldingWithinSupply(m: Accounts, u: UserId, a: AssetId)
    ensures 0 <= Holding(m, u, a) <= Supply(m, a)
  {
    if u in m {
      SumAtLeast(m.Keys, Holdings(m, a), u);
    } else {
      SumNonNegative(m.Keys, Holdings(m, a));
    }
  }

  lemma TwoHoldingsWithinSupply(m: Accounts, u: UserId, v: UserId, a: AssetId)
    requires u != v
    ensures Holding(m, u, a) + Holding(m, v, a) <= Supply(m, a)
  {
    if u in m && v in m {
      SumAtLeastTwo(m.Keys, Holdings(m, a), u, v);
    } else {
      HoldingWithinSupply(m, u, a);
      HoldingWithinSupply(m, v, a);
    }
  }

  /** Replacing one account moves the supply by the change of that account's holding. */
  lemma SupplyOfUpdate(m: Accounts, u: UserId, acc: Account, a: AssetId)
    ensures Supply(m[u := acc], a) ==
            Supply(m, a) + Holding(m[u := acc], u, a) - Holding(m, u, a)
  {
    var m' := m[u := acc];
    if u in m {
      assert m'.Keys == m.Keys;
      SumChange(m.Keys, Holdings(m, a), Holdings(m', a), u);
    } else {
      assert m'.Keys == m.Keys + {u};
      SumGrow(m.Keys, Holdings(m', a), u);
      SumSame(m.Keys, Holdings(m, a), Holdings(m', a));
    }
  }

  /** A successful touch changes the supply of its own asset by the operation's net amount. */
  lemma SupplyOfTouch(m: Accounts, t: Touch, a: AssetId)
    requires DoTouch(m, t).Done?
    ensures Supply(DoTouch(m, t).accts, a) ==
            Supply(m, a) + if a == t.asset then NetOf(t.op) else 0
  {
    TouchReads(m, t);
    SupplyOfUpdate(m, t.user, TouchAccount(AccountOf(m, t.user), t.asset, t.op), a);
    OpEffect(Get(m, t.user, t.asset), t.op);
  }

  ghost function TouchesNet(ts: seq<Touch>, a: AssetId): int {
    if ts == [] then 0
    else (if a == ts[0].asset then NetOf(ts[0].op) else 0) + TouchesNet(ts[1..], a)
  }

  lemma {:induction false} SupplyOfTouches(m: Accounts, ts: seq<Touch>, a: AssetId)
    requires RunTouches(m, ts).Done?
    ensures Supply(RunTouches(m, ts).accts, a) == Supply(m, a) + TouchesNet(ts, a)
    decreases |ts|
  {
    if ts != [] {
      SupplyOfTouch(m, ts[0], a);
      SupplyOfTouches(DoTouch(m, ts[0]).accts, ts[1..], a);
    }
  }

  /** The buyer's and the seller's steps of one trade cancel out in every asset, whatever the two
      users and the two assets are. */
  lemma SettlementIsZeroSum(s: Settlement, a: AssetId)
    ensures TouchesNet(BuyerTouches(s), a) + TouchesNet(SellerTouches(s), a) == 0
  {
    TouchesNetOfTwo(Touch(s.buyer, s.quote, SpendFrozen(s.Cost())),
                    Touch(s.buyer, s.base, BalOp.Deposit(s.quantity)),
                    if s.buyerRefund > 0 then [Touch(s.buyer, s.quote, BalOp.Unlock(s.buyerRefund))] else [], a);
    TouchesNetOfTwo(Touch(s.seller, s.base, SpendFrozen(s.quantity)),
                    Touch(s.seller, s.quote, BalOp.Deposit(s.Cost())),
                    if s.sellerRefund > 0 then [Touch(s.seller, s.base, BalOp.Unlock(s.sellerRefund))] else [], a);
  }

  lemma TouchesNetOfTwo(t: Touch, u: Touch, rest: seq<Touch>, a: AssetId)
    ensures TouchesNet([t, u] + rest, a) ==
            (if a == t.asset then NetOf(t.op) else 0) +
            (if a == u.asset then NetOf(u.op) else 0) + TouchesNet(rest, a)
  {
    var ts := [t, u] + rest;
    assert ts[1..][1..] == rest;
  }

  /** A settled trade moves funds but never creates or destroys any. */
  lemma MatchExecKeepsSupply(m: Accounts, s: Settlement, a: AssetId)
    requires ApplyMatchExec(m, s).Done?
    ensures Supply(ApplyMatchExec(m, s).accts, a) == Supply(m, a)
  {
    var m1 := RunTouches(m, BuyerTouches(s));
    SupplyOfTouches(m, BuyerTouches(s), a);
    SupplyOfTouches(m1.accts, SellerTouches(s), a);
    SettlementIsZeroSum(s, a);
  }

  lemma {:induction false} ExecsKeepSupply(m: Accounts, batch: seq<ExecData>, a: AssetId)
    requires ApplyExecs(m, batch).Done?
    ensures Supply(ApplyExecs(m, batch).accts, a) == Supply(m, a)
    decreases |batch|
  {
    if batch != [] {
      MatchExecKeepsSupply(m, batch[0].deal, a);
      ExecsKeepSupply(ApplyMatchExec(m, batch[0].deal).accts, batch[1..], a);
    }
  }

  /** Deposits minus withdrawals of one asset, summed over a command tree. */
  ghost function ExternalFlow(c: Cmd, a: AssetId): int
    decreases c, 1
  {
    match c
    case Deposit(_, x, n, _, _) => if x == a then n else 0
    case Withdraw(_, x, n, _, _) => if x == a then 0 as int - n else 0
    case Batch(cs) => ExternalFlowAll(cs, a)
    case _ => 0
  }

  ghost function ExternalFlowAll(cs: seq<Cmd>, a: AssetId): int
    decreases cs, 0
  {
    if cs == [] then 0 else ExternalFlow(cs[0], a) + ExternalFlowAll(cs[1..], a)
  }

  ghost predicate NoTradeSettle(c: Cmd)
    decreases c, 1
  {
    !c.TradeSettle? && (c.Batch? ==> NoTradeSettleIn(c.cmds))
  }

  ghost predicate NoTradeSettleIn(cs: seq<Cmd>)
    decreases cs, 0
  {
    cs == [] || (NoTradeSettle(cs[0]) && NoTradeSettleIn(cs[1..]))
  }

  /** Conservation: a successful command tree without the deprecated TradeSettle changes every
      asset's supply by its deposits minus its withdrawals and by nothing else. */
  lemma {:induction false} SupplyConserved(m: Accounts, c: Cmd, a: AssetId)
    requires NoTradeSettle(c) && ApplyTx(m, c).Done?
    ensures Supply(ApplyTx(m, c).accts, a) == Supply(m, a) + ExternalFlow(c, a)
    decreases c, 1
  {
    match c
    case MatchExec(d) => MatchExecKeepsSupply(m, d.deal, a);
    case MatchExecBatch(ds) => ExecsKeepSupply(m, ds, a);
    case OrderUpdate(_) =>
    case Batch(cs) => SupplyConservedAll(m, cs, a);
    case TradeSettle(_, _, _, _, _) =>
    case Deposit(u, x, _, _, _) => SupplyOfTouch(m, Touch(u, x, TransferOp(c)), a);
    case Withdraw(u, x, _, _, _) => SupplyOfTouch(m, Touch(u, x, TransferOp(c)), a);
    case Lock(u, x, _, _, _) => SupplyOfTouch(m, Touch(u, x, TransferOp(c)), a);
    case Unlock(u, x, _, _, _) => SupplyOfTouch(m, Touch(u, x, TransferOp(c)), a);
  }

  lemma {:induction false} SupplyConservedAll(m: Accounts, cs: seq<Cmd>, a: AssetId)
    requires NoTradeSettleIn(cs) && ApplyAll(m, cs).Done?
    ensures Supply(ApplyAll(m, cs).accts, a) == Supply(m, a) + ExternalFlowAll(cs, a)
    decreases cs, 0
  {
    if cs != [] {
      SupplyConserved(m, cs[0], a);
      SupplyConservedAll(ApplyTx(m, cs[0]).accts, cs[1..], a);
    }
  }

  // ----- Transfers -----

  /** Exactly when a single transfer succeeds on the ledger, and what it moves: its own user's balance of
      its own asset, by the amount in the command, and nothing else. */
  lemma TransferOutcome(m: Accounts, c: Cmd)
    requires IsTransfer(c)
    ensures var r, b, n := ApplyTx(m, c), Get(m, c.user, c.asset), c.amount;
            && (r.Done? <==>
                  match c
                  case Deposit(_, _, _, _, _) => b.avail + n <= U64_MAX
                  case Withdraw(_, _, _, _, _) => n <= b.avail
                  case Lock(_, _, _, _, _) => n <= b.avail && b.frozen + n <= U64_MAX
                  case Unlock(_, _, _, _, _) => n <= b.frozen && b.avail + n <= U64_MAX)
            && (r.Done? ==>
                  && (forall u, a :: u != c.user || a != c.asset ==> Get(r.accts, u, a) == Get(m, u, a))
                  && var b' := Get(r.accts, c.user, c.asset);
                     && b'.version == WrapAdd(b.version, 1)
                     && b'.avail == b.avail + (if c.Deposit? || c.Unlock? then n else 0)
                                            - (if c.Withdraw? || c.Lock? then n else 0)
                     && b'.frozen == b.frozen + (if c.Lock? then n else 0) - (if c.Unlock? then n else 0))
  {
    hide Get, DoTouch;
    TouchReads(m, Touch(c.user, c.asset, TransferOp(c)));
    DoneMeansSuccess(m, Touch(c.user, c.asset, TransferOp(c)));
    OpOutcome(Get(m, c.user, c.asset), TransferOp(c));
  }

  // ----- TradeSettle -----

  /** Whether the gain of a TradeSettle, whose deposit may fail silently, is credited. */
  ghost predicate GainFits(m: Accounts, c: Cmd)
    requires c.TradeSettle?
  {
    Get(m, c.user, c.gainAsset).avail + c.gainAmount <= U64_MAX
  }

  /** What a TradeSettle does to every balance: a refused one nothing, a successful one takes the spent amount
      out of the frozen side and puts the gain on the available side if it fits, one version for each. */
  lemma TradeSettleEffect(m: Accounts, c: Cmd, u: UserId, a: AssetId)
    requires c.TradeSettle?
    ensures var r := ApplyTx(m, c);
            && !r.Panicked? && r.accts.Keys == m.Keys + {c.user}
            && (r.Failed? ==> Get(r.accts, u, a) == Get(m, u, a) && (Has(r.accts, u, a) <==> Has(m, u, a)))
            && (r.Done? ==>
                  var b, b' := Get(m, u, a), Get(r.accts, u, a);
                  var spends := u == c.user && a == c.spendAsset;
                  var gains := u == c.user && a == c.gainAsset && GainFits(m, c);
                  && b'.frozen == b.frozen - (if spends then c.spendAmount else 0)
                  && b'.avail == b.avail + (if gains then c.gainAmount else 0)
                  && (spends || gains ==> b'.version == WrapAdd(b.version, if spends && gains then 2 else 1))
                  && (!spends && !gains ==> b' == b))
  {
    hide Has, Get, DoTouch, TouchAccount, ApplyOp, WrapAdd;
    var m0 := m[c.user := AccountOf(m, c.user)];
    SpendReads(m, c);
    var t1 := Touch(c.user, c.spendAsset, SpendFrozen(c.spendAmount));
    OpOutcome(Get(m, u, a), t1.op);
    OpEffect(Get(m, u, a), t1.op);
    if Has(m, c.user, c.spendAsset) && DoTouch(m0, t1).Done? {
      GainReads(DoTouch(m0, t1).accts, c);
      WrapAddTwice(Get(m, u, a).version, 1, 1);
    }
  }

  lemma GainReads(m: Accounts, c: Cmd)
    requires c.TradeSettle? && c.user in m
    ensures var m' := m[c.user := TouchAccount(m[c.user], c.gainAsset, BalOp.Deposit(c.gainAmount))];
            && m'.Keys == m.Keys
            && forall u, a :: Get(m', u, a) ==
                 var b := Get(m, u, a);
                 if u == c.user && a == c.gainAsset && b.avail + c.gainAmount <= U64_MAX
                 then Bal(b.avail + c.gainAmount, b.frozen, WrapAdd(b.version, 1)) else b
  {
    TouchReads(m, Touch(c.user, c.gainAsset, BalOp.Deposit(c.gainAmount)));
  }

  lemma SpendReads(m: Accounts, c: Cmd)
    requires c.TradeSettle?
    ensures var m0 := m[c.user := AccountOf(m, c.user)];
            && (forall u, a :: Get(m0, u, a) == Get(m, u, a) && (Has(m0, u, a) <==> Has(m, u, a)))
            && var r := DoTouch(m0, Touch(c.user, c.spendAsset, SpendFrozen(c.spendAmount)));
               && !r.Panicked? && r.accts.Keys == m.Keys + {c.user}
               && (r.Done? <==> c.spendAmount <= Get(m, c.user, c.spendAsset).frozen)
               && (forall u, a :: Get(r.accts, u, a) ==
                     if u == c.user && a == c.spendAsset
                     then ApplyOp(Get(m, u, a), SpendFrozen(c.spendAmount)).bal else Get(m, u, a))
               && (forall u, a :: Has(r.accts, u, a) <==> Has(m, u, a) || (u == c.user && a == c.spendAsset))
  {
    var m0 := m[c.user := AccountOf(m, c.user)];
    TouchReads(m0, Touch(c.user, c.spendAsset, SpendFrozen(c.spendAmount)));
  }

  /** The deprecated TradeSettle, exactly: it succeeds when the spend asset is there and enough of it is
      frozen; then it credits the gain if and only if that fits 64 bits, and the supplies of its two
      assets move by what it spent and what it credited. It is outside the conservation law whenever
      the two do not cancel. */
  lemma TradeSettleOutcome(m: Accounts, c: Cmd, a: AssetId)
    requires c.TradeSettle?
    ensures ApplyTx(m, c).Done? <==>
            Has(m, c.user, c.spendAsset) && c.spendAmount <= Get(m, c.user, c.spendAsset).frozen
    ensures ApplyTx(m, c).Done? ==>
              var m' := ApplyTx(m, c).accts;
              && (Get(m', c.user, c.gainAsset).avail == Get(m, c.user, c.gainAsset).avail + c.gainAmount <==>
                    c.gainAmount == 0 || GainFits(m, c))
              && Supply(m', a) == Supply(m, a)
                 - (if a == c.spendAsset then c.spendAmount else 0)
                 + (if a == c.gainAsset && GainFits(m, c) then c.gainAmount else 0)
  {
    hide Supply;
    var m0 := m[c.user := AccountOf(m, c.user)];
    var t1 := Touch(c.user, c.spendAsset, SpendFrozen(c.spendAmount));
    var t2 := Touch(c.user, c.gainAsset, BalOp.Deposit(c.gainAmount));
    SupplyOfUpdate(m, c.user, AccountOf(m, c.user), a);
    TouchReads(m0, t1);
    if Has(m, c.user, c.spendAsset) && DoTouch(m0, t1).Done? {
      var m1 := DoTouch(m0, t1).accts;
      SupplyOfTouch(m0, t1, a);
      TouchReads(m1, t2);
      assert ApplyTx(m, c).accts == DoTouch(m1, t2).accts;
      if DoTouch(m1, t2).Done? {
        SupplyOfTouch(m1, t2, a);
      } else {
        SupplyOfUpdate(m1, c.user, TouchAccount(m1[c.user], c.gainAsset, t2.op), a);
      }
    }
  }

  /** A TradeSettle that succeeds and loses its gain. */
  lemma TradeSettleCanDestroyFunds() returns (m: Accounts, c: Cmd)
    ensures c.TradeSettle? && c.spendAmount > 0 && c.gainAmount > 0
    ensures ApplyTx(m, c).Done? && !GainFits(m, c)
    ensures Get(ApplyTx(m, c).accts, c.user, c.gainAsset).avail == Get(m, c.user, c.gainAsset).avail
  {
    m := map[1 := map[7 := Bal(0, 1, 0), 8 := Bal(U64_MAX, 0, 0)]];
    c := TradeSettle(1, 7, 1, 8, 1);
    TouchReads(m[1 := AccountOf(m, 1)], Touch(1, 7, SpendFrozen(1)));
  }

  // ----- Settlement -----

  /** What the read-only checks of `apply_match_exec` are for: they hold with sums that fit. */
  ghost predicate PreChecked(m: Accounts, s: Settlement) {
    && s.Cost() <= U64_MAX
    && s.Cost() + s.buyerRefund <= U64_MAX
    && s.quantity + s.sellerRefund <= U64_MAX
    && FrozenCovers(m, s.buyer, s.quote, s.Cost() + s.buyerRefund)
    && FrozenCovers(m, s.seller, s.base, s.quantity + s.sellerRefund)
  }

  ghost function AvailGain(s: Settlement, u: UserId, a: AssetId): nat {
    (if u == s.buyer && a == s.base then s.quantity else 0) +
    (if u == s.buyer && a == s.quote then s.buyerRefund else 0) +
    (if u == s.seller && a == s.quote then s.Cost() else 0) +
    (if u == s.seller && a == s.base then s.sellerRefund else 0)
  }

  ghost function FrozenLoss(s: Settlement, u: UserId, a: AssetId): nat {
    (if u == s.buyer && a == s.quote then s.Cost() + s.buyerRefund else 0) +
    (if u == s.seller && a == s.base then s.quantity + s.sellerRefund else 0)
  }

  /** `m'` is `m` with the amounts of `s` moved, and no entry lost. */
  ghost predicate Settled(m: Accounts, s: Settlement, m': Accounts) {
    && (forall u, a :: Get(m', u, a).avail == Get(m, u, a).avail + AvailGain(s, u, a))
    && (forall u, a :: Get(m', u, a).frozen == Get(m, u, a).frozen - FrozenLoss(s, u, a))
    && (forall u, a :: Has(m, u, a) ==> Has(m', u, a))
  }

  /** Running a list is doing its first touch and running the rest. */
  lemma RunCons(m: Accounts, t: Touch, rest: seq<Touch>)
    ensures RunTouches(m, [t] + rest) ==
            if DoTouch(m, t).Done? then RunTouches(DoTouch(m, t).accts, rest) else DoTouch(m, t)
    ensures RunTouches(m, []) == Done(m)
  {
    assert ([t] + rest)[1..] == rest;
  }

  /** `m'` is `m` after user `u` spent `n` and got `r` back in one asset and gained `k` in another. */
  ghost predicate SideSettled(m: Accounts, u: UserId, spend: AssetId, n: nat, gain: AssetId, k: nat,
                              r: nat, m': Accounts) {
    && (forall v, a :: Get(m', v, a).avail == Get(m, v, a).avail
          + (if v == u && a == gain then k else 0) + (if v == u && a == spend then r else 0))
    && (forall v, a :: Get(m', v, a).frozen == Get(m, v, a).frozen
          - (if v == u && a == spend then n + r else 0))
    && (forall v, a :: Has(m, v, a) ==> Has(m', v, a))
  }

  /** The steps of one side: spend, deposit, optional unlock. */
  ghost function SideTouches(u: UserId, spend: AssetId, n: nat, gain: AssetId, k: nat, r: nat): seq<Touch> {
    [Touch(u, spend, SpendFrozen(n)), Touch(u, gain, BalOp.Deposit(k))]
    + if r > 0 then [Touch(u, spend, BalOp.Unlock(r))] else []
  }

  lemma SideSteps(m: Accounts, u: UserId, spend: AssetId, n: nat, gain: AssetId, k: nat, r: nat)
    ensures var t1, t2 := Touch(u, spend, SpendFrozen(n)), Touch(u, gain, BalOp.Deposit(k));
            var r1 := DoTouch(m, t1);
            !r1.Panicked? &&
            var r2 := DoTouch(r1.accts, t2);
            !r2.Panicked? &&
            var r3 := if r > 0 then DoTouch(r2.accts, Touch(u, spend, BalOp.Unlock(r))) else r2;
            RunTouches(m, SideTouches(u, spend, n, gain, k, r)) ==
            if !r1.Done? then r1 else if !r2.Done? then r2 else r3
  {
    hide DoTouch;
    var t1, t2 := Touch(u, spend, SpendFrozen(n)), Touch(u, gain, BalOp.Deposit(k));
    var t3 := Touch(u, spend, BalOp.Unlock(r));
    var rest := if r > 0 then [t3] else [];
    TouchReads(m, t1);
    var m1 := DoTouch(m, t1).accts;
    TouchReads(m1, t2);
    assert SideTouches(u, spend, n, gain, k, r) == [t1] + ([t2] + rest);
    RunCons(m, t1, [t2] + rest);
    RunCons(m1, t2, rest);
    RunCons(DoTouch(m1, t2).accts, t3, []);
    assert [t3] + [] == [t3];
  }

  /** One spending, credit or refund: when it succeeds, and what it moves. */
  lemma TouchMoves(m: Accounts, u: UserId, a: AssetId, op: BalOp)
    requires op.SpendFrozen? || op.Deposit? || op.Unlock?
    ensures var r := DoTouch(m, Touch(u, a, op));
            && !r.Panicked?
            && (r.Done? <==>
                  match op
                  case SpendFrozen(n) => n <= Get(m, u, a).frozen
                  case Deposit(n) => Get(m, u, a).avail + n <= U64_MAX
                  case Unlock(n) => n <= Get(m, u, a).frozen && Get(m, u, a).avail + n <= U64_MAX)
            && (r.Done? ==>
                  && (forall v, b :: Get(r.accts, v, b).avail == Get(m, v, b).avail
                        + if v == u && b == a && !op.SpendFrozen? then op.amount else 0)
                  && (forall v, b :: Get(r.accts, v, b).frozen == Get(m, v, b).frozen
                        - if v == u && b == a && !op.Deposit? then op.amount else 0)
                  && (forall v, b :: Has(m, v, b) ==> Has(r.accts, v, b)))
  {
    TouchReads(m, Touch(u, a, op));
    DoneMeansSuccess(m, Touch(u, a, op));
    hide Get, Has, DoTouch;
  }

  lemma DoneMeansSuccess(m: Accounts, t: Touch)
    ensures DoTouch(m, t).Done? <==> ApplyOp(Get(m, t.user, t.asset), t.op).status == Success
  {
  }

  /** One side succeeds when its amounts fit. */
  lemma SettleSide(m: Accounts, u: UserId, spend: AssetId, n: nat, gain: AssetId, k: nat, r: nat)
    requires n + r <= Get(m, u, spend).frozen
    requires Get(m, u, spend).avail + r + (if spend == gain then k else 0) <= U64_MAX
    requires Get(m, u, gain).avail + k <= U64_MAX
    ensures RunTouches(m, SideTouches(u, spend, n, gain, k, r)).Done?
  {
    hide Get, Has, RunTouches, DoTouch, ApplyOp;
    SideSteps(m, u, spend, n, gain, k, r);
    TouchMoves(m, u, spend, SpendFrozen(n));
    var m1 := DoTouch(m, Touch(u, spend, SpendFrozen(n))).accts;
    TouchMoves(m1, u, gain, BalOp.Deposit(k));
    TouchMoves(DoTouch(m1, Touch(u, gain, BalOp.Deposit(k))).accts, u, spend, BalOp.Unlock(r));
  }

  /** And when it succeeds, the frozen funds covered it and exactly its amounts have moved. */
  lemma SettledSide(m: Accounts, u: UserId, spend: AssetId, n: nat, gain: AssetId, k: nat, r: nat)
    requires RunTouches(m, SideTouches(u, spend, n, gain, k, r)).Done?
    ensures n + r <= Get(m, u, spend).frozen && k <= U64_MAX && r <= U64_MAX
    ensures SideSettled(m, u, spend, n, gain, k, r, RunTouches(m, SideTouches(u, spend, n, gain, k, r)).accts)
  {
    hide Get, Has, RunTouches, DoTouch, ApplyOp;
    SideSteps(m, u, spend, n, gain, k, r);
    TouchMoves(m, u, spend, SpendFrozen(n));
    var m1 := DoTouch(m, Touch(u, spend, SpendFrozen(n))).accts;
    TouchMoves(m1, u, gain, BalOp.Deposit(k));
    TouchMoves(DoTouch(m1, Touch(u, gain, BalOp.Deposit(k))).accts, u, spend, BalOp.Unlock(r));
  }

  lemma TouchesAreSides(s: Settlement)
    ensures BuyerTouches(s) == SideTouches(s.buyer, s.quote, s.Cost(), s.base, s.quantity, s.buyerRefund)
    ensures SellerTouches(s) == SideTouches(s.seller, s.base, s.quantity, s.quote, s.Cost(), s.sellerRefund)
  {
  }

  /** The frozen funds cover both sides together. The checks look at each side alone, so this says
      more only for one user and one asset. */
  ghost predicate Covered(m: Accounts, s: Settlement) {
    s.base == s.quote && s.buyer == s.seller ==>
      s.Cost() + s.buyerRefund + s.quantity + s.sellerRefund <= Get(m, s.buyer, s.quote).frozen
  }

  /** The credits of a covered trade fit, because the funds they come from are in the supply. */
  lemma CreditsFit(m: Accounts, s: Settlement)
    requires SupplyFits(m) && PreChecked(m, s) && Covered(m, s)
    ensures var one := s.base == s.quote;
            var self := s.buyer == s.seller;
            && Get(m, s.buyer, s.quote).avail + s.buyerRefund + (if one then s.quantity else 0) <= U64_MAX
            && Get(m, s.buyer, s.base).avail + s.quantity <= U64_MAX
            && Get(m, s.seller, s.base).avail + s.sellerRefund + (if one then s.Cost() else 0)
               + (if self then s.quantity + (if one then s.buyerRefund else 0) else 0) <= U64_MAX
            && Get(m, s.seller, s.quote).avail + s.Cost()
               + (if self then s.buyerRefund + (if one then s.quantity else 0) else 0) <= U64_MAX
  {
    HoldingWithinSupply(m, s.buyer, s.quote);
    HoldingWithinSupply(m, s.seller, s.base);
    if s.buyer != s.seller {
      TwoHoldingsWithinSupply(m, s.buyer, s.seller, s.base);
      TwoHoldingsWithinSupply(m, s.buyer, s.seller, s.quote);
    }
  }

  /** When the supply fits 64 bits, a trade that passes the pre-flight checks and is covered settles
      completely, also when the buyer and the seller are the same user. */
  lemma PreCheckedTradeSettles(m: Accounts, s: Settlement)
    requires SupplyFits(m) && PreChecked(m, s) && Covered(m, s)
    ensures ApplyMatchExec(m, s).Done?
    ensures Settled(m, s, ApplyMatchExec(m, s).accts)
  {
    CheckedOutcome(m, s);
    hide RunTouches, SideTouches, Get, Has, Supply, SupplyFits, ApplyMatchExec, PassesChecks, PreChecked;
    CreditsFit(m, s);
    FrozenOfChecked(m, s);
    TouchesAreSides(s);
    SettleSide(m, s.buyer, s.quote, s.Cost(), s.base, s.quantity, s.buyerRefund);
    SettledSide(m, s.buyer, s.quote, s.Cost(), s.base, s.quantity, s.buyerRefund);
    var m1 := RunTouches(m, BuyerTouches(s)).accts;
    SettleSide(m1, s.seller, s.base, s.quantity, s.quote, s.Cost(), s.sellerRefund);
    SettledSide(m1, s.seller, s.base, s.quantity, s.quote, s.Cost(), s.sellerRefund);
    BothSides(m, s, m1, RunTouches(m1, SellerTouches(s)).accts);
  }

  lemma FrozenOfChecked(m: Accounts, s: Settlement)
    requires PreChecked(m, s)
    ensures s.Cost() + s.buyerRefund <= Get(m, s.buyer, s.quote).frozen
    ensures s.quantity + s.sellerRefund <= Get(m, s.seller, s.base).frozen
  {
  }

  lemma BothSides(m: Accounts, s: Settlement, m1: Accounts, m2: Accounts)
    requires SideSettled(m, s.buyer, s.quote, s.Cost(), s.base, s.quantity, s.buyerRefund, m1)
    requires SideSettled(m1, s.seller, s.base, s.quantity, s.quote, s.Cost(), s.sellerRefund, m2)
    ensures Settled(m, s, m2)
  {
    hide Get, Has;
  }

  /** A trade that settled was covered. */
  lemma SettledIsCovered(m: Accounts, s: Settlement)
    requires SettleBoth(m, s).Done?
    ensures Covered(m, s)
  {
    hide RunTouches, SideTouches, Get, Has;
    TouchesAreSides(s);
    SettledSide(m, s.buyer, s.quote, s.Cost(), s.base, s.quantity, s.buyerRefund);
    var m1 := RunTouches(m, BuyerTouches(s)).accts;
    SettledSide(m1, s.seller, s.base, s.quantity, s.quote, s.Cost(), s.sellerRefund);
  }

  /** Exactly when a trade settles, is refused without effect, or panics, for any users and assets
      whose supply fits. The "Critical" panics after the checks happen exactly when the checks pass and
      the frozen funds do not cover the trade all the same: because a required sum wrapped around, or
      because one user trades one asset against itself. */
  lemma MatchExecOutcome(m: Accounts, s: Settlement)
    requires SupplyFits(m)
    ensures ApplyMatchExec(m, s).Done? <==> PreChecked(m, s) && Covered(m, s)
    ensures ApplyMatchExec(m, s).Panicked? <==> PassesChecks(m, s) && !(PreChecked(m, s) && Covered(m, s))
    ensures ApplyMatchExec(m, s).Failed? ==> ApplyMatchExec(m, s) == Failed(m)
  {
    CheckedOutcome(m, s);
    hide ApplyMatchExec, SettleBoth, PreChecked, Covered, SupplyFits, PassesChecks;
    if PreChecked(m, s) && Covered(m, s) {
      PreCheckedTradeSettles(m, s);
    }
    if ApplyMatchExec(m, s).Done? {
      SettledIsCovered(m, s);
      SettledIsPreChecked(m, s);
    }
  }

  lemma CheckedOutcome(m: Accounts, s: Settlement)
    ensures !SettleBoth(m, s).Failed? && (PreChecked(m, s) ==> PassesChecks(m, s))
    ensures ApplyMatchExec(m, s) == if PassesChecks(m, s) then SettleBoth(m, s) else Failed(m)
  {
    hide RunTouches;
  }

  /** What the checks ask for: as long as the two sums fit, exactly that the trade's cost fits and each side
      has its whole sum frozen; beyond, only what the sum exceeds 2^64 by. */
  lemma ChecksAsk(m: Accounts, s: Settlement)
    requires s.buyerRefund <= U64_MAX && s.quantity <= U64_MAX && s.sellerRefund <= U64_MAX
    ensures var cost, spent := s.Cost() + s.buyerRefund, s.quantity + s.sellerRefund;
            PassesChecks(m, s) <==>
              && s.Cost() <= U64_MAX && Has(m, s.buyer, s.quote) && Has(m, s.seller, s.base)
              && Get(m, s.buyer, s.quote).frozen >= (if cost <= U64_MAX then cost else cost - TWO_64)
              && Get(m, s.seller, s.base).frozen >= (if spent <= U64_MAX then spent else spent - TWO_64)
    ensures s.Cost() + s.buyerRefund <= U64_MAX && s.quantity + s.sellerRefund <= U64_MAX ==>
              (PassesChecks(m, s) <==> PreChecked(m, s))
  {
    hide Settlement.Cost;
  }

  lemma RefusalChangesNothing(m: Accounts, s: Settlement)
    ensures ApplyMatchExec(m, s).Failed? ==> ApplyMatchExec(m, s) == Failed(m)
  {
    CheckedOutcome(m, s);
    hide ApplyMatchExec, SettleBoth, PreChecked, PassesChecks;
  }

  /** A trade that settled had its true sums frozen, so neither of the checks wrapped around. */
  lemma SettledIsPreChecked(m: Accounts, s: Settlement)
    requires SupplyFits(m) && PassesChecks(m, s) && SettleBoth(m, s).Done?
    ensures PreChecked(m, s)
  {
    hide RunTouches, SideTouches, Get, Supply;
    TouchesAreSides(s);
    SettledSide(m, s.buyer, s.quote, s.Cost(), s.base, s.quantity, s.buyerRefund);
    var m1 := RunTouches(m, BuyerTouches(s)).accts;
    SettledSide(m1, s.seller, s.base, s.quantity, s.quote, s.Cost(), s.sellerRefund);
    HoldingWithinSupply(m, s.buyer, s.quote);
    HoldingWithinSupply(m, s.seller, s.base);
    FrozenInEntries(m, s);
  }

  lemma FrozenInEntries(m: Accounts, s: Settlement)
    requires PassesChecks(m, s)
    ensures Has(m, s.buyer, s.quote) && m[s.buyer][s.quote] == Get(m, s.buyer, s.quote)
    ensures Has(m, s.seller, s.base) && m[s.seller][s.base] == Get(m, s.seller, s.base)
  {
  }

  /** Such a state and trade: the checks pass twice on the same frozen funds and the seller's
      settlement panics. */
  lemma SelfTradeInOneAssetPanics() returns (m: Accounts, s: Settlement)
    ensures SupplyFits(m) && PreChecked(m, s) && !Covered(m, s)
    ensures s.base == s.quote && s.buyer == s.seller
    ensures ApplyMatchExec(m, s).Panicked?
  {
    m := map[1 := map[7 := Bal(0, 5, 0)]];
    s := Settlement(1, 1, 7, 7, 1, 5, 0, 0);
    forall a ensures Supply(m, a) <= U64_MAX {
      assert m.Keys == {1};
      SumPick(m.Keys, Holdings(m, a), 1);
      assert m.Keys - {1} == {};
    }
    assert s.Cost() == 5;
    MatchExecOutcome(m, s);
  }

  /** Two users and two assets: the buyer's required sum wraps around to nothing, and the refund panics. */
  lemma WrappedCheckPanics() returns (m: Accounts, s: Settlement)
    ensures SupplyFits(m) && PassesChecks(m, s) && Covered(m, s)
    ensures s.base != s.quote && s.buyer != s.seller && s.Cost() + s.buyerRefund == TWO_64
    ensures ApplyMatchExec(m, s).Panicked?
  {
    m := map[1 := map[7 := Bal(0, I64_MAX + 1, 0)], 2 := map[8 := Bal(0, 1, 0)]];
    s := Settlement(1, 2, 8, 7, I64_MAX + 1, 1, I64_MAX + 1, 0);
    forall a ensures Supply(m, a) <= U64_MAX {
      assert m.Keys == {1, 2};
      SumPick(m.Keys, Holdings(m, a), 1);
      SumPick(m.Keys - {1}, Holdings(m, a), 2);
      assert m.Keys - {1} - {2} == {};
    }
    assert s.Cost() == I64_MAX + 1;
    MatchExecOutcome(m, s);
  }
}
