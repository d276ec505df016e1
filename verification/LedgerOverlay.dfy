/** Facts that let a copy-on-write overlay stand for the ledger below it. */
module LedgerOverlay {
  import opened Balances
  import opened LedgerSpec

  ghost function ExecUsers(batch: seq<ExecData>): set<UserId> {
    if batch == [] then {} else {batch[0].deal.buyer, batch[0].deal.seller} + ExecUsers(batch[1..])
  }

  /** The users whose accounts the overlay copies before it applies a command. */
  ghost function UsersOf(c: Cmd): set<UserId> {
    match c
    case MatchExec(d) => {d.deal.buyer, d.deal.seller}
    case MatchExecBatch(ds) => ExecUsers(ds)
    case OrderUpdate(_) => {}
    case Batch(_) => {}
    case _ => {c.user}
  }

  /** A result in the overlay, read through to the accounts below it. */
  ghost function Over(below: Accounts, r: Tx): Tx {
    match r
    case Done(d) => Done(below + d)
    case Failed(d) => Failed(below + d)
    case Panicked => Panicked
  }

  lemma TouchInOverlay(below: Accounts, delta: Accounts, t: Touch)
    requires t.user in delta
    ensures DoTouch(below + delta, t) == Over(below, DoTouch(delta, t))
    ensures DoTouch(delta, t).accts.Keys == delta.Keys
  {
    var acc := TouchAccount(delta[t.user], t.asset, t.op);
    assert (below + delta)[t.user := acc] == below + delta[t.user := acc];
  }

  lemma {:induction false} TouchesInOverlay(below: Accounts, delta: Accounts, ts: seq<Touch>)
    requires forall t :: t in ts ==> t.user in delta
    ensures RunTouches(below + delta, ts) == Over(below, RunTouches(delta, ts))
    ensures !RunTouches(delta, ts).Panicked? && RunTouches(delta, ts).accts.Keys == delta.Keys
    decreases |ts|
  {
    if ts != [] {
      TouchInOverlay(below, delta, ts[0]);
      match DoTouch(delta, ts[0])
      case Done(delta') => TouchesInOverlay(below, delta', ts[1..]);
      case _ =>
    }
  }

  lemma MatchExecInOverlay(below: Accounts, delta: Accounts, s: Settlement)
    requires s.buyer in delta && s.seller in delta
    ensures ApplyMatchExec(below + delta, s) == Over(below, ApplyMatchExec(delta, s))
    ensures ApplyMatchExec(delta, s).Done? ==> ApplyMatchExec(delta, s).accts.Keys == delta.Keys
  {
    SettleBothInOverlay(below, delta, s);
    SeenThroughOverlay(below, delta, s.buyer, s.quote);
    SeenThroughOverlay(below, delta, s.seller, s.base);
    hide SettleBoth, Has, FrozenCovers;
  }

  lemma SeenThroughOverlay(below: Accounts, delta: Accounts, u: UserId, a: AssetId)
    requires u in delta
    ensures Has(below + delta, u, a) == Has(delta, u, a)
    ensures forall n :: FrozenCovers(below + delta, u, a, n) == FrozenCovers(delta, u, a, n)
  {
  }

  lemma SettleBothInOverlay(below: Accounts, delta: Accounts, s: Settlement)
    requires s.buyer in delta && s.seller in delta
    ensures SettleBoth(below + delta, s) == Over(below, SettleBoth(delta, s))
    ensures SettleBoth(delta, s).Done? ==> SettleBoth(delta, s).accts.Keys == delta.Keys
  {
    TouchesInOverlay(below, delta, BuyerTouches(s));
    var delta' := RunTouches(delta, BuyerTouches(s)).accts;
    TouchesInOverlay(below, delta', SellerTouches(s));
  }

  lemma {:induction false} ExecsInOverlay(below: Accounts, delta: Accounts, batch: seq<ExecData>)
    requires ExecUsers(batch) <= delta.Keys
    ensures ApplyExecs(below + delta, batch) == Over(below, ApplyExecs(delta, batch))
    decreases |batch|
  {
    if batch != [] {
      MatchExecInOverlay(below, delta, batch[0].deal);
      match ApplyMatchExec(delta, batch[0].deal)
      case Done(delta') => ExecsInOverlay(below, delta', batch[1..]);
      case _ =>
    }
  }

  lemma TradeSettleInOverlay(below: Accounts, delta: Accounts, u: UserId, spend: AssetId, n: nat,
                             gain: AssetId, k: nat)
    requires u in delta
    ensures ApplyTradeSettle(below + delta, u, spend, n, gain, k) ==
            Over(below, ApplyTradeSettle(delta, u, spend, n, gain, k))
  {
    assert (below + delta)[u := (below + delta)[u]] == below + delta && delta[u := delta[u]] == delta;
    TouchInOverlay(below, delta, Touch(u, spend, SpendFrozen(n)));
    match DoTouch(delta, Touch(u, spend, SpendFrozen(n)))
    case Done(d) =>
      var acc := TouchAccount(d[u], gain, BalOp.Deposit(k));
      assert (below + d)[u := acc] == below + d[u := acc];
    case _ =>
  }

  /** Once the users are copied, a command acts on the overlay as on the ledger below it. */
  lemma CommandInOverlay(below: Accounts, delta: Accounts, c: Cmd)
    requires !c.Batch? && UsersOf(c) <= delta.Keys
    ensures ApplyTx(below + delta, c) == Over(below, ApplyTx(delta, c))
  {
    match c
    case TradeSettle(u, spend, n, gain, k) => TradeSettleInOverlay(below, delta, u, spend, n, gain, k);
    case MatchExec(d) => MatchExecInOverlay(below, delta, d.deal);
    case MatchExecBatch(ds) => ExecsInOverlay(below, delta, ds);
    case OrderUpdate(_) =>
    case Deposit(u, a, _, _, _) => TouchInOverlay(below, delta, Touch(u, a, TransferOp(c)));
    case Withdraw(u, a, _, _, _) => TouchInOverlay(below, delta, Touch(u, a, TransferOp(c)));
    case Lock(u, a, _, _, _) => TouchInOverlay(below, delta, Touch(u, a, TransferOp(c)));
    case Unlock(u, a, _, _, _) => TouchInOverlay(below, delta, Touch(u, a, TransferOp(c)));
  }

  // ----- Copies of accounts that do not exist yet -----

  /** `m` with an empty account for every user in `us` that has none. */
  ghost function WithEmpty(m: Accounts, us: set<UserId>): Accounts {
    map u | u in m.Keys + us :: AccountOf(m, u)
  }

  lemma WithNobody(m: Accounts)
    ensures WithEmpty(m, {}) == m
  {
  }

  /** Copying one account into the overlay only adds it, empty, when it did not exist. */
  lemma CopyIsWithEmpty(below: Accounts, delta: Accounts, u: UserId)
    ensures u !in delta ==> below + delta[u := AccountOf(below, u)] == WithEmpty(below + delta, {u})
    ensures u in delta ==> below + delta == WithEmpty(below + delta, {u})
  {
  }

  lemma WithEmptyTwice(m: Accounts, us: set<UserId>, vs: set<UserId>)
    ensures WithEmpty(WithEmpty(m, us), vs) == WithEmpty(m, us + vs)
  {
  }

  lemma TouchKeepsOthers(m: Accounts, ts: seq<Touch>, u: UserId)
    requires RunTouches(m, ts).Done?
    requires forall t :: t in ts ==> t.user != u
    ensures AccountOf(RunTouches(m, ts).accts, u) == AccountOf(m, u)
    ensures u in RunTouches(m, ts).accts <==> u in m
    decreases |ts|
  {
    if ts != [] {
      TouchKeepsOthers(DoTouch(m, ts[0]).accts, ts[1..], u);
    }
  }

  /** A batch of trades only settles for users who already hold something. */
  lemma {:induction false} SettledUsersExist(m: Accounts, batch: seq<ExecData>, u: UserId)
    requires ApplyExecs(m, batch).Done? && u in ExecUsers(batch)
    ensures u in m && m[u] != map[]
    decreases |batch|
  {
    hide ApplyMatchExec;
    var s := batch[0].deal;
    MatchExecKeepsOthers(m, s, u);
    if u != s.buyer && u != s.seller {
      SettledUsersExist(ApplyMatchExec(m, s).accts, batch[1..], u);
    }
  }

  lemma MatchExecKeepsOthers(m: Accounts, s: Settlement, u: UserId)
    requires ApplyMatchExec(m, s).Done?
    ensures if u == s.buyer || u == s.seller then u in m && m[u] != map[]
            else var m' := ApplyMatchExec(m, s).accts;
                 AccountOf(m', u) == AccountOf(m, u) && (u in m' <==> u in m)
  {
    hide RunTouches, DoTouch;
    if u != s.buyer && u != s.seller {
      TouchKeepsOthers(m, BuyerTouches(s), u);
      TouchKeepsOthers(RunTouches(m, BuyerTouches(s)).accts, SellerTouches(s), u);
    } else {
      assert Has(m, s.buyer, s.quote) && Has(m, s.seller, s.base);
    }
  }

  /** An outcome with empty accounts added to what it leaves. */
  ghost function Padded(r: Tx, us: set<UserId>): Tx {
    match r
    case Done(m) => Done(WithEmpty(m, us))
    case Failed(m) => Failed(WithEmpty(m, us))
    case Panicked => Panicked
  }

  lemma TouchPadded(m: Accounts, t: Touch, us: set<UserId>)
    ensures DoTouch(WithEmpty(m, us), t) == Padded(DoTouch(m, t), us)
  {
    hide ApplyOp, TouchAccount;
    PaddedStore(m, t.user, TouchAccount(AccountOf(m, t.user), t.asset, t.op), us);
  }

  lemma {:induction false} TouchesPadded(m: Accounts, ts: seq<Touch>, us: set<UserId>)
    ensures RunTouches(WithEmpty(m, us), ts) == Padded(RunTouches(m, ts), us)
    decreases |ts|
  {
    hide WithEmpty, DoTouch;
    if ts != [] {
      TouchPadded(m, ts[0], us);
      match DoTouch(m, ts[0])
      case Done(m') => TouchesPadded(m', ts[1..], us);
      case _ =>
    }
  }

  lemma MatchExecPadded(m: Accounts, s: Settlement, us: set<UserId>)
    ensures ApplyMatchExec(WithEmpty(m, us), s) == Padded(ApplyMatchExec(m, s), us)
  {
    ChecksPadded(m, s, us);
    hide PassesChecks, RunTouches, WithEmpty;
    TouchesPadded(m, BuyerTouches(s), us);
    match RunTouches(m, BuyerTouches(s))
    case Done(m') => TouchesPadded(m', SellerTouches(s), us);
    case _ =>
  }

  lemma ChecksPadded(m: Accounts, s: Settlement, us: set<UserId>)
    ensures PassesChecks(WithEmpty(m, us), s) <==> PassesChecks(m, s)
  {
  }

  lemma {:induction false} ExecsPadded(m: Accounts, batch: seq<ExecData>, us: set<UserId>)
    ensures ApplyExecs(WithEmpty(m, us), batch) == Padded(ApplyExecs(m, batch), us)
    decreases |batch|
  {
    hide WithEmpty, ApplyMatchExec;
    if batch != [] {
      MatchExecPadded(m, batch[0].deal, us);
      match ApplyMatchExec(m, batch[0].deal)
      case Done(m') => ExecsPadded(m', batch[1..], us);
      case _ =>
    }
  }

  lemma TradeSettlePadded(m: Accounts, u: UserId, spend: AssetId, n: nat, gain: AssetId, k: nat, us: set<UserId>)
    ensures ApplyTradeSettle(WithEmpty(m, us), u, spend, n, gain, k) ==
            Padded(ApplyTradeSettle(m, u, spend, n, gain, k), us)
  {
    hide ApplyOp, TouchAccount, WithEmpty, DoTouch;
    var m0, t := m[u := AccountOf(m, u)], Touch(u, spend, SpendFrozen(n));
    SamePadded(m, u, spend, us);
    PaddedStore(m, u, AccountOf(m, u), us);
    TouchPadded(m0, t, us);
    TouchReads(m0, t);
    match DoTouch(m0, t)
    case Done(m1) =>
      SamePadded(m1, u, spend, us);
      PaddedStore(m1, u, TouchAccount(AccountOf(m1, u), gain, BalOp.Deposit(k)), us);
    case _ =>
  }

  lemma SamePadded(m: Accounts, u: UserId, a: AssetId, us: set<UserId>)
    ensures AccountOf(WithEmpty(m, us), u) == AccountOf(m, u) && (Has(WithEmpty(m, us), u, a) <==> Has(m, u, a))
    ensures u in m ==> u in WithEmpty(m, us)
  {
  }

  lemma PaddedStore(m: Accounts, u: UserId, acc: Account, us: set<UserId>)
    ensures WithEmpty(m, us)[u := acc] == WithEmpty(m[u := acc], us)
  {
  }

  /** Empty accounts stay aside: whatever a command does, it does with them as without them. */
  lemma CommandPadded(m: Accounts, c: Cmd, us: set<UserId>)
    requires !c.Batch?
    ensures ApplyTx(WithEmpty(m, us), c) == Padded(ApplyTx(m, c), us)
  {
    hide WithEmpty, DoTouch, ApplyMatchExec, ApplyExecs, ApplyTradeSettle, ApplyAll;
    match c
    case TradeSettle(u, spend, n, gain, k) => TradeSettlePadded(m, u, spend, n, gain, k, us);
    case MatchExec(d) => MatchExecPadded(m, d.deal, us);
    case MatchExecBatch(ds) => ExecsPadded(m, ds, us);
    case OrderUpdate(_) =>
    case Deposit(u, a, _, _, _) => TouchPadded(m, Touch(u, a, TransferOp(c)), us);
    case Withdraw(u, a, _, _, _) => TouchPadded(m, Touch(u, a, TransferOp(c)), us);
    case Lock(u, a, _, _, _) => TouchPadded(m, Touch(u, a, TransferOp(c)), us);
    case Unlock(u, a, _, _, _) => TouchPadded(m, Touch(u, a, TransferOp(c)), us);
  }

  lemma PaddedReads(m: Accounts, us: set<UserId>)
    ensures forall u, a :: Get(WithEmpty(m, us), u, a) == Get(m, u, a)
  {
  }

  /** Creating empty accounts first changes neither how a command ends nor any balance it leaves, and
      nothing at all when it succeeds or is a transfer. */
  lemma EmptyAccountsDoNotMatter(m: Accounts, c: Cmd)
    requires !c.Batch?
    ensures var m' := WithEmpty(m, UsersOf(c));
            && ApplyTx(m', c) == Padded(ApplyTx(m, c), UsersOf(c))
            && (ApplyTx(m, c).Done? || IsTransfer(c) ==> ApplyTx(m', c) == ApplyTx(m, c))
  {
    CommandPadded(m, c, UsersOf(c));
    hide Padded;
    EmptyIsNothing(m, c);
  }

  lemma EmptyIsNothing(m: Accounts, c: Cmd)
    requires !c.Batch?
    ensures ApplyTx(m, c).Done? || IsTransfer(c) ==> ApplyTx(WithEmpty(m, UsersOf(c)), c) == ApplyTx(m, c)
  {
    var m' := WithEmpty(m, UsersOf(c));
    match c
    case MatchExec(d) => ExecsWithEmpty(m, [d]); OneExec(m, d); OneExec(m', d);
    case MatchExecBatch(ds) => ExecsWithEmpty(m, ds);
    case OrderUpdate(_) => assert m' == m;
    case TradeSettle(u, spend, _, _, _) => assert m[u := AccountOf(m, u)] == m'[u := AccountOf(m', u)];
      if !Has(m, u, spend) { assert !Has(m', u, spend); }
    case Deposit(u, a, _, _, _) => TransferWithEmpty(m, c);
    case Withdraw(u, a, _, _, _) => TransferWithEmpty(m, c);
    case Lock(u, a, _, _, _) => TransferWithEmpty(m, c);
    case Unlock(u, a, _, _, _) => TransferWithEmpty(m, c);
  }

  lemma TransferWithEmpty(m: Accounts, c: Cmd)
    requires IsTransfer(c)
    ensures ApplyTx(WithEmpty(m, {c.user}), c) == ApplyTx(m, c)
  {
    var m' := WithEmpty(m, {c.user});
    var acc := TouchAccount(AccountOf(m, c.user), c.asset, TransferOp(c));
    assert m'[c.user := acc] == m[c.user := acc];
  }

  lemma OneExec(m: Accounts, d: ExecData)
    ensures ApplyExecs(m, [d]) == ApplyMatchExec(m, d.deal)
    ensures ExecUsers([d]) == {d.deal.buyer, d.deal.seller}
  {
    assert [d][1..] == [];
  }

  lemma ExecsWithEmpty(m: Accounts, ds: seq<ExecData>)
    ensures var m' := WithEmpty(m, ExecUsers(ds));
            && (ApplyExecs(m, ds).Done? <==> ApplyExecs(m', ds).Done?)
            && (ApplyExecs(m, ds).Done? ==> m' == m)
  {
    var m' := WithEmpty(m, ExecUsers(ds));
    if ApplyExecs(m, ds).Done? || ApplyExecs(m', ds).Done? {
      forall u | u in ExecUsers(ds) ensures u in m {
        if ApplyExecs(m, ds).Done? {
          SettledUsersExist(m, ds, u);
        } else {
          SettledUsersExist(m', ds, u);
          assert m'[u] == AccountOf(m, u);
        }
      }
      assert m' == m;
    }
  }

  // ----- Batches and their leaves -----

  /** The commands a batch consists of, in the order they are applied and logged. */
  function Leaves(c: Cmd): seq<Cmd>
    decreases c, 1
  {
    if c.Batch? then LeavesOf(c.cmds) else [c]
  }

  function LeavesOf(cs: seq<Cmd>): seq<Cmd>
    decreases cs, 0
  {
    if cs == [] then [] else Leaves(cs[0]) + LeavesOf(cs[1..])
  }

  /** Nested batches mean their flattened list of commands. */
  lemma {:induction false} LeavesMeanTheBatch(m: Accounts, c: Cmd)
    ensures ApplyAll(m, Leaves(c)) == ApplyTx(m, c)
    decreases c, 1
  {
    match c
    case Batch(cs) => LeavesMeanTheList(m, cs);
    case _ =>
      assert [c][1..] == [];
  }

  lemma {:induction false} LeavesMeanTheList(m: Accounts, cs: seq<Cmd>)
    ensures ApplyAll(m, LeavesOf(cs)) == ApplyAll(m, cs)
    decreases cs, 0
  {
    if cs != [] {
      LeavesMeanTheBatch(m, cs[0]);
      ApplyAllAppend(m, Leaves(cs[0]), LeavesOf(cs[1..]));
      match ApplyTx(m, cs[0])
      case Done(m') => LeavesMeanTheList(m', cs[1..]);
      case _ =>
    }
  }

  // ----- Lists that fail half way -----

  /** How many commands succeed before the first that does not. */
  ghost function Succeeding(m: Accounts, cs: seq<Cmd>): (n: nat)
    ensures n <= |cs|
    decreases |cs|
  {
    if cs == [] then 0 else
    match ApplyTx(m, cs[0])
    case Done(m') => 1 + Succeeding(m', cs[1..])
    case _ => 0
  }

  /** What is recorded when a list of commands is tried: those before the first that fails. */
  ghost function Recorded(m: Accounts, pending: seq<Cmd>, cs: seq<Cmd>): seq<Cmd> {
    pending + cs[..Succeeding(m, cs)]
  }

  lemma {:induction false} RecordedAppend(m: Accounts, pending: seq<Cmd>, cs: seq<Cmd>, ds: seq<Cmd>)
    ensures Recorded(m, pending, cs + ds) ==
            match ApplyAll(m, cs)
            case Done(m') => Recorded(m', pending + cs, ds)
            case _ => Recorded(m, pending, cs)
    ensures ApplyAll(m, cs).Done? ==> Recorded(m, pending, cs) == pending + cs
    decreases |cs|
  {
    hide ApplyTx, Recorded, Succeeding;
    RecordedFirst(m, pending, cs);
    RecordedFirst(m, pending, cs + ds);
    if cs == [] {
      assert cs + ds == ds && pending + cs == pending;
    } else {
      assert (cs + ds)[0] == cs[0] && (cs + ds)[1..] == cs[1..] + ds;
      match ApplyTx(m, cs[0])
      case Done(m') =>
        RecordedAppend(m', pending + [cs[0]], cs[1..], ds);
        assert pending + [cs[0]] + cs[1..] == pending + cs;
      case _ =>
    }
  }

  lemma RecordedFirst(m: Accounts, pending: seq<Cmd>, cs: seq<Cmd>)
    ensures Recorded(m, pending, cs) ==
            if cs != [] && ApplyTx(m, cs[0]).Done?
            then Recorded(ApplyTx(m, cs[0]).accts, pending + [cs[0]], cs[1..]) else pending
  {
    hide ApplyTx;
    if cs != [] && ApplyTx(m, cs[0]).Done? {
      var n := Succeeding(ApplyTx(m, cs[0]).accts, cs[1..]);
      assert cs[..1 + n] == [cs[0]] + cs[1..][..n];
    }
  }
}
