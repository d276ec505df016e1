/** The ledger in the program's own form: the account table, the copy-on-write shadow, and the
    ledger with its write-ahead log (`src/ledger.rs`). */
module Ledgers {
  import opened Numbers
  import opened Options
  import opened Balances
  import opened LedgerSpec
  import opened LedgerOverlay
  import opened MirroredAccounts
  import opened UserAccounts
  import opened WalSpec
  import opened Recovery
  import FailedCommands
  import opened Wal

  type Table = map<UserId, AssetVec>

  /** The accounts a table of asset vectors stands for. */
  ghost function AccountsOf(t: Table): Accounts {
    map u | u in t :: View(t[u])
  }

  ghost predicate AllDistinct(t: Table) {
    forall u :: u in t ==> NoDuplicates(t[u])
  }

  lemma AccountsOfStore(t: Table, u: UserId, v: AssetVec)
    ensures AccountsOf(t[u := v]) == AccountsOf(t)[u := View(v)]
  {
  }

  datatype Verdict = Applied | Refused | Panic

  /** Verdict and final accounts together are the outcome `r`. */
  ghost predicate Matches(v: Verdict, m: Accounts, r: Tx) {
    match v
    case Applied => r == Done(m)
    case Refused => r == Failed(m)
    case Panic => r == Panicked
  }

  /** The `accounts` map that `apply_transaction` and `apply_match_exec` work on. */
  class AccountTable {
    var accounts: Table

    ghost predicate Valid()
      reads this
    {
      AllDistinct(accounts)
    }

    ghost function Accts(): Accounts
      reads this
    {
      AccountsOf(accounts)
    }

    constructor (accounts: Table)
      requires AllDistinct(accounts)
      ensures Valid() && this.accounts == accounts
    {
      this.accounts := accounts;
    }

    /** `accounts.entry(u).or_insert_with(UserAccount::new)`, then one balance operation. */
    method Transfer(u: UserId, a: AssetId, op: BalOp) returns (v: Verdict)
      requires Valid()
      modifies this
      ensures Valid()
      ensures Matches(v, Accts(), DoTouch(old(Accts()), Touch(u, a, op)))
    {
      var user := new UserAccount.Borrow(u, if u in accounts then accounts[u] else []);
      assert View(user.assets) == AccountOf(Accts(), u);
      var status := user.Operate(a, op);
      AccountsOfStore(accounts, u, user.assets);
      accounts := accounts[u := user.assets];
      v := if status == Success then Applied else Refused;
    }

    /** The deprecated `TradeSettle`: the result of the final deposit is ignored. */
    method TradeSettle(u: UserId, spend: AssetId, n: nat, gain: AssetId, k: nat) returns (v: Verdict)
      requires Valid()
      modifies this
      ensures Valid()
      ensures Matches(v, Accts(), ApplyTradeSettle(old(Accts()), u, spend, n, gain, k))
    {
      var user := new UserAccount.Borrow(u, if u in accounts then accounts[u] else []);
      assert View(user.assets) == AccountOf(Accts(), u);
      AccountsOfStore(accounts, u, user.assets);
      accounts := accounts[u := user.assets];
      var m0 := old(Accts())[u := AccountOf(old(Accts()), u)];
      assert Accts() == m0;
      var i := user.Find(spend);
      if i == |user.assets| {
        return Refused;
      }
      var status := user.OperateAt(i, SpendFrozen(n));
      AccountsOfStore(accounts, u, user.assets);
      accounts := accounts[u := user.assets];
      assert Accts() == DoTouch(m0, Touch(u, spend, SpendFrozen(n))).accts;
      if status != Success {
        return Refused;
      }
      ghost var m1 := Accts();
      status := user.Operate(gain, BalOp.Deposit(k));
      AccountsOfStore(accounts, u, user.assets);
      accounts := accounts[u := user.assets];
      assert Accts() == m1[u := TouchAccount(m1[u], gain, BalOp.Deposit(k))];
      return Applied;
    }

    /** `apply_match_exec`: read-only checks of both sides, then both settlements. */
    method ApplyMatchExec(s: Settlement) returns (v: Verdict)
      requires Valid()
      modifies this
      ensures Valid()
      ensures v == Panic || Matches(v, Accts(), LedgerSpec.ApplyMatchExec(old(Accts()), s))
      ensures v == Panic ==> LedgerSpec.ApplyMatchExec(old(Accts()), s).Panicked?
    {
      var quoteAmount := s.price * s.quantity;
      if quoteAmount > U64_MAX {
        return Refused;
      }
      if s.buyer !in accounts {
        return Refused;
      }
      var buyer := new UserAccount.Borrow(s.buyer, accounts[s.buyer]);
      var check := buyer.CheckBuyerBalance(s.quote, quoteAmount, s.buyerRefund);
      if check != Pass {
        return Refused;
      }
      if s.seller !in accounts {
        return Refused;
      }
      var seller := new UserAccount.Borrow(s.seller, accounts[s.seller]);
      check := seller.CheckSellerBalance(s.base, s.quantity, s.sellerRefund);
      if check != Pass {
        return Refused;
      }
      v := SettleBothSides(s, quoteAmount);
    }

    method SettleBothSides(s: Settlement, quoteAmount: nat) returns (v: Verdict)
      requires Valid() && s.buyer in accounts && s.seller in accounts
      requires quoteAmount == s.Cost()
      modifies this
      ensures Valid()
      ensures v == Applied ==> SettleBoth(old(Accts()), s) == Done(Accts())
      ensures v != Applied ==> v == Panic && SettleBoth(old(Accts()), s).Panicked?
    {
      hide RunTouches, DoTouch, RunOps, SettleOps, TouchesOf, BuyerTouches, SellerTouches, View, NoDuplicates;
      SettlementAsOps(s);
      ghost var m := Accts();
      LedgerRunIsAccountRun(m, s.buyer, SettleOps(s.quote, s.base, s.Cost(), s.quantity, s.buyerRefund));
      var buyer := new UserAccount.Borrow(s.buyer, accounts[s.buyer]);
      var ok := buyer.SettleAsBuyer(s.quote, s.base, quoteAmount, s.quantity, s.buyerRefund);
      if !ok {
        return Panic;
      }
      AccountsOfStore(accounts, s.buyer, buyer.assets);
      accounts := accounts[s.buyer := buyer.assets];
      ghost var m1 := Accts();
      assert RunTouches(m, BuyerTouches(s)) == Done(m1);
      LedgerRunIsAccountRun(m1, s.seller, SettleOps(s.base, s.quote, s.quantity, s.Cost(), s.sellerRefund));
      var seller := new UserAccount.Borrow(s.seller, accounts[s.seller]);
      ok := seller.SettleAsSeller(s.base, s.quote, s.quantity, quoteAmount, s.sellerRefund);
      if !ok {
        return Panic;
      }
      AccountsOfStore(accounts, s.seller, seller.assets);
      accounts := accounts[s.seller := seller.assets];
      return Applied;
    }

    method ApplyExecs(batch: seq<ExecData>) returns (v: Verdict)
      requires Valid()
      modifies this
      ensures Valid()
      ensures v == Panic || Matches(v, Accts(), LedgerSpec.ApplyExecs(old(Accts()), batch))
      ensures v == Panic ==> LedgerSpec.ApplyExecs(old(Accts()), batch).Panicked?
    {
      var i := 0;
      assert batch[0..] == batch;
      while i < |batch|
        invariant 0 <= i <= |batch|
        invariant Valid()
        invariant LedgerSpec.ApplyExecs(old(Accts()), batch) == LedgerSpec.ApplyExecs(Accts(), batch[i..])
      {
        v := ApplyMatchExec(batch[i].deal);
        if v != Applied {
          return;
        }
        assert batch[i..][1..] == batch[i + 1..];
        i := i + 1;
      }
      return Applied;
    }

    /** `apply_transaction`: the command tree is applied in order and abandoned at the first error. */
    method ApplyTransaction(c: Cmd) returns (v: Verdict)
      requires Valid()
      modifies this
      ensures Valid()
      ensures v == Panic || Matches(v, Accts(), ApplyTx(old(Accts()), c))
      ensures v == Panic ==> ApplyTx(old(Accts()), c).Panicked?
      decreases c
    {
      match c {
        case Deposit(u, a, n, _, _) => v := Transfer(u, a, BalOp.Deposit(n));
        case Withdraw(u, a, n, _, _) => v := Transfer(u, a, BalOp.Withdraw(n));
        case Lock(u, a, n, _, _) => v := Transfer(u, a, BalOp.Lock(n));
        case Unlock(u, a, n, _, _) => v := Transfer(u, a, BalOp.Unlock(n));
        case TradeSettle(u, spend, n, gain, k) => v := TradeSettle(u, spend, n, gain, k);
        case MatchExec(d) => v := ApplyMatchExec(d.deal);
        case MatchExecBatch(ds) => v := ApplyExecs(ds);
        case OrderUpdate(_) => v := Applied;
        case Batch(cs) =>
          var i := 0;
          assert cs[0..] == cs;
          while i < |cs|
            invariant 0 <= i <= |cs|
            invariant Valid()
            invariant ApplyAll(old(Accts()), cs) == ApplyAll(Accts(), cs[i..])
          {
            v := ApplyTransaction(cs[i]);
            if v != Applied {
              return;
            }
            assert cs[i..][1..] == cs[i + 1..];
            i := i + 1;
          }
          v := Applied;
      }
    }
  }

  /** `ShadowLedger`: buffered accounts over a ledger that it only reads. */
  class ShadowLedger {
    const below: AccountTable
    const delta: AccountTable
    var pending: seq<Cmd>

    ghost predicate Valid()
      reads this, below, delta
    {
      below != delta && below.Valid() && delta.Valid()
    }

    /** What reads through the shadow see. */
    ghost function Accts(): Accounts
      reads below, delta
    {
      below.Accts() + delta.Accts()
    }

    constructor (below: AccountTable)
      requires below.Valid()
      ensures Valid() && this.below == below && fresh(delta)
      ensures Accts() == below.Accts() && pending == [] && delta.accounts == map[]
    {
      this.below := below;
      delta := new AccountTable(map[]);
      pending := [];
      new;
      assert below.Accts() + map[] == below.Accts();
    }

    /** `get_balance`, `get_frozen` and `get_balance_version`: the delta first, then the ledger. */
    method GetBalance(u: UserId, a: AssetId) returns (b: Bal)
      requires Valid()
      ensures b == Get(Accts(), u, a)
    {
      var found: bool;
      if u in delta.accounts {
        var account := new UserAccount.Borrow(u, delta.accounts[u]);
        found, b := account.GetBalance(a);
      } else if u in below.accounts {
        var account := new UserAccount.Borrow(u, below.accounts[u]);
        found, b := account.GetBalance(a);
      } else {
        b := ZERO_BAL;
      }
    }

    /** `delta_accounts.entry(u).or_insert_with(|| real_ledger.get_account_copy(u))`. */
    method CopyAccount(u: UserId)
      requires Valid()
      modifies delta
      ensures Valid()
      ensures delta.Accts().Keys == old(delta.Accts()).Keys + {u}
      ensures Accts() == WithEmpty(old(Accts()), {u})
    {
      CopyIsWithEmpty(below.Accts(), delta.Accts(), u);
      assert View([]) == map[];
      hide View, WithEmpty;
      if u !in delta.accounts {
        var copy := if u in below.accounts then below.accounts[u] else [];
        AccountsOfStore(delta.accounts, u, copy);
        delta.accounts := delta.accounts[u := copy];
      }
    }

    method CopyPair(s: Settlement)
      requires Valid()
      modifies delta
      ensures Valid()
      ensures delta.Accts().Keys == old(delta.Accts()).Keys + {s.buyer, s.seller}
      ensures Accts() == WithEmpty(old(Accts()), {s.buyer, s.seller})
    {
      hide View, WithEmpty, NoDuplicates;
      CopyAccount(s.buyer);
      CopyAccount(s.seller);
      WithEmptyTwice(old(Accts()), {s.buyer}, {s.seller});
      assert {s.buyer} + {s.seller} == {s.buyer, s.seller};
    }

    method CopyUsers(batch: seq<ExecData>)
      requires Valid()
      modifies delta
      ensures Valid()
      ensures ExecUsers(batch) <= delta.Accts().Keys
      ensures Accts() == WithEmpty(old(Accts()), ExecUsers(batch))
    {
      hide View, WithEmpty, NoDuplicates;
      var i := 0;
      ghost var done: set<UserId> := {};
      WithNobody(Accts());
      while i < |batch|
        invariant 0 <= i <= |batch|
        invariant Valid()
        invariant done <= delta.Accts().Keys
        invariant ExecUsers(batch) == done + ExecUsers(batch[i..])
        invariant Accts() == WithEmpty(old(Accts()), done)
      {
        CopyPair(batch[i].deal);
        WithEmptyTwice(old(Accts()), done, {batch[i].deal.buyer, batch[i].deal.seller});
        done := done + {batch[i].deal.buyer, batch[i].deal.seller};
        assert batch[i..][1..] == batch[i + 1..];
        i := i + 1;
      }
    }

    method CopyFor(c: Cmd)
      requires Valid() && !c.Batch?
      modifies delta
      ensures Valid()
      ensures UsersOf(c) <= delta.Accts().Keys
      ensures Accts() == WithEmpty(old(Accts()), UsersOf(c))
    {
      if c.MatchExec? {
        CopyPair(c.data.deal);
      } else if c.MatchExecBatch? {
        CopyUsers(c.batch);
      } else if c.OrderUpdate? {
        WithNobody(Accts());
      } else {
        CopyAccount(c.user);
      }
    }

    /** `apply`: copy the users, apply to the delta, and record the command if that succeeded.
        A batch is taken apart and its members are recorded one by one, up to the first that fails. */
    method Apply(c: Cmd) returns (v: Verdict)
      requires Valid()
      modifies this, delta
      ensures Valid()
      ensures v == Applied <==> ApplyTx(old(Accts()), c).Done?
      ensures v == Refused <==> ApplyTx(old(Accts()), c).Failed?
      ensures v == Applied || IsTransfer(c) ==> !ApplyTx(old(Accts()), c).Panicked? &&
                                                Accts() == ApplyTx(old(Accts()), c).accts
      ensures v == Refused ==> forall u, a :: Get(Accts(), u, a) == Get(ApplyTx(old(Accts()), c).accts, u, a)
      ensures v == Applied ==> pending == old(pending) + Leaves(c)
      ensures pending == Recorded(old(Accts()), old(pending), Leaves(c))
      decreases c
    {
      hide View, WithEmpty, NoDuplicates, UsersOf, ApplyAll, AccountsOf, LedgerSpec.Get;
      if c.Batch? {
        v := ApplyList(c.cmds);
        BatchIsList(old(Accts()), c);
        return;
      }
      RecordedOne(old(Accts()), pending, c);
      CopyFor(c);
      EmptyAccountsDoNotMatter(old(Accts()), c);
      if ApplyTx(old(Accts()), c).Failed? {
        PaddedReads(ApplyTx(old(Accts()), c).accts, UsersOf(c));
      }
      CommandInOverlay(below.Accts(), delta.Accts(), c);
      v := delta.ApplyTransaction(c);
      if v == Applied {
        pending := pending + [c];
      }
    }

    method ApplyList(cs: seq<Cmd>) returns (v: Verdict)
      requires Valid()
      modifies this, delta
      ensures Valid()
      ensures v == Applied <==> ApplyAll(old(Accts()), cs).Done?
      ensures v == Refused <==> ApplyAll(old(Accts()), cs).Failed?
      ensures v == Applied ==> Accts() == ApplyAll(old(Accts()), cs).accts
      ensures v == Refused ==> forall u, a :: Get(Accts(), u, a) == Get(ApplyAll(old(Accts()), cs).accts, u, a)
      ensures v == Applied ==> pending == old(pending) + LeavesOf(cs)
      ensures pending == Recorded(old(Accts()), old(pending), LeavesOf(cs))
      decreases cs
    {
      hide ApplyTx, Leaves, AccountsOf, NoDuplicates, View, Recorded, Succeeding, LedgerSpec.Get;
      var i := 0;
      assert cs[0..] == cs;
      while i < |cs|
        invariant 0 <= i <= |cs|
        invariant Valid()
        invariant ApplyAll(old(Accts()), cs) == ApplyAll(Accts(), cs[i..])
        invariant pending + LeavesOf(cs[i..]) == old(pending) + LeavesOf(cs)
        invariant Recorded(Accts(), pending, LeavesOf(cs[i..])) == Recorded(old(Accts()), old(pending), LeavesOf(cs))
      {
        LeavesMeanTheBatch(Accts(), cs[i]);
        RecordedAppend(Accts(), pending, Leaves(cs[i]), LeavesOf(cs[i + 1..]));
        assert cs[i..][1..] == cs[i + 1..];
        v := Apply(cs[i]);
        if v != Applied {
          return;
        }
        assert cs[i..][1..] == cs[i + 1..];
        i := i + 1;
      }
      RecordedNone(Accts(), pending);
      return Applied;
    }
  }

  lemma RecordedNone(m: Accounts, pending: seq<Cmd>)
    ensures Recorded(m, pending, []) == pending
  {
  }

  lemma RecordedOne(m: Accounts, pending: seq<Cmd>, c: Cmd)
    requires !c.Batch?
    ensures Leaves(c) == [c]
    ensures Recorded(m, pending, [c]) == if ApplyTx(m, c).Done? then pending + [c] else pending
  {
    hide ApplyTx;
    assert [c][1..] == [];
    match ApplyTx(m, c)
    case Done(m') => assert Succeeding(m', [c][1..]) == 0;
    case _ =>
  }

  lemma BatchIsList(m: Accounts, c: Cmd)
    requires c.Batch?
    ensures ApplyTx(m, c) == ApplyAll(m, c.cmds) && Leaves(c) == LeavesOf(c.cmds)
  {
    hide ApplyAll, LeavesOf;
  }

  /** Index of the first command whose record is larger than a whole segment, or the length. */
  function FirstTooLarge(k: Codec, cs: seq<Cmd>, limit: nat): (i: nat)
    ensures i <= |cs|
  {
    if cs == [] || RecordSize(k, cs[0]) > limit then 0 else 1 + FirstTooLarge(k, cs[1..], limit)
  }

  lemma TooLargeStep(k: Codec, cs: seq<Cmd>, i: nat, limit: nat)
    requires i < |cs|
    ensures FirstTooLarge(k, cs[i..], limit) ==
            if RecordSize(k, cs[i]) > limit then 0 else 1 + FirstTooLarge(k, cs[i + 1..], limit)
  {
    hide RecordSize;
    assert cs[i..][1..] == cs[i + 1..];
  }

  lemma TooLargeNone(k: Codec, cs: seq<Cmd>, limit: nat)
    ensures FirstTooLarge(k, cs[|cs|..], limit) == 0
  {
  }

  lemma LoggedSnoc(cs: seq<Cmd>, first: nat, i: nat)
    requires i < |cs|
    ensures Logged(cs[..i + 1], first) == Logged(cs[..i], first) + [LogRecord(first + i, cs[i])]
  {
    assert cs[..i + 1] == cs[..i] + [cs[i]];
    LoggedAppend(cs[..i], [cs[i]], first);
    OneCommand(map[], cs[i], first + i);
  }

  lemma LoggedNone(log: seq<LogRecord>, cs: seq<Cmd>, first: nat)
    ensures cs[0..] == cs && Logged(cs[..0], first) == [] && log + [] == log
  {
  }

  lemma OneCommand(m: Accounts, c: Cmd, first: nat)
    ensures ApplyAll(m, [c]) == ApplyTx(m, c)
    ensures Logged([c], first) == [LogRecord(first, c)]
  {
    assert [c][1..] == [];
  }

  /** What a log holds after a run: the run's commands, numbered. */
  ghost predicate IsLogOf(history: seq<Cmd>, lastSeq: nat, log: seq<LogRecord>) {
    lastSeq == |history| && log == Logged(history, 1)
  }

  lemma RecordsGrow(history: seq<Cmd>, lastSeq: nat, log: seq<LogRecord>, cs: seq<Cmd>)
    requires IsLogOf(history, lastSeq, log)
    ensures IsLogOf(history + cs, lastSeq + |cs|, log + Logged(cs, lastSeq + 1))
  {
    hide Logged;
    LoggedAppend(history, cs, 1);
  }

  lemma RecordsGrowByOne(history: seq<Cmd>, lastSeq: nat, log: seq<LogRecord>, c: Cmd)
    requires IsLogOf(history, lastSeq, log)
    ensures IsLogOf(history + [c], lastSeq + 1, log + [LogRecord(lastSeq + 1, c)])
  {
    OneCommand(map[], c, lastSeq + 1);
    RecordsGrow(history, lastSeq, log, [c]);
  }

  lemma FoldGrows(m0: Accounts, history: seq<Cmd>, m: Accounts, cs: seq<Cmd>)
    requires ApplyAll(m0, history) == Done(m)
    ensures ApplyAll(m0, history + cs) == ApplyAll(m, cs)
    ensures forall c :: ApplyAll(m, [c]) == ApplyTx(m, c)
  {
    hide ApplyTx, ApplyAll;
    ApplyAllAppend(m0, history, cs);
    forall c ensures ApplyAll(m, [c]) == ApplyTx(m, c) {
      OneCommand(m, c, 0);
    }
  }

  /** A snapshot file: the sequence number in its name, which it also holds, and the accounts. */
  datatype SnapshotFile = SnapshotFile(lastSeq: nat, accounts: Table)

  ghost function SnapshotOf(f: SnapshotFile): Snapshot {
    Snapshot(f.lastSeq, AccountsOf(f.accounts))
  }

  ghost function SnapshotsOf(dir: seq<SnapshotFile>): seq<Snapshot> {
    seq(|dir|, i requires 0 <= i < |dir| => SnapshotOf(dir[i]))
  }

  lemma LatestStep(dir: seq<SnapshotFile>, i: nat)
    requires i < |dir|
    ensures var best, s := Latest(SnapshotsOf(dir[..i])), SnapshotOf(dir[i]);
            Latest(SnapshotsOf(dir[..i + 1])) == if s.lastSeq > best.lastSeq then s else best
    ensures dir[..|dir|] == dir
  {
    var grown := SnapshotsOf(dir[..i + 1]);
    assert grown[..|grown| - 1] == SnapshotsOf(dir[..i]);
  }

  lemma OrderedAbove(log: seq<LoggedSegment>, n: nat, k: nat)
    requires Ordered(log) && Below(log, n) && n <= k
    ensures Ordered(log) && Below(log, k)
  {
  }

  /** `GlobalLedger`, without the optional listener. */
  class GlobalLedger {
    const table: AccountTable
    /** Absent once `take_wal` has taken it away. */
    const wal: RollingWal?
    var lastSeq: nat
    /** Every command applied so far, and every command logged so far. */
    ghost var history: seq<Cmd>
    ghost var calls: seq<Cmd>

    ghost predicate Valid()
      reads this, table, WalRepr()
    {
      table.Valid() && (wal != null ==> wal.Valid() && this !in wal.Repr && table !in wal.Repr)
    }

    ghost function WalRepr(): set<object>
      reads wal
    {
      if wal != null then {wal} + wal.Repr else {}
    }

    ghost function Accts(): Accounts
      reads table
    {
      table.Accts()
    }

    /** What the log holds, oldest record first. */
    ghost function WalRecords(): seq<LogRecord>
      reads wal
    {
      if wal != null then wal.Records() else []
    }

    /** The next number to log is the one the last segment expects. */
    ghost predicate InStep()
      reads this, wal
    {
      wal != null && wal.InOrder() && lastSeq + 1 == wal.first + |wal.Records()|
    }

    /** The log holds exactly the applied commands. */
    ghost predicate Logs()
      reads this, wal
    {
      InStep() && wal.first == 1 && IsLogOf(history, lastSeq, wal.Records())
    }

    /** And applying them gives the accounts. */
    ghost predicate Faithful()
      reads this, table, wal
    {
      Logs() && ApplyAll(map[], history) == Done(Accts())
    }

    /** The log is ordered, and nothing in it has a number above the next one. */
    ghost predicate Orderly()
      reads this`lastSeq, wal
    {
      wal != null && wal.OrderedUpTo(lastSeq + 1)
    }

    /** Number, accounts and log are those of a run of `apply`, refused commands included. */
    ghost predicate Ran()
      reads this, table, wal
    {
      Orderly() && FailedCommands.IsRun(calls, Snapshot(lastSeq, Accts()), wal.Records())
    }

    /** The commands after the first `k`, applied to `m`, give the ledger's balances. */
    ghost predicate RebuildsFrom(k: nat, m: Accounts)
      reads this, table
    {
      k <= |history| && ApplyAll(m, history[k..]).Done? && Mirrors(ApplyAll(m, history[k..]).accts, Accts())
    }

    ghost predicate Fits(c: Cmd) {
      wal != null ==> RecordSize(wal.codec, c) <= wal.segmentSize
    }

    /** How many commands the log takes before one does not fit a segment. */
    ghost function Loggable(cs: seq<Cmd>): (n: nat)
      ensures n <= |cs|
    {
      if wal == null then |cs| else FirstTooLarge(wal.codec, cs, wal.segmentSize)
    }

    /** The log has grown by the first `n` commands, numbered on; without a log nothing moves. */
    twostate predicate LoggedSince(cs: seq<Cmd>, n: nat)
      requires n <= |cs|
      reads this, wal
    {
      if wal == null then lastSeq == old(lastSeq) else
      && lastSeq == old(lastSeq) + n
      && WalRecords() == old(WalRecords()) + Logged(cs[..n], old(lastSeq) + 1)
    }

    /** A ledger with no snapshot and no log. */
    constructor (codec: Codec, segmentSize: nat)
      ensures Valid() && Faithful() && Ran() && fresh(table) && fresh(WalRepr())
      ensures Accts() == map[] && lastSeq == 0
      ensures wal.codec == codec && wal.segmentSize == segmentSize
    {
      table := new AccountTable(map[]);
      wal := new RollingWal(codec, 1, segmentSize);
      lastSeq, history, calls := 0, [], [];
      new;
      FlattenOne(LoggedSegment(1, []));
      FailedCommands.NothingCalled();
    }

    method LogNext(c: Cmd) returns (ok: bool)
      requires Valid() && wal != null
      modifies this`lastSeq, WalRepr()
      ensures Valid() && fresh(WalRepr() - old(WalRepr()))
      ensures ok <==> Fits(c)
      ensures ok ==> lastSeq == old(lastSeq) + 1
      ensures ok ==> WalRecords() == old(WalRecords()) + [LogRecord(old(lastSeq) + 1, c)]
      ensures !ok ==> lastSeq == old(lastSeq) && WalRecords() == old(WalRecords())
      ensures old(InStep()) ==> InStep()
      ensures old(Orderly()) ==> Orderly()
    {
      hide Ordered, Below, RollingWal.Valid, Flatten, Numbered, RecordSize;
      var newSeq := lastSeq + 1;
      ok := wal.Append(newSeq, c);
      if wal.OrderedUpTo(newSeq) {
        OrderedAbove(wal.log, newSeq, newSeq + 1);
      }
      if ok {
        lastSeq := newSeq;
      }
    }

    /** `append_to_wal`: stops at the first record that does not fit a segment; without a log it
        does not even advance the sequence number. */
    method AppendToWal(cs: seq<Cmd>) returns (ok: bool)
      requires Valid()
      modifies this`lastSeq, WalRepr()
      ensures Valid() && fresh(WalRepr() - old(WalRepr()))
      ensures ok <==> Loggable(cs) == |cs|
      ensures LoggedSince(cs, Loggable(cs))
      ensures old(InStep()) ==> InStep()
      ensures old(Orderly()) ==> Orderly()
    {
      hide Ordered, Below, Logged, Numbered, Flatten, RecordSize, RollingWal.Valid, FirstTooLarge;
      if wal == null {
        return true;
      }
      var i := 0;
      ghost var log0, seq0, inStep0, orderly0 := WalRecords(), lastSeq, InStep(), Orderly();
      ghost var added: seq<LogRecord> := [];
      LoggedNone(log0, cs, seq0 + 1);
      while i < |cs|
        invariant 0 <= i <= Loggable(cs)
        invariant Valid() && fresh(WalRepr() - old(WalRepr()))
        invariant Loggable(cs) == i + FirstTooLarge(wal.codec, cs[i..], wal.segmentSize)
        invariant lastSeq == seq0 + i
        invariant WalRecords() == log0 + added && added == Logged(cs[..i], seq0 + 1)
        invariant inStep0 ==> InStep()
        invariant orderly0 ==> Orderly()
      {
        LoggedSnoc(cs, seq0 + 1, i);
        TooLargeStep(wal.codec, cs, i, wal.segmentSize);
        var appended := LogNext(cs[i]);
        if !appended {
          return false;
        }
        assert log0 + added + [LogRecord(lastSeq, cs[i])] == log0 + (added + [LogRecord(lastSeq, cs[i])]);
        added := added + [LogRecord(lastSeq, cs[i])];
        i := i + 1;
      }
      TooLargeNone(wal.codec, cs, wal.segmentSize);
      return true;
    }

    /** `apply_delta_to_memory`. */
    method Install(delta: Table)
      requires table.Valid() && AllDistinct(delta)
      modifies table
      ensures table.Valid() && Accts() == old(Accts()) + AccountsOf(delta)
    {
      table.accounts := table.accounts + delta;
    }

    /** `commit_delta`: log first, then install the changed accounts. */
    method CommitDelta(cs: seq<Cmd>, delta: Table) returns (ok: bool)
      requires Valid() && AllDistinct(delta)
      modifies this, table, WalRepr()
      ensures Valid() && fresh(WalRepr() - old(WalRepr()))
      ensures ok <==> Loggable(cs) == |cs|
      ensures Accts() == if ok then old(Accts()) + AccountsOf(delta) else old(Accts())
      ensures LoggedSince(cs, Loggable(cs))
      ensures ok && old(Logs()) ==> Logs()
      ensures ok && old(Faithful()) ==> (Faithful() <==> ApplyAll(old(Accts()), cs) == Done(Accts()))
      ensures ok && old(Ran()) && ApplyAll(old(Accts()), cs) == Done(Accts()) ==> Ran()
      ensures calls == if ok then old(calls) + cs else old(calls)
      ensures history == if ok then old(history) + cs else old(history)
    {
      hide IsLogOf, Logged, ApplyAll, FirstTooLarge, RollingWal.Valid, RollingWal.InOrder, AccountsOf, Ordered, Below,
           FailedCommands.IsRun;
      ghost var seq0, logs, faithful, ran, m := lastSeq, Logs(), Faithful(), Ran(), Accts();
      ghost var log := WalRecords();
      ok := AppendToWal(cs);
      if !ok {
        return;
      }
      Install(delta);
      assert cs[..|cs|] == cs;
      if logs {
        RecordsGrow(history, seq0, log, cs);
      }
      if faithful {
        FoldGrows(map[], history, m, cs);
      }
      if ran && ApplyAll(m, cs) == Done(Accts()) {
        FailedCommands.ListExtendsRun(calls, Snapshot(seq0, m), log, cs);
      }
      history, calls := history + cs, calls + cs;
    }

    /** Phase 1 of `commit_batch`: run the commands on a shadow, without side effects. */
    method Validate(cs: seq<Cmd>) returns (ok: bool, delta: Table)
      requires table.Valid()
      ensures AllDistinct(delta)
      ensures ok <==> ApplyAll(Accts(), cs).Done?
      ensures ok ==> ApplyAll(Accts(), cs) == Done(Accts() + AccountsOf(delta))
    {
      var shadow := new ShadowLedger(table);
      var v := shadow.ApplyList(cs);
      ok, delta := v == Applied, shadow.delta.accounts;
    }

    /** `commit_batch`: validate on a shadow, then commit. It refines the sequential fold: when the
        fold fails nothing changes at all; when it succeeds and every record fits a segment, the
        result is exactly the fold, with the sequence number advanced by the list's length. The
        one other case, a record too large for a segment, has by then logged the commands before it. */
    method CommitBatch(cs: seq<Cmd>) returns (ok: bool)
      requires Valid()
      modifies this, table, WalRepr()
      ensures Valid() && fresh(WalRepr() - old(WalRepr()))
      ensures ok <==> ApplyAll(old(Accts()), cs).Done? && Loggable(cs) == |cs|
      ensures ok ==> ApplyAll(old(Accts()), cs) == Done(Accts())
      ensures !ok ==> Accts() == old(Accts())
      ensures LoggedSince(cs, if ApplyAll(old(Accts()), cs).Done? then Loggable(cs) else 0)
      ensures old(Faithful()) && (ok || !ApplyAll(old(Accts()), cs).Done?) ==> Faithful()
      ensures old(Ran()) && (ok || !ApplyAll(old(Accts()), cs).Done?) ==> Ran()
      ensures history == if ok then old(history) + cs else old(history)
      ensures calls == if ok then old(calls) + cs else old(calls)
    {
      hide Ordered, Below, FailedCommands.IsRun, Logged, ApplyAll, FirstTooLarge, IsLogOf, AccountsOf,
           RollingWal.Valid, RecordSize, Numbered, Flatten;
      var delta;
      ok, delta := Validate(cs);
      if ok {
        ok := CommitDelta(cs, delta);
      } else {
        LoggedNone(WalRecords(), cs, lastSeq + 1);
      }
    }

    /** The effects of `apply`, before the ghost history is extended. */
    method LogThenApply(c: Cmd) returns (v: Verdict)
      requires Valid()
      modifies this`lastSeq, table, WalRepr()
      ensures Valid() && fresh(WalRepr() - old(WalRepr()))
      ensures v == Applied <==> Fits(c) && ApplyTx(old(Accts()), c).Done?
      ensures v == Applied ==> ApplyTx(old(Accts()), c) == Done(Accts())
      ensures v == Refused && Fits(c) ==> ApplyTx(old(Accts()), c) == Failed(Accts())
      ensures lastSeq == if v == Applied then old(lastSeq) + 1 else old(lastSeq)
      ensures !Fits(c) ==> Accts() == old(Accts()) && WalRecords() == old(WalRecords())
      ensures wal != null && Fits(c) ==>
                WalRecords() == old(WalRecords()) + [LogRecord(old(lastSeq) + 1, c)]
      ensures v == Applied && old(InStep()) ==> InStep()
      ensures old(Orderly()) ==> Orderly()
      ensures v == Panic <==> Fits(c) && ApplyTx(old(Accts()), c).Panicked?
    {
      hide ApplyTx, AccountsOf, RollingWal.Valid, Flatten, Numbered, RecordSize, Ordered, Below;
      var newSeq := lastSeq + 1;
      if wal != null {
        var appended := wal.Append(newSeq, c);
        if wal.OrderedUpTo(newSeq) {
          OrderedAbove(wal.log, newSeq, newSeq + 1);
        }
        if !appended {
          return Refused;
        }
      }
      v := table.ApplyTransaction(c);
      if v == Applied {
        lastSeq := newSeq;
      }
    }

    /** `apply`: the record is logged before the command is validated, so a refused command stays
        in the log under a number that will be used again, and a batch may be half applied. */
    method Apply(c: Cmd) returns (v: Verdict)
      requires Valid()
      modifies this, table, WalRepr()
      ensures Valid() && fresh(WalRepr() - old(WalRepr()))
      ensures v == Applied <==> Fits(c) && ApplyTx(old(Accts()), c).Done?
      ensures v == Applied ==> ApplyTx(old(Accts()), c) == Done(Accts())
      ensures v == Refused && Fits(c) ==> ApplyTx(old(Accts()), c) == Failed(Accts())
      ensures lastSeq == if v == Applied then old(lastSeq) + 1 else old(lastSeq)
      ensures !Fits(c) ==> Accts() == old(Accts()) && WalRecords() == old(WalRecords())
      ensures wal != null && Fits(c) ==>
                WalRecords() == old(WalRecords()) + [LogRecord(old(lastSeq) + 1, c)]
      ensures v == Applied ==> history == old(history) + [c]
      ensures v == Applied && old(Logs()) ==> Logs()
      ensures v == Applied && old(Faithful()) ==> Faithful()
      ensures v != Panic && old(Ran()) ==> Ran()
      ensures v == Panic <==> Fits(c) && ApplyTx(old(Accts()), c).Panicked?
      ensures calls == if Fits(c) then old(calls) + [c] else old(calls)
    {
      hide IsLogOf, ApplyTx, ApplyAll, AccountsOf, RollingWal.Valid, Flatten, Numbered, RecordSize, Ordered, Below,
           FailedCommands.IsRun;
      ghost var seq0, logs, faithful, ran, m := lastSeq, Logs(), Faithful(), Ran(), Accts();
      ghost var log := WalRecords();
      v := LogThenApply(c);
      if ran && v != Panic && Fits(c) {
        FailedCommands.CallExtendsRun(calls, Snapshot(seq0, m), log, c);
      }
      calls := if Fits(c) then calls + [c] else calls;
      if v == Applied {
        if logs {
          RecordsGrowByOne(history, seq0, log, c);
        }
        if faithful {
          FoldGrows(map[], history, m, [c]);
        }
        history := history + [c];
      }
    }

    /** `find_latest_snapshot`. */
    static method FindLatestSnapshot(dir: seq<SnapshotFile>) returns (found: Option<SnapshotFile>)
      ensures Latest(SnapshotsOf(dir)) == if found.Some? then SnapshotOf(found.value) else Snapshot(0, map[])
      ensures found.Some? ==> found.value in dir
    {
      var maxSeq := 0;
      found := None;
      var i := 0;
      while i < |dir|
        invariant i <= |dir|
        invariant Latest(SnapshotsOf(dir[..i])) == if found.Some? then SnapshotOf(found.value) else Snapshot(0, map[])
        invariant found.Some? ==> found.value in dir
        invariant maxSeq == Latest(SnapshotsOf(dir[..i])).lastSeq
      {
        LatestStep(dir, i);
        if dir[i].lastSeq > maxSeq {
          maxSeq := dir[i].lastSeq;
          found := Some(dir[i]);
        }
        i := i + 1;
      }
      assert dir[..i] == dir;
    }

    /** `new`, as far as it rebuilds the ledger: the newest snapshot, then the replay. */
    static method Recover(k: Codec, dir: seq<SnapshotFile>, files: seq<SegmentFile>)
      returns (ok: bool, table: AccountTable, lastSeq: nat)
      requires forall f :: f in dir ==> AllDistinct(f.accounts)
      ensures fresh(table) && table.Valid()
      ensures Recovery.Recover(k, SnapshotsOf(dir), files) ==
              if ok then Some(Snapshot(lastSeq, table.Accts())) else None
    {
      hide Latest, Resume, SnapshotsOf;
      var accounts, recoveredSeq := map[], 0;
      assert AccountsOf(accounts) == map[];
      var found := FindLatestSnapshot(dir);
      if found.Some? {
        accounts, recoveredSeq := found.value.accounts, found.value.lastSeq;
      }
      ok, table, lastSeq := Replay(k, accounts, recoveredSeq, files);
    }

    /** The replay loop: segments in order, records until the segment ends. */
    static method Replay(k: Codec, accounts: Table, seqNo: nat, files: seq<SegmentFile>)
      returns (ok: bool, table: AccountTable, lastSeq: nat)
      requires AllDistinct(accounts)
      ensures fresh(table) && table.Valid()
      ensures Recovery.Resume(k, Snapshot(seqNo, AccountsOf(accounts)), files) ==
              if ok then Some(Snapshot(lastSeq, table.Accts())) else None
    {
      table := new AccountTable(accounts);
      lastSeq := seqNo;
      ghost var start := Snapshot(seqNo, AccountsOf(accounts));
      var i := StartIndex(files, seqNo);
      while i < |files|
        invariant i <= |files|
        invariant table.Valid() && fresh(table)
        invariant Recovery.Resume(k, start, files) ==
                  ReplayFiles(k, Snapshot(lastSeq, table.Accts()), files[i..])
      {
        ok, lastSeq := ReplayFile(k, table, lastSeq, files[i].bytes);
        if !ok {
          return;
        }
        assert files[i..][1..] == files[i + 1..];
        i := i + 1;
      }
      ok := true;
    }

    static method ReplayFile(k: Codec, table: AccountTable, seqNo: nat, bytes: seq<byte>)
      returns (ok: bool, lastSeq: nat)
      requires table.Valid()
      modifies table
      ensures table.Valid()
      ensures var c := ReadAll(k, bytes);
              var r := ReplayRecords(Snapshot(seqNo, old(table.Accts())), c.records);
              (ok <==> r.Some? && c.clean) && (ok ==> r.value == Snapshot(lastSeq, table.Accts()))
    {
      lastSeq := seqNo;
      ghost var all := ReadAll(k, bytes);
      ghost var start := Snapshot(seqNo, table.Accts());
      var rest := bytes;
      var read := ReadRecord(k, rest);
      while read.Item?
        invariant read == ReadRecord(k, rest)
        invariant table.Valid()
        invariant ReadAll(k, rest).clean == all.clean
        invariant ReplayRecords(start, all.records) ==
                  ReplayRecords(Snapshot(lastSeq, table.Accts()), ReadAll(k, rest).records)
        decreases |rest|
      {
        ghost var tail := ReadAll(k, rest[read.consumed..]).records;
        assert ReadAll(k, rest).records == [read.rec] + tail;
        assert ([read.rec] + tail)[1..] == tail;
        if read.rec.seqNo > lastSeq {
          if read.rec.seqNo != lastSeq + 1 {
            return false, lastSeq;
          }
          var v := table.ApplyTransaction(read.rec.cmd);
          if v != Applied {
            return false, lastSeq;
          }
          lastSeq := read.rec.seqNo;
        }
        rest := rest[read.consumed..];
        read := ReadRecord(k, rest);
      }
      ok := read.End?;
    }

    /** A snapshot of the ledger as it is, and for a faithful ledger one of any past state, is a snapshot
        it can be rebuilt from. */
    lemma PastStatesRebuild(k: nat)
      requires k <= |history|
      ensures RebuildsFrom(|history|, Accts())
      ensures Faithful() ==> RebuildsFrom(k, StateAfter(history, k).accts)
                             && ApplyAll(StateAfter(history, k).accts, history[k..]) == Done(Accts())
    {
      hide ApplyTx;
      MirrorsItself(Accts());
      assert history[|history|..] == [];
    }

    /** End to end on bytes: from the segment files from the `j`-th on and any snapshots of which the newest
        is one that the ledger can be rebuilt from, recovery gives every balance of the ledger's present
        state, or refuses, and which of the two is decided by whether the kept files reach back to the
        snapshot. Where the commands lead to the very accounts, entries included, recovery gives those. */
    method CrashAndRecover(dir: seq<SnapshotFile>, j: nat) returns (ok: bool, table: AccountTable, seqNo: nat)
      requires Valid() && Logs() && wal.codec.Lawful() && AllReadable(wal.codec, WalRecords())
      requires forall f :: f in dir ==> AllDistinct(f.accounts)
      requires RebuildsFrom(Latest(SnapshotsOf(dir)).lastSeq, Latest(SnapshotsOf(dir)).accts)
      requires j < |wal.log|
      requires Flatten(wal.log[j..]) != [] || Latest(SnapshotsOf(dir)).lastSeq == |history|
      ensures var s := Latest(SnapshotsOf(dir));
              && (ok <==> wal.log[j].start <= s.lastSeq + 1)
              && (ok ==> seqNo == lastSeq && Mirrors(table.Accts(), Accts()))
              && (ok && ApplyAll(s.accts, history[s.lastSeq..]) == Done(Accts()) ==> table.Accts() == Accts())
    {
      hide ApplyAll, Mirrors, Flatten, Numbered, AllReadable, Logged, FilesHold, AccountsOf, RollingWal.Valid, Latest,
           SnapshotsOf, Recovery.Recover, AllDistinct;
      var files := wal.Files();
      FilesFrom(wal.codec, files, wal.log, j);
      ok, table, seqNo := Recover(wal.codec, dir, files[j..]);
      RecoveryAppliesTheRest(wal.codec, history, SnapshotsOf(dir), wal.log, j, files[j..]);
    }

    /** The same for any run of `apply`, with refused commands in the log: from the files and any snapshots of
        which the newest was taken after the first `p` calls. When the oldest of the refusals just before
        the snapshot does not succeed on it, recovery gives the ledger's present state or refuses. */
    method CrashAfterRefusals(dir: seq<SnapshotFile>, ghost p: nat)
      returns (ok: bool, table: AccountTable, seqNo: nat)
      requires Valid() && Ran() && wal.codec.Lawful() && AllReadable(wal.codec, WalRecords())
      requires forall f :: f in dir ==> AllDistinct(f.accounts)
      requires p <= |calls|
      requires Latest(SnapshotsOf(dir)) == FailedCommands.AfterRun(FailedCommands.EMPTY_LEDGER, calls[..p])
      ensures ReplayRecords(Latest(SnapshotsOf(dir)), WalRecords()) ==
              if ok then Some(Snapshot(seqNo, table.Accts())) else None
      ensures ok ==>
                || (seqNo == lastSeq && table.Accts() == Accts())
                || exists i :: FailedCommands.SucceedsLate(FailedCommands.EMPTY_LEDGER, calls[..p], i)
    {
      hide ApplyAll, Flatten, AllReadable, FilesHold, AccountsOf, RollingWal.Valid, Latest, SnapshotsOf,
           Recovery.Recover,
           AllDistinct, Ordered, Below, ReplayRecords, FailedCommands.AfterRun, FailedCommands.SucceedsLate,
           FailedCommands.LogOf, FailedCommands.Survives;
      var files := wal.Files();
      ok, table, seqNo := Recover(wal.codec, dir, files);
      ghost var past, later := calls[..p], calls[p..];
      assert calls == past + later;
      FailedCommands.RecoveryReplaysTheRun(wal.codec, past, later, SnapshotsOf(dir), wal.log, files);
      FailedCommands.SurvivesInit(FailedCommands.EMPTY_LEDGER, calls, p);
      if forall i :: !FailedCommands.SucceedsLate(FailedCommands.EMPTY_LEDGER, past, i) {
        FailedCommands.NoneSucceedsLate(FailedCommands.EMPTY_LEDGER, past, later);
      }
    }
  }

  lemma FilesFrom(k: Codec, files: seq<SegmentFile>, log: seq<LoggedSegment>, j: nat)
    requires FilesHold(k, files, log) && j <= |log|
    ensures |files| == |log| && FilesHold(k, files[j..], log[j..])
  {
    hide FileHolds;
  }
}
