/** One user's account: a vector of (asset, balance) pairs (`src/user_account.rs`). */
module UserAccounts {
  import opened Numbers
  import opened Balances
  import opened LedgerSpec

  type AssetVec = seq<(AssetId, Bal)>

  // ----- The vector as a map -----

  /** Index of the first entry of an asset, or the length (`position`). */
  function Position(v: AssetVec, a: AssetId): (i: nat)
    ensures i <= |v|
    ensures forall j :: 0 <= j < i ==> v[j].0 != a
    ensures i < |v| ==> v[i].0 == a
  {
    if v == [] then 0
    else if v[0].0 == a then 0
    else 1 + Position(v[1..], a)
  }

  /** The account as the program's lookups see it: the first entry of each asset. */
  ghost function View(v: AssetVec): Account {
    if v == [] then map[] else View(v[1..])[v[0].0 := v[0].1]
  }

  ghost predicate NoDuplicates(v: AssetVec) {
    forall i, j :: 0 <= i < j < |v| ==> v[i].0 != v[j].0
  }

  lemma {:induction false} PositionFinds(v: AssetVec, a: AssetId)
    ensures Position(v, a) < |v| <==> a in View(v)
    ensures Position(v, a) < |v| ==> View(v)[a] == v[Position(v, a)].1
  {
    if v != [] && v[0].0 != a {
      PositionFinds(v[1..], a);
    }
  }

  /** Creating the missing entry at the end. */
  lemma {:induction false} ViewOfPush(v: AssetVec, a: AssetId, b: Bal)
    requires Position(v, a) == |v|
    requires NoDuplicates(v)
    ensures NoDuplicates(v + [(a, b)])
    ensures View(v + [(a, b)]) == View(v)[a := b]
    decreases |v|
  {
    if v != [] {
      assert (v + [(a, b)])[1..] == v[1..] + [(a, b)];
      ViewOfPush(v[1..], a, b);
    }
  }

  /** Storing a balance back through a borrowed entry. */
  lemma {:induction false} ViewOfStore(v: AssetVec, i: nat, b: Bal)
    requires NoDuplicates(v) && i < |v|
    ensures NoDuplicates(v[i := (v[i].0, b)])
    ensures View(v[i := (v[i].0, b)]) == View(v)[v[i].0 := b]
    decreases |v|
  {
    if i == 0 {
      assert v[0 := (v[0].0, b)][1..] == v[1..];
    } else {
      assert v[i := (v[i].0, b)][1..] == v[1..][i - 1 := (v[i].0, b)];
      ViewOfStore(v[1..], i - 1, b);
      assert v[0].0 != v[i].0;
    }
  }

  // ----- Operations of one user in sequence -----

  datatype AccountResult = AccountResult(acc: Account, ok: bool)

  function RunOps(acc: Account, ops: seq<(AssetId, BalOp)>): AccountResult
    decreases |ops|
  {
    if ops == [] then AccountResult(acc, true) else
    var acc' := TouchAccount(acc, ops[0].0, ops[0].1);
    if ApplyOp(BalIn(acc, ops[0].0), ops[0].1).status == Success
    then RunOps(acc', ops[1..]) else AccountResult(acc', false)
  }

  /** Debit the frozen side of one asset, credit another, give back what is left over. */
  function SettleOps(spendAsset: AssetId, gainAsset: AssetId, spend: nat, gain: nat, refund: nat)
    : seq<(AssetId, BalOp)>
  {
    [(spendAsset, SpendFrozen(spend)), (gainAsset, BalOp.Deposit(gain))]
    + if refund > 0 then [(spendAsset, BalOp.Unlock(refund))] else []
  }

  ghost function TouchesOf(u: UserId, ops: seq<(AssetId, BalOp)>): seq<Touch> {
    seq(|ops|, i requires 0 <= i < |ops| => Touch(u, ops[i].0, ops[i].1))
  }

  /** Running one user's operations on the ledger is running them on that user's account. */
  lemma {:induction false} LedgerRunIsAccountRun(m: Accounts, u: UserId, ops: seq<(AssetId, BalOp)>)
    requires u in m
    ensures var r := RunOps(m[u], ops);
            RunTouches(m, TouchesOf(u, ops)) == if r.ok then Done(m[u := r.acc]) else Failed(m[u := r.acc])
    decreases |ops|
  {
    var ts := TouchesOf(u, ops);
    if ops == [] {
      assert m[u := m[u]] == m;
    } else {
      assert ts[1..] == TouchesOf(u, ops[1..]);
      var m' := m[u := TouchAccount(m[u], ops[0].0, ops[0].1)];
      LedgerRunIsAccountRun(m', u, ops[1..]);
      var r := RunOps(m'[u], ops[1..]);
      assert m'[u := r.acc] == m[u := r.acc];
    }
  }

  lemma SettlementAsOps(s: Settlement)
    ensures BuyerTouches(s) ==
            TouchesOf(s.buyer, SettleOps(s.quote, s.base, s.Cost(), s.quantity, s.buyerRefund))
    ensures SellerTouches(s) ==
            TouchesOf(s.seller, SettleOps(s.base, s.quote, s.quantity, s.Cost(), s.sellerRefund))
  {
  }

  /** Outcome of a read-only pre-flight check. */
  datatype Check = Pass | Missing | Short

  function CheckFrozen(acc: Account, a: AssetId, spend: nat, refund: nat): Check {
    if a !in acc then Missing
    else if acc[a].frozen < WrapAdd(spend, refund) then Short
    else Pass
  }

  /** The check of one account is the ledger's check for its user; it also tells a missing asset from one of
      which too little is frozen. */
  lemma CheckIsLedgerCheck(m: Accounts, u: UserId, a: AssetId, spend: nat, refund: nat)
    requires u in m && spend <= U64_MAX && refund <= U64_MAX
    ensures var c, sum := CheckFrozen(m[u], a, spend, refund), spend + refund;
            var required := if sum <= U64_MAX then sum else sum - TWO_64;
            && (c == Missing <==> !Has(m, u, a))
            && (c == Short <==> Has(m, u, a) && Get(m, u, a).frozen < required)
            && (c == Pass <==> FrozenCovers(m, u, a, required))
  {
  }

  class UserAccount {
    const userId: UserId
    var assets: AssetVec

    ghost predicate Valid()
      reads this
    {
      NoDuplicates(assets)
    }

    /** `new`. */
    constructor (userId: UserId)
      ensures this.userId == userId && assets == [] && Valid()
    {
      this.userId, assets := userId, [];
    }

    /** Borrowing an account that a table owns. */
    constructor Borrow(userId: UserId, assets: AssetVec)
      requires NoDuplicates(assets)
      ensures this.userId == userId && this.assets == assets && Valid()
    {
      this.userId, this.assets := userId, assets;
    }

    method Find(a: AssetId) returns (i: nat)
      ensures i == Position(assets, a)
      ensures i < |assets| <==> a in View(assets)
      ensures i < |assets| ==> View(assets)[a] == assets[i].1
    {
      i := 0;
      while i < |assets| && assets[i].0 != a
        invariant i <= |assets|
        invariant forall j :: 0 <= j < i ==> assets[j].0 != a
      {
        i := i + 1;
      }
      PositionFinds(assets, a);
    }

    method GetBalance(a: AssetId) returns (found: bool, b: Bal)
      ensures found <==> a in View(assets)
      ensures b == BalIn(View(assets), a)
    {
      var i := Find(a);
      if i < |assets| {
        return true, assets[i].1;
      }
      return false, ZERO_BAL;
    }

    /** `get_balance_mut`: the index of the entry, created with a zero balance when missing. */
    method GetBalanceMut(a: AssetId) returns (i: nat)
      requires Valid()
      modifies this
      ensures Valid() && i < |assets| && assets[i].0 == a
      ensures assets[i].1 == BalIn(old(View(assets)), a)
      ensures View(assets) == old(View(assets))[a := BalIn(old(View(assets)), a)]
    {
      i := Find(a);
      if i == |assets| {
        ViewOfPush(assets, a, ZERO_BAL);
        assets := assets + [(a, ZERO_BAL)];
      }
    }

    /** One balance operation through a reference to entry `i`. */
    method OperateAt(i: nat, op: BalOp) returns (status: Status)
      requires Valid() && i < |assets|
      modifies this
      ensures Valid()
      ensures View(assets) == old(View(assets))[old(assets[i].0) := ApplyOp(old(assets[i].1), op).bal]
      ensures status == ApplyOp(old(assets[i].1), op).status
    {
      var bal := new Balance(assets[i].1);
      match op {
        case Deposit(n) => status := bal.Deposit(n);
        case Withdraw(n) => status := bal.Withdraw(n);
        case Lock(n) => status := bal.Lock(n);
        case Unlock(n) => status := bal.Unlock(n);
        case SpendFrozen(n) => status := bal.SpendFrozen(n);
        case RefundFrozen(s, r) => status := bal.RefundFrozen(s, r);
      }
      var b := bal.Snapshot();
      assert OpResult(b, status) == ApplyOp(assets[i].1, op);
      ViewOfStore(assets, i, b);
      assets := assets[i := (assets[i].0, b)];
    }

    /** `get_balance_mut(a)` followed by one balance operation. */
    method Operate(a: AssetId, op: BalOp) returns (status: Status)
      requires Valid()
      modifies this
      ensures Valid()
      ensures View(assets) == TouchAccount(old(View(assets)), a, op)
      ensures status == ApplyOp(BalIn(old(View(assets)), a), op).status
    {
      var i := GetBalanceMut(a);
      status := OperateAt(i, op);
    }

    /** The common body of `check_buyer_balance` and `check_seller_balance`. */
    method CheckBalance(a: AssetId, spend: nat, refund: nat) returns (c: Check)
      ensures c == CheckFrozen(View(assets), a, spend, refund)
    {
      var found, b := GetBalance(a);
      if !found {
        return Missing;
      }
      var required := WrapAdd(spend, refund);
      if b.frozen < required {
        return Short;
      }
      return Pass;
    }

    /** The common body of `settle_as_buyer` (spends quote, gains base) and `settle_as_seller`
        (spends base, gains quote); stops at the first operation that fails. */
    method Settle(spendAsset: AssetId, gainAsset: AssetId, spend: nat, gain: nat, refund: nat)
      returns (ok: bool)
      requires Valid()
      modifies this
      ensures Valid()
      ensures AccountResult(View(assets), ok) ==
              RunOps(old(View(assets)), SettleOps(spendAsset, gainAsset, spend, gain, refund))
    {
      RunThree(View(assets), spendAsset, gainAsset, spend, gain, refund);
      var status := Operate(spendAsset, SpendFrozen(spend));
      if status != Success {
        return false;
      }
      status := Operate(gainAsset, BalOp.Deposit(gain));
      if status != Success {
        return false;
      }
      if refund > 0 {
        status := Operate(spendAsset, BalOp.Unlock(refund));
        return status == Success;
      }
      return true;
    }

    method CheckBuyerBalance(quote: AssetId, spendQuote: nat, refundQuote: nat) returns (c: Check)
      ensures c == CheckFrozen(View(assets), quote, spendQuote, refundQuote)
    {
      c := CheckBalance(quote, spendQuote, refundQuote);
    }

    method CheckSellerBalance(base: AssetId, spendBase: nat, refundBase: nat) returns (c: Check)
      ensures c == CheckFrozen(View(assets), base, spendBase, refundBase)
    {
      c := CheckBalance(base, spendBase, refundBase);
    }

    method SettleAsBuyer(quote: AssetId, base: AssetId, spendQuote: nat, gainBase: nat, refundQuote: nat)
      returns (ok: bool)
      requires Valid()
      modifies this
      ensures Valid()
      ensures AccountResult(View(assets), ok) ==
              RunOps(old(View(assets)), SettleOps(quote, base, spendQuote, gainBase, refundQuote))
    {
      ok := Settle(quote, base, spendQuote, gainBase, refundQuote);
    }

    method SettleAsSeller(base: AssetId, quote: AssetId, spendBase: nat, gainQuote: nat, refundBase: nat)
      returns (ok: bool)
      requires Valid()
      modifies this
      ensures Valid()
      ensures AccountResult(View(assets), ok) ==
              RunOps(old(View(assets)), SettleOps(base, quote, spendBase, gainQuote, refundBase))
    {
      ok := Settle(base, quote, spendBase, gainQuote, refundBase);
    }
  }

  /** `RunOps` over the two or three operations of a settlement, unrolled. */
  lemma RunThree(acc: Account, spendAsset: AssetId, gainAsset: AssetId, spend: nat, gain: nat, refund: nat)
    ensures var r1 := ApplyOp(BalIn(acc, spendAsset), SpendFrozen(spend));
            var acc1 := TouchAccount(acc, spendAsset, SpendFrozen(spend));
            var r2 := ApplyOp(BalIn(acc1, gainAsset), BalOp.Deposit(gain));
            var acc2 := TouchAccount(acc1, gainAsset, BalOp.Deposit(gain));
            var r3 := ApplyOp(BalIn(acc2, spendAsset), BalOp.Unlock(refund));
            var acc3 := TouchAccount(acc2, spendAsset, BalOp.Unlock(refund));
            RunOps(acc, SettleOps(spendAsset, gainAsset, spend, gain, refund)) ==
            if r1.status != Success then AccountResult(acc1, false)
            else if r2.status != Success then AccountResult(acc2, false)
            else if refund == 0 then AccountResult(acc2, true)
            else AccountResult(acc3, r3.status == Success)
  {
    var op1, op2 := (spendAsset, SpendFrozen(spend)), (gainAsset, BalOp.Deposit(gain));
    var rest := if refund > 0 then [(spendAsset, BalOp.Unlock(refund))] else [];
    assert SettleOps(spendAsset, gainAsset, spend, gain, refund) == [op1] + ([op2] + rest);
    RunOpsCons(acc, op1, [op2] + rest);
    var acc1 := TouchAccount(acc, spendAsset, SpendFrozen(spend));
    RunOpsCons(acc1, op2, rest);
    if refund > 0 {
      var acc2 := TouchAccount(acc1, gainAsset, BalOp.Deposit(gain));
      RunOpsCons(acc2, rest[0], []);
      assert rest == [rest[0]] + [];
    }
  }

  lemma RunOpsCons(acc: Account, op: (AssetId, BalOp), rest: seq<(AssetId, BalOp)>)
    ensures RunOps(acc, [op] + rest) ==
            if ApplyOp(BalIn(acc, op.0), op.1).status == Success
            then RunOps(TouchAccount(acc, op.0, op.1), rest)
            else AccountResult(TouchAccount(acc, op.0, op.1), false)
  {
    assert ([op] + rest)[1..] == rest;
  }
}
