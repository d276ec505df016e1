/** What the multi-asset ledger does to its accounts, as functions on values
    (`GlobalLedger::apply_transaction` and `apply_match_exec` in `src/ledger.rs`). */
module LedgerSpec {
  import opened Numbers
  import opened Balances

  type UserId = nat
  type AssetId = nat
  type Account = map<AssetId, Bal>
  type Accounts = map<UserId, Account>

  /** The accounts a step leaves behind: `Failed` is an error return, which may already have
      changed something; `Panicked` is an arithmetic panic or a failed `expect`. */
  datatype Tx = Done(accts: Accounts) | Failed(accts: Accounts) | Panicked

  /** One balance operation on one user's asset. */
  datatype Touch = Touch(user: UserId, asset: AssetId, op: BalOp)

  /** The amounts that move when one trade settles. */
  datatype Settlement = Settlement(
    buyer: UserId, seller: UserId, base: AssetId, quote: AssetId,
    price: nat, quantity: nat, buyerRefund: nat, sellerRefund: nat)
  {
    function Cost(): nat { price * quantity }
  }

  /** `MatchExecData`: the settlement plus what is only recorded. */
  datatype ExecData = ExecData(
    deal: Settlement,
    tradeId: nat, buyOrderId: nat, sellOrderId: nat, matchSeq: nat, outputSequence: nat,
    buyerQuoteVersion: nat, buyerBaseVersion: nat, sellerBaseVersion: nat, sellerQuoteVersion: nat,
    buyerQuoteAfter: nat, buyerBaseAfter: nat, sellerBaseAfter: nat, sellerQuoteAfter: nat)

  datatype OrderState = New | PartiallyFilled | Filled | Cancelled | Rejected | Expired

  datatype Update = Update(orderId: nat, userId: UserId, symbolId: nat, status: OrderState,
                           price: nat, quantity: nat)

  datatype Cmd =
    | Deposit(user: UserId, asset: AssetId, amount: nat, balanceAfter: nat, version: nat)
    | Withdraw(user: UserId, asset: AssetId, amount: nat, balanceAfter: nat, version: nat)
    | Lock(user: UserId, asset: AssetId, amount: nat, balanceAfter: nat, version: nat)
    | Unlock(user: UserId, asset: AssetId, amount: nat, balanceAfter: nat, version: nat)
    | TradeSettle(user: UserId, spendAsset: AssetId, spendAmount: nat,
                  gainAsset: AssetId, gainAmount: nat)
    | MatchExec(data: ExecData)
    | MatchExecBatch(batch: seq<ExecData>)
    | OrderUpdate(update: Update)
    | Batch(cmds: seq<Cmd>)

  predicate IsTransfer(c: Cmd) {
    c.Deposit? || c.Withdraw? || c.Lock? || c.Unlock?
  }

  function TransferOp(c: Cmd): BalOp
    requires IsTransfer(c)
  {
    match c
    case Deposit(_, _, n, _, _) => BalOp.Deposit(n)
    case Withdraw(_, _, n, _, _) => BalOp.Withdraw(n)
    case Lock(_, _, n, _, _) => BalOp.Lock(n)
    case Unlock(_, _, n, _, _) => BalOp.Unlock(n)
  }

  // ----- Reading -----

  function AccountOf(m: Accounts, u: UserId): Account {
    if u in m then m[u] else map[]
  }

  function BalIn(acc: Account, a: AssetId): Bal {
    if a in acc then acc[a] else ZERO_BAL
  }

  function Get(m: Accounts, u: UserId, a: AssetId): Bal {
    BalIn(AccountOf(m, u), a)
  }

  predicate Has(m: Accounts, u: UserId, a: AssetId) {
    u in m && a in m[u]
  }

  // ----- Steps -----

  /** `get_balance_mut` followed by one operation: missing entries are created first and stay. */
  function TouchAccount(acc: Account, a: AssetId, op: BalOp): Account {
    acc[a := ApplyOp(BalIn(acc, a), op).bal]
  }

  function DoTouch(m: Accounts, t: Touch): Tx {
    var m' := m[t.user := TouchAccount(AccountOf(m, t.user), t.asset, t.op)];
    if ApplyOp(Get(m, t.user, t.asset), t.op).status == Success then Done(m') else Failed(m')
  }

  function RunTouches(m: Accounts, ts: seq<Touch>): Tx
    decreases |ts|
  {
    if ts == [] then Done(m) else
    match DoTouch(m, ts[0])
    case Done(m') => RunTouches(m', ts[1..])
    case r => r
  }

  /** `settle_as_buyer`, in program order. */
  function BuyerTouches(s: Settlement): seq<Touch> {
    [Touch(s.buyer, s.quote, SpendFrozen(s.Cost())),
     Touch(s.buyer, s.base, BalOp.Deposit(s.quantity))]
    + if s.buyerRefund > 0 then [Touch(s.buyer, s.quote, BalOp.Unlock(s.buyerRefund))] else []
  }

  /** `settle_as_seller`, in program order. */
  function SellerTouches(s: Settlement): seq<Touch> {
    [Touch(s.seller, s.base, SpendFrozen(s.quantity)),
     Touch(s.seller, s.quote, BalOp.Deposit(s.Cost()))]
    + if s.sellerRefund > 0 then [Touch(s.seller, s.base, BalOp.Unlock(s.sellerRefund))] else []
  }

  /** `check_buyer_balance` and `check_seller_balance`: the asset exists and enough is frozen. */
  predicate FrozenCovers(m: Accounts, u: UserId, a: AssetId, amount: nat) {
    Has(m, u, a) && amount <= m[u][a].frozen
  }

  /** The pre-flight checks of `apply_match_exec`. The amounts that must be frozen are unchecked sums,
      which wrap around. */
  predicate PassesChecks(m: Accounts, s: Settlement) {
    && s.Cost() <= U64_MAX
    && FrozenCovers(m, s.buyer, s.quote, WrapAdd(s.Cost(), s.buyerRefund))
    && FrozenCovers(m, s.seller, s.base, WrapAdd(s.quantity, s.sellerRefund))
  }

  /** `apply_match_exec`. */
  function ApplyMatchExec(m: Accounts, s: Settlement): Tx {
    if PassesChecks(m, s) then SettleBoth(m, s) else Failed(m)
  }

  /** The two settlements after the checks; an error in either one panics ("Critical: ..."). */
  function SettleBoth(m: Accounts, s: Settlement): Tx {
    match RunTouches(m, BuyerTouches(s))
    case Done(m') =>
      (match RunTouches(m', SellerTouches(s))
       case Done(m'') => Done(m'')
       case _ => Panicked)
    case _ => Panicked
  }

  function ApplyExecs(m: Accounts, batch: seq<ExecData>): Tx
    decreases |batch|
  {
    if batch == [] then Done(m) else
    match ApplyMatchExec(m, batch[0].deal)
    case Done(m') => ApplyExecs(m', batch[1..])
    case r => r
  }

  /** `TradeSettle`: the spend must find its asset; a failing gain is ignored. */
  function ApplyTradeSettle(m: Accounts, u: UserId, spend: AssetId, n: nat, gain: AssetId, k: nat): Tx {
    var m0 := m[u := AccountOf(m, u)];
    if !Has(m, u, spend) then Failed(m0) else
    match DoTouch(m0, Touch(u, spend, SpendFrozen(n)))
    case Done(m1) => Done(m1[u := TouchAccount(m1[u], gain, BalOp.Deposit(k))])
    case r => r
  }

  /** `GlobalLedger::apply_transaction`. */
  function ApplyTx(m: Accounts, c: Cmd): Tx
    decreases c, 1
  {
    match c
    case TradeSettle(u, spend, n, gain, k) => ApplyTradeSettle(m, u, spend, n, gain, k)
    case MatchExec(d) => ApplyMatchExec(m, d.deal)
    case MatchExecBatch(ds) => ApplyExecs(m, ds)
    case OrderUpdate(_) => Done(m)
    case Batch(cs) => ApplyAll(m, cs)
    case _ => DoTouch(m, Touch(c.user, c.asset, TransferOp(c)))
  }

  /** The sequential fold of a list of commands, stopping at the first one that does not succeed. */
  function ApplyAll(m: Accounts, cs: seq<Cmd>): Tx
    decreases cs, 0
  {
    if cs == [] then Done(m) else
    match ApplyTx(m, cs[0])
    case Done(m') => ApplyAll(m', cs[1..])
    case r => r
  }

  // ----- Shape of runs -----

  lemma TouchReads(m: Accounts, t: Touch)
    ensures !DoTouch(m, t).Panicked?
    ensures var m' := DoTouch(m, t).accts;
            && (forall u, a :: Get(m', u, a) == if u == t.user && a == t.asset
                                                then ApplyOp(Get(m, u, a), t.op).bal
                                                else Get(m, u, a))
            && (forall u, a :: Has(m', u, a) <==> Has(m, u, a) || (u == t.user && a == t.asset))
  {
  }

  lemma {:induction false} ApplyAllAppend(m: Accounts, cs: seq<Cmd>, ds: seq<Cmd>)
    ensures ApplyAll(m, cs + ds) ==
            match ApplyAll(m, cs)
            case Done(m') => ApplyAll(m', ds)
            case r => r
    decreases |cs|
  {
    if cs == [] {
      assert cs + ds == ds;
    } else {
      assert (cs + ds)[0] == cs[0] && (cs + ds)[1..] == cs[1..] + ds;
      match ApplyTx(m, cs[0])
      case Done(m') => ApplyAllAppend(m', cs[1..], ds);
      case _ =>
    }
  }

  lemma {:induction false} ApplyExecsAppend(m: Accounts, ds: seq<ExecData>, es: seq<ExecData>)
    ensures ApplyExecs(m, ds + es) ==
            match ApplyExecs(m, ds)
            case Done(m') => ApplyExecs(m', es)
            case r => r
    decreases |ds|
  {
    if ds == [] {
      assert ds + es == es;
    } else {
      assert (ds + es)[0] == ds[0] && (ds + es)[1..] == ds[1..] + es;
      match ApplyMatchExec(m, ds[0].deal)
      case Done(m') => ApplyExecsAppend(m', ds[1..], es);
      case _ =>
    }
  }
}
