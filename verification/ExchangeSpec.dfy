/** The matching engine over the real ledger: placing and cancelling orders as state transitions
    (`process_order_logic` and `process_cancel` in `src/matching_engine_base.rs`). */
module ExchangeSpec {
  import opened Numbers
  import opened LedgerSpec
  import opened BookSpec

  type SymbolId = nat

  /** (base asset, quote asset) of a symbol. */
  type Pair = (AssetId, AssetId)

  datatype Exchange = Exchange(accts: Accounts, books: map<SymbolId, Book>, pairs: map<SymbolId, Pair>,
                               lastId: nat, outputSeq: nat)

  const EMPTY_EXCHANGE: Exchange := Exchange(map[], map[], map[], 0, 0)

  /** The asset an order of `side` is paid with, and so the asset that is frozen for it. */
  function LockAsset(pair: Pair, side: Side): AssetId {
    if side == Buy then pair.1 else pair.0
  }

  function LockAmount(o: Order): nat {
    if o.side == Buy then o.price * o.quantity else o.quantity
  }

  function LockCommand(m: Accounts, pair: Pair, o: Order): Cmd {
    var asset, amount := LockAsset(pair, o.side), LockAmount(o);
    var bal := Get(m, o.user, asset);
    Cmd.Lock(o.user, asset, amount, if bal.avail >= amount then bal.avail - amount else bal.avail,
             WrapAdd(bal.version, 1))
  }

  /** The buyer's price improvement; only a taker can have one. */
  function Refund(o: Order, t: Trade): nat {
    if o.side == Buy && t.buyer == o.user && o.price > t.price then (o.price - t.price) * t.quantity else 0
  }

  function DealOf(o: Order, pair: Pair, t: Trade): Settlement {
    Settlement(t.buyer, t.seller, pair.0, pair.1, t.price, t.quantity, Refund(o, t), 0)
  }

  // ----- The overlay that predicts versions and balances -----

  type Key = (UserId, AssetId)

  /** `temp_versions` and `temp_balances`, read through to the ledger before the batch. */
  datatype Overlay = Overlay(versions: map<Key, nat>, avails: map<Key, nat>)

  const NO_OVERLAY: Overlay := Overlay(map[], map[])

  function VersionIn(ov: Overlay, m: Accounts, k: Key): nat {
    if k in ov.versions then ov.versions[k] else Get(m, k.0, k.1).version
  }

  function AvailIn(ov: Overlay, m: Accounts, k: Key): nat {
    if k in ov.avails then ov.avails[k] else Get(m, k.0, k.1).avail
  }

  /** `get_and_add_version`. */
  function AddVersion(ov: Overlay, m: Accounts, k: Key, inc: nat): Overlay {
    ov.(versions := ov.versions[k := WrapAdd(VersionIn(ov, m, k), inc)])
  }

  /** The update inside `get_and_update_balance`, with its signed delta. */
  function ShiftAvail(avail: nat, delta: int): nat {
    if delta >= 0 then avail + delta
    else if avail >= -delta then avail + delta
    else 0
  }

  /** `get_and_update_balance`; the new entry is also the value returned. */
  function AddAvail(ov: Overlay, m: Accounts, k: Key, delta: int): Overlay {
    ov.(avails := ov.avails[k := ShiftAvail(AvailIn(ov, m, k), delta)])
  }

  /** The overlays one turn of the loop over the trades goes through: four version updates, then
      four balance updates. */
  datatype Chain = Chain(ov1: Overlay, ov2: Overlay, ov3: Overlay, ov4: Overlay,
                         ov5: Overlay, ov6: Overlay, ov7: Overlay, ov8: Overlay)

  function ChainOf(m: Accounts, ov: Overlay, o: Order, pair: Pair, t: Trade): Chain {
    var (ov1, ov2, ov3, ov4) := VersionChain(m, ov, Refund(o, t), pair, t);
    var (ov5, ov6, ov7, ov8) := AvailChain(m, ov4, Refund(o, t), pair, t);
    Chain(ov1, ov2, ov3, ov4, ov5, ov6, ov7, ov8)
  }

  function VersionChain(m: Accounts, ov: Overlay, refund: nat, pair: Pair, t: Trade)
    : (Overlay, Overlay, Overlay, Overlay)
  {
    var ov1 := AddVersion(ov, m, (t.buyer, pair.1), if refund > 0 then 2 else 1);
    var ov2 := AddVersion(ov1, m, (t.buyer, pair.0), 1);
    var ov3 := AddVersion(ov2, m, (t.seller, pair.0), 1);
    (ov1, ov2, ov3, AddVersion(ov3, m, (t.seller, pair.1), 1))
  }

  function AvailChain(m: Accounts, ov: Overlay, refund: nat, pair: Pair, t: Trade)
    : (Overlay, Overlay, Overlay, Overlay)
  {
    var ov5 := AddAvail(ov, m, (t.buyer, pair.1), AsI64(refund));
    var ov6 := AddAvail(ov5, m, (t.buyer, pair.0), AsI64(t.quantity));
    var ov7 := AddAvail(ov6, m, (t.seller, pair.0), 0);
    (ov5, ov6, ov7, AddAvail(ov7, m, (t.seller, pair.1), AsI64(t.price * t.quantity)))
  }

  /** One turn of the loop: the batch element and the overlay after it. */
  function Predict(m: Accounts, ov: Overlay, o: Order, pair: Pair, t: Trade, outSeq: nat): (ExecData, Overlay) {
    var c := ChainOf(m, ov, o, pair, t);
    (ExecData(DealOf(o, pair, t), t.tradeId, t.buyOrderId, t.sellOrderId, t.matchSeq, outSeq,
              VersionIn(ov, m, (t.buyer, pair.1)), VersionIn(c.ov1, m, (t.buyer, pair.0)),
              VersionIn(c.ov2, m, (t.seller, pair.0)), VersionIn(c.ov3, m, (t.seller, pair.1)),
              AvailIn(c.ov5, m, (t.buyer, pair.1)), AvailIn(c.ov6, m, (t.buyer, pair.0)),
              AvailIn(c.ov7, m, (t.seller, pair.0)), AvailIn(c.ov8, m, (t.seller, pair.1))),
     c.ov8)
  }

  /** The match batch for a list of trades; `outSeq` counts one output per trade. */
  function BuildBatch(m: Accounts, ov: Overlay, o: Order, pair: Pair, trades: seq<Trade>, outSeq: nat): seq<ExecData>
    decreases |trades|
  {
    if trades == [] then [] else
    var (d, ov') := Predict(m, ov, o, pair, trades[0], outSeq + 1);
    [d] + BuildBatch(m, ov', o, pair, trades[1..], outSeq + 1)
  }

  // ----- Placing -----

  /** `NotAccepted` returns Ok with a rejection; `DuplicateOrder` and `BatchFailed` are errors, after
      which the caller drops the shadow ledger; `Crashed` is a panic. */
  datatype PlaceResult =
    | NotAccepted(x: Exchange)
    | DuplicateOrder
    | BatchFailed
    | Crashed
    | Placed(x: Exchange, batch: seq<ExecData>)

  /** `process_order_logic` on a ledger that commits when it returns Ok. */
  function Place(x: Exchange, o: Order, ts: nat): PlaceResult {
    if o.symbol !in x.pairs then NotAccepted(x) else
    var pair := x.pairs[o.symbol];
    match ApplyTx(x.accts, LockCommand(x.accts, pair, o))
    case Failed(a) => NotAccepted(x.(accts := a))
    case Panicked => Crashed
    case Done(a) =>
      if o.symbol !in x.books then NotAccepted(x.(accts := a)) else
      match Add(x.books[o.symbol], o, x.lastId, ts)
      case Duplicate => DuplicateOrder
      case Added(b, trades, lastId) => SettleTrades(x, o, pair, a, b, trades, lastId)
  }

  function SettleTrades(x: Exchange, o: Order, pair: Pair, a: Accounts, b: Book, trades: seq<Trade>,
                        lastId: nat): PlaceResult
  {
    var batch := BuildBatch(a, NO_OVERLAY, o, pair, trades, x.outputSeq);
    match ApplyTx(a, MatchExecBatch(batch))
    case Failed(_) => BatchFailed
    case Panicked => Crashed
    case Done(a') =>
      Placed(x.(accts := a', books := x.books[o.symbol := b], lastId := lastId,
                outputSeq := x.outputSeq + |trades|), batch)
  }

  // ----- Cancelling -----

  datatype CancelResult = CancelFailed(x: Exchange) | CancelDone(x: Exchange, order: Order)

  /** What the stub ledger answers when a cancellation asks it for the owner's balance and version. */
  const STUB_BALANCE: nat := U64_MAX
  const STUB_VERSION: nat := 0

  /** The Unlock command of a cancellation; its announced balance wraps around. */
  function UnlockCommand(pair: Pair, o: Order): Cmd {
    var asset, amount := LockAsset(pair, o.side), LockAmount(o);
    Cmd.Unlock(o.user, asset, amount, WrapAdd(STUB_BALANCE, amount), STUB_VERSION + 1)
  }

  /** `process_cancel`, with the emitted Unlock applied to the ledger. */
  function Cancel(x: Exchange, symbol: SymbolId, id: nat): CancelResult {
    if symbol !in x.books then CancelFailed(x) else
    var r := Remove(x.books[symbol], id);
    var x' := x.(books := x.books[symbol := r.book]);
    match r.order
    case None => CancelFailed(x')
    case Some(o) =>
      if symbol !in x.pairs then CancelFailed(x') else
      match ApplyTx(x.accts, UnlockCommand(x.pairs[symbol], o))
      case Done(a) => CancelDone(x'.(accts := a), o)
      case _ => CancelFailed(x')
  }

  // ----- Runs -----

  datatype Step =
    | DepositStep(user: UserId, asset: AssetId, amount: nat)
    | WithdrawStep(user: UserId, asset: AssetId, amount: nat)
    | RegisterStep(symbol: SymbolId, pair: Pair)
    | PlaceStep(order: Order, ts: nat)
    | CancelStep(symbol: SymbolId, id: nat)

  /** A transfer committed as a batch of one: no effect when it fails. */
  function Transfer(x: Exchange, c: Cmd): Exchange {
    match ApplyTx(x.accts, c)
    case Done(a) => x.(accts := a)
    case _ => x
  }

  function DoStep(x: Exchange, s: Step): Exchange {
    match s
    case DepositStep(u, a, n) => Transfer(x, Cmd.Deposit(u, a, n, 0, 0))
    case WithdrawStep(u, a, n) => Transfer(x, Cmd.Withdraw(u, a, n, 0, 0))
    case RegisterStep(symbol, pair) =>
      if symbol in x.books then x
      else x.(books := x.books[symbol := EMPTY_BOOK], pairs := x.pairs[symbol := pair])
    case PlaceStep(o, ts) =>
      (match Place(x, o, ts)
       case Placed(x', _) => x'
       case NotAccepted(x') => x'
       case _ => x)
    case CancelStep(symbol, id) => Cancel(x, symbol, id).x
  }

  function DoSteps(x: Exchange, steps: seq<Step>): Exchange
    decreases |steps|
  {
    if steps == [] then x else DoSteps(DoStep(x, steps[0]), steps[1..])
  }
}
