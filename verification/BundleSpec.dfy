/** Placing an order with a hash-chained output bundle (`process_order_with_output` in
    `src/matching_engine_base.rs`). */
module BundleSpec {
  import opened Numbers
  import opened Options
  import opened LedgerSpec
  import opened BookSpec
  import opened ExchangeSpec
  import opened EngineOutputs

  /** The request besides the order itself, and the two uninterpreted functions. */
  datatype Request = Request(order: Order, cid: string, inputSeq: nat, ts: nat)

  datatype Hashes = Hashes(xxh: HashFn, crc: InputData -> nat)

  function InputOf(hs: Hashes, q: Request): InputBundle {
    var data := PlaceOrder(q.order, q.cid);
    InputBundle(q.inputSeq, hs.crc(data), data)
  }

  // ----- Balance events -----

  /** The four events of one trade, in order: buyer quote, buyer base, seller base, seller quote.
      They are built from the same values as the trade's batch element. */
  function TradeEvents(d: ExecData): seq<BalanceEvent> {
    [BuyerQuoteEvent(d),
     BalanceEvent(d.deal.buyer, d.deal.base, WrapAdd(d.buyerBaseVersion, 1), AsI64(d.deal.quantity), 0,
                  None, None, TradeCredit, d.tradeId),
     BalanceEvent(d.deal.seller, d.deal.base, WrapAdd(d.sellerBaseVersion, 1), 0, NegI64(AsI64(d.deal.quantity)),
                  None, None, TradeDebit, d.tradeId),
     BalanceEvent(d.deal.seller, d.deal.quote, WrapAdd(d.sellerQuoteVersion, 1), AsI64(d.deal.Cost()), 0,
                  None, None, TradeCredit, d.tradeId)]
  }

  function BuyerQuoteEvent(d: ExecData): BalanceEvent {
    var refund, cost := d.deal.buyerRefund, d.deal.Cost();
    if refund > 0 then
      BalanceEvent(d.deal.buyer, d.deal.quote, WrapAdd(d.buyerQuoteVersion, 1),
                   AsI64(refund), NegI64(AddI64(AsI64(cost), AsI64(refund))), None, None, TradeRefund, d.tradeId)
    else
      BalanceEvent(d.deal.buyer, d.deal.quote, WrapAdd(d.buyerQuoteVersion, 1),
                   0, NegI64(AsI64(cost)), None, None, TradeDebit, d.tradeId)
  }

  function EventsOf(batch: seq<ExecData>): seq<BalanceEvent> {
    if batch == [] then [] else TradeEvents(batch[0]) + EventsOf(batch[1..])
  }

  /** The event of the lock, recorded with the balances before and after it. */
  function LockEventOf(m: Accounts, pair: Pair, o: Order): BalanceEvent {
    var c := LockCommand(m, pair, o);
    BalanceEvent(o.user, c.asset, c.version, NegI64(AsI64(c.amount)), AsI64(c.amount),
                 Some(c.balanceAfter), Some(Get(m, o.user, c.asset).frozen + c.amount), LockEvent, o.id)
  }

  // ----- The order report -----

  function FilledQty(trades: seq<Trade>): nat {
    if trades == [] then 0 else trades[0].quantity + FilledQty(trades[1..])
  }

  function TotalCost(trades: seq<Trade>): nat {
    if trades == [] then 0 else trades[0].price * trades[0].quantity + TotalCost(trades[1..])
  }

  function ReportOf(o: Order, trades: seq<Trade>, ts: nat): OrderReport
    requires FilledQty(trades) <= o.quantity
  {
    var filled := FilledQty(trades);
    var remaining := o.quantity - filled;
    OrderReport(o.id, o.user,
                if filled == 0 then STATUS_NEW else if remaining == 0 then STATUS_FILLED else STATUS_PARTIAL_FILL,
                filled, remaining, if filled > 0 then TotalCost(trades) / filled else 0, ts)
  }

  function RejectReport(o: Order, ts: nat): OrderReport {
    OrderReport(o.id, o.user, STATUS_REJECTED, 0, o.quantity, 0, ts)
  }

  function TradeOutputs(o: Order, pair: Pair, trades: seq<Trade>): seq<TradeOutput> {
    if trades == [] then [] else
    [TradeOutput(trades[0], o.symbol, pair.0, pair.1, Refund(o, trades[0]), 0)]
    + TradeOutputs(o, pair, trades[1..])
  }

  // ----- The match batch of this path -----

  /** One turn of the loop: only versions are tracked, the element carries the bundle's number and
      no balances. */
  function OutputExec(m: Accounts, ov: Overlay, o: Order, pair: Pair, t: Trade, outSeq: nat): (ExecData, Overlay) {
    var (ov1, ov2, ov3, ov4) := VersionChain(m, ov, Refund(o, t), pair, t);
    (ExecData(DealOf(o, pair, t), t.tradeId, t.buyOrderId, t.sellOrderId, t.matchSeq, outSeq,
              VersionIn(ov, m, (t.buyer, pair.1)), VersionIn(ov1, m, (t.buyer, pair.0)),
              VersionIn(ov2, m, (t.seller, pair.0)), VersionIn(ov3, m, (t.seller, pair.1)), 0, 0, 0, 0),
     ov4)
  }

  function OutputBatch(m: Accounts, ov: Overlay, o: Order, pair: Pair, trades: seq<Trade>, outSeq: nat): seq<ExecData>
    decreases |trades|
  {
    if trades == [] then [] else
    var (d, ov') := OutputExec(m, ov, o, pair, trades[0], outSeq);
    [d] + OutputBatch(m, ov', o, pair, trades[1..], outSeq)
  }

  // ----- The whole operation -----

  /** The engine with its chain head. */
  datatype Engine = Engine(x: Exchange, lastHash: nat)

  const EMPTY_ENGINE: Engine := Engine(EMPTY_EXCHANGE, GENESIS_HASH)

  datatype OutputResult =
    | NoOutput(e: Engine)
    | Output(e: Engine, bundle: Bundle, accepted: bool)
    | OutputCrash

  function Emit(hs: Hashes, x: Exchange, b: Bundle, accepted: bool): OutputResult {
    Output(Engine(x, b.hash), b, accepted)
  }

  /** `process_order_with_output` over a ledger that commits when it returns Ok. The sequence number
      moves in every case, also when no bundle comes out. */
  function PlaceWithOutput(hs: Hashes, e: Engine, q: Request): OutputResult {
    var o, seqNo := q.order, e.x.outputSeq + 1;
    var x := e.x.(outputSeq := seqNo);
    var reject := Some(RejectReport(o, q.ts));
    if o.symbol !in x.pairs then
      Emit(hs, x, Seal(hs.xxh, seqNo, e.lastHash, InputOf(hs, q), reject, [], [], [], []), false)
    else
      var pair := x.pairs[o.symbol];
      match ApplyTx(x.accts, LockCommand(x.accts, pair, o))
      case Panicked => OutputCrash
      case Failed(a) =>
        Emit(hs, x.(accts := a), Seal(hs.xxh, seqNo, e.lastHash, InputOf(hs, q), reject, [], [], [], []), false)
      case Done(a) =>
        var lock := LockEventOf(x.accts, pair, o);
        if o.symbol !in x.books then
          Emit(hs, x.(accts := a),
               Seal(hs.xxh, seqNo, e.lastHash, InputOf(hs, q), reject, [], [lock], [], []), false)
        else
          match Add(x.books[o.symbol], o, x.lastId, q.ts)
          case Duplicate => NoOutput(Engine(x, e.lastHash))
          case Added(b, trades, lastId) => SettleWithOutput(hs, e, q, pair, a, b, trades, lastId)
  }

  function SettleWithOutput(hs: Hashes, e: Engine, q: Request, pair: Pair, a: Accounts, b: Book,
                            trades: seq<Trade>, lastId: nat): OutputResult
  {
    var o, seqNo := q.order, e.x.outputSeq + 1;
    var x := e.x.(outputSeq := seqNo);
    var batch := OutputBatch(a, NO_OVERLAY, o, pair, trades, seqNo);
    match ApplyTx(a, MatchExecBatch(batch))
    case Failed(_) => NoOutput(Engine(x, e.lastHash))
    case Panicked => OutputCrash
    case Done(a') =>
      if FilledQty(trades) > o.quantity then OutputCrash else
      var report := ReportOf(o, trades, q.ts);
      var bundle := Seal(hs.xxh, seqNo, e.lastHash, InputOf(hs, q), Some(report), TradeOutputs(o, pair, trades),
                         [LockEventOf(e.x.accts, pair, o)] + EventsOf(batch),
                         [o], if report.status == STATUS_FILLED then [o.id] else []);
      Emit(hs, x.(accts := a', books := x.books[o.symbol := b], lastId := lastId), bundle, true)
  }

  // ----- Runs -----

  /** What a running engine does: orders that produce a bundle, and everything else. */
  datatype Action = Bundled(request: Request) | Plain(step: Step)

  function Act(hs: Hashes, e: Engine, a: Action): Engine {
    match a
    case Plain(s) => e.(x := DoStep(e.x, s))
    case Bundled(q) =>
      match PlaceWithOutput(hs, e, q)
      case Output(e', _, _) => e'
      case NoOutput(e') => e'
      case OutputCrash => e
  }

  function Emitted(hs: Hashes, e: Engine, a: Action): seq<Bundle> {
    if a.Plain? then [] else
    match PlaceWithOutput(hs, e, a.request)
    case Output(_, b, _) => [b]
    case _ => []
  }

  function ActAll(hs: Hashes, e: Engine, actions: seq<Action>): Engine
    decreases |actions|
  {
    if actions == [] then e else ActAll(hs, Act(hs, e, actions[0]), actions[1..])
  }

  /** The bundles a run publishes, in order. */
  function Published(hs: Hashes, e: Engine, actions: seq<Action>): seq<Bundle>
    decreases |actions|
  {
    if actions == [] then [] else
    Emitted(hs, e, actions[0]) + Published(hs, Act(hs, e, actions[0]), actions[1..])
  }
}
