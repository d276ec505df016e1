/** Output bundles and their hash chain (`src/engine_output.rs`). */
module EngineOutputs {
  import opened Options
  import opened LedgerSpec
  import opened BookSpec

  const GENESIS_HASH: nat := 0

  datatype InputData =
    | PlaceOrder(order: Order, cid: string)
    | CancelOrder(orderId: nat, cancelUser: nat, cancelledAt: nat)
    | DepositInput(depositUser: nat, depositAsset: nat, depositAmount: nat, depositedAt: nat)
    | WithdrawInput(withdrawUser: nat, withdrawAsset: nat, withdrawAmount: nat, withdrawnAt: nat)

  datatype InputBundle = InputBundle(inputSeq: nat, crc: nat, data: InputData)

  datatype EventKind = LockEvent | TradeRefund | TradeDebit | TradeCredit

  /** Signed changes of one balance; the absolute values only where they are tracked. */
  datatype BalanceEvent = BalanceEvent(
    user: UserId, asset: AssetId, seqNo: nat, deltaAvail: int, deltaFrozen: int,
    avail: Option<nat>, frozen: Option<nat>, kind: EventKind, refId: nat)

  datatype TradeOutput = TradeOutput(
    trade: Trade, symbol: nat, base: AssetId, quote: AssetId, buyerRefund: nat, sellerRefund: nat)

  datatype OrderReport = OrderReport(
    orderId: nat, userId: nat, status: nat, filledQty: nat, remainingQty: nat, avgPrice: nat, updatedAt: nat)

  const STATUS_NEW: nat := 1
  const STATUS_PARTIAL_FILL: nat := 2
  const STATUS_FILLED: nat := 3
  const STATUS_REJECTED: nat := 5

  /** The part of a bundle that is hashed: order placements and completions, the trades' symbols and
      the hash itself stay outside. */
  datatype Hashed = Hashed(outputSeq: nat, prevHash: nat, symbol: nat, input: InputBundle,
                           report: Option<OrderReport>, trades: seq<TradeOutput>, events: seq<BalanceEvent>)

  /** xxh3 over the serialised fields: any function. */
  type HashFn = Hashed -> nat

  datatype Bundle = Bundle(outputSeq: nat, prevHash: nat, symbol: nat, input: InputBundle,
                           report: Option<OrderReport>, trades: seq<TradeOutput>, events: seq<BalanceEvent>,
                           placements: seq<Order>, completions: seq<nat>, hash: nat)
  {
    function Content(): Hashed {
      Hashed(outputSeq, prevHash, symbol, input, report, WithoutSymbols(trades), Shown(events))
    }

    /** `verify`. */
    predicate Verify(h: HashFn) {
      hash == h(Content())
    }

    /** `verify_chain`. */
    predicate VerifyChain(prev: Bundle) {
      outputSeq == prev.outputSeq + 1 && prevHash == prev.hash
    }

    /** `verify_prev_hash`. */
    predicate VerifyPrevHash(expected: nat) {
      prevHash == expected
    }
  }

  function WithoutSymbols(ts: seq<TradeOutput>): seq<TradeOutput> {
    seq(|ts|, i requires 0 <= i < |ts| => ts[i].(symbol := 0))
  }

  function OrZero(v: Option<nat>): nat {
    if v.Some? then v.value else 0
  }

  /** Events as they are hashed: a balance that is not given counts as 0. */
  function Shown(es: seq<BalanceEvent>): seq<BalanceEvent> {
    seq(|es|, i requires 0 <= i < |es| =>
      es[i].(avail := Some(OrZero(es[i].avail)), frozen := Some(OrZero(es[i].frozen))))
  }

  /** `build`: the symbol of the first trade, then the hash over everything else. */
  function Seal(h: HashFn, outputSeq: nat, prevHash: nat, input: InputBundle, report: Option<OrderReport>,
                trades: seq<TradeOutput>, events: seq<BalanceEvent>, placements: seq<Order>,
                completions: seq<nat>): (b: Bundle)
    ensures b.Verify(h) && b.outputSeq == outputSeq && b.prevHash == prevHash
  {
    var symbol := if trades == [] then 0 else trades[0].symbol;
    var b := Bundle(outputSeq, prevHash, symbol, input, report, trades, events, placements, completions, 0);
    b.(hash := h(b.Content()))
  }

  /** `EngineOutputBuilder`. */
  class Builder {
    const outputSeq: nat
    const prevHash: nat
    var input: Option<InputBundle>
    var report: Option<OrderReport>
    var trades: seq<TradeOutput>
    var events: seq<BalanceEvent>
    var placements: seq<Order>
    var completions: seq<nat>

    constructor (outputSeq: nat, prevHash: nat)
      ensures this.outputSeq == outputSeq && this.prevHash == prevHash
      ensures input == None && report == None
      ensures trades == [] && events == [] && placements == [] && completions == []
    {
      this.outputSeq, this.prevHash := outputSeq, prevHash;
      input, report := None, None;
      trades, events, placements, completions := [], [], [], [];
    }

    method SetInput(bundle: InputBundle)
      modifies this`input
      ensures input == Some(bundle)
    {
      input := Some(bundle);
    }

    method SetReport(r: OrderReport)
      modifies this`report
      ensures report == Some(r)
    {
      report := Some(r);
    }

    method AddTrade(t: TradeOutput)
      modifies this`trades
      ensures trades == old(trades) + [t]
    {
      trades := trades + [t];
    }

    method AddEvent(e: BalanceEvent)
      modifies this`events
      ensures events == old(events) + [e]
    {
      events := events + [e];
    }

    method AddPlacement(o: Order)
      modifies this`placements
      ensures placements == old(placements) + [o]
    {
      placements := placements + [o];
    }

    method AddCompletion(orderId: nat)
      modifies this`completions
      ensures completions == old(completions) + [orderId]
    {
      completions := completions + [orderId];
    }

    /** None exactly when no input was set; otherwise a bundle that verifies. */
    method Build(h: HashFn) returns (b: Option<Bundle>)
      ensures input.None? ==> b == None
      ensures input.Some? ==> b == Some(Seal(h, outputSeq, prevHash, input.value, report, trades, events,
                                             placements, completions))
    {
      if input == None {
        return None;
      }
      var symbol := if trades == [] then 0 else trades[0].symbol;
      var unsealed := Bundle(outputSeq, prevHash, symbol, input.value, report, trades, events,
                             placements, completions, 0);
      return Some(unsealed.(hash := h(unsealed.Content())));
    }
  }
}
