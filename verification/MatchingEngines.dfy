/** `MatchingEngine` in the program's own form: a vector of optional books, the asset map, the trade
    id generator, the output counter and the hash of the last output, changed in place. The ledger
    is the shadow ledger of one request. */
module MatchingEngines {
  import opened Numbers
  import opened Options
  import opened TradeIds
  import opened Balances
  import opened LedgerSpec
  import opened LedgerOverlay
  import opened Ledgers
  import opened BookSpec
  import opened BookInvariant
  import opened OrderBooks
  import opened ExchangeSpec
  import opened Collateral
  import opened Exchanges
  import opened MirroredAccounts
  import opened RecordedCommands
  import opened ReplayedRuns
  import opened EngineOutputs
  import opened BundleSpec
  import opened BundleTheorems
  import opened MatchBatches

  /** How a request ends: `Ok` with or without the order in the book, an error, after which the caller
      drops the shadow ledger, or a panic of the ledger. */
  datatype Outcome = Accepted | Declined | InvalidSymbol | Duplicated | LedgerError | Crash

  /** What reads of the book at one index see: nothing beyond the end of the vector. */
  ghost function BooksOf(books: seq<OrderBook?>): map<SymbolId, Book>
    reads books
  {
    map s: nat | s < |books| && books[s] != null :: books[s].Abs()
  }

  lemma BookAt(books: seq<OrderBook?>, s: SymbolId)
    ensures s in BooksOf(books) <==> s < |books| && books[s] != null
  {
  }

  lemma GrownBooks(books: seq<OrderBook?>, grown: seq<OrderBook?>)
    requires books <= grown && forall i :: |books| <= i < |grown| ==> grown[i] == null
    ensures BooksOf(grown) == BooksOf(books)
  {
  }

  lemma BookPut(books: seq<OrderBook?>, s: SymbolId, book: OrderBook)
    requires s < |books|
    ensures BooksOf(books[s := book]) == BooksOf(books)[s := book.Abs()]
  {
  }

  class MatchingEngine {
    var orderBooks: seq<OrderBook?>
    var assetMap: map<SymbolId, Pair>
    const tradeIdGen: FastUlidHalfGen
    var outputSeq: nat
    var lastOutputHash: nat

    ghost predicate Valid()
      reads this`orderBooks, orderBooks
    {
      && (forall i, j :: 0 <= i < j < |orderBooks| && orderBooks[i] != null ==> orderBooks[i] != orderBooks[j])
      && (forall i :: 0 <= i < |orderBooks| && orderBooks[i] != null ==> orderBooks[i].Valid())
    }

    ghost function Books(): map<SymbolId, Book>
      reads this`orderBooks, orderBooks
    {
      BooksOf(orderBooks)
    }

    /** The engine over the accounts that a request sees. */
    ghost function State(ledger: ShadowLedger): Exchange
      reads this, orderBooks, tradeIdGen, ledger, ledger.below, ledger.delta
    {
      Exchange(ledger.Accts(), Books(), assetMap, tradeIdGen.lastVal, outputSeq)
    }

    constructor ()
      ensures Valid() && Books() == map[] && assetMap == map[]
      ensures fresh(tradeIdGen) && tradeIdGen.lastVal == 0
      ensures outputSeq == 0 && lastOutputHash == GENESIS_HASH
    {
      orderBooks, assetMap := [], map[];
      tradeIdGen := new FastUlidHalfGen();
      outputSeq, lastOutputHash := 0, GENESIS_HASH;
    }

    /** `register_symbol`: the vector grows to hold the index; a taken index is refused. */
    method RegisterSymbol(symbol: SymbolId, pair: Pair) returns (ok: bool)
      requires Valid()
      modifies this`orderBooks, this`assetMap
      ensures Valid()
      ensures ok <==> symbol !in old(Books())
      ensures Books() == if ok then old(Books())[symbol := EMPTY_BOOK] else old(Books())
      ensures assetMap == if ok then old(assetMap)[symbol := pair] else old(assetMap)
      ensures forall b :: b in orderBooks && b != null && b !in old(orderBooks) ==> fresh(b)
    {
      hide OrderBook.Valid, OrderBook.Abs, BooksOf;
      BookAt(orderBooks, symbol);
      if symbol < |orderBooks| {
        if orderBooks[symbol] != null {
          return false;
        }
      } else {
        ghost var before := orderBooks;
        orderBooks := orderBooks + seq(symbol + 1 - |orderBooks|, _ => null);
        GrownBooks(before, orderBooks);
      }
      var book := new OrderBook();
      BookPut(orderBooks, symbol, book);
      orderBooks := orderBooks[symbol := book];
      assetMap := assetMap[symbol := pair];
      return true;
    }

    /** Adding to one book changes that book only. */
    method AddToBook(symbol: SymbolId, o: Order, ts: nat) returns (ok: bool, trades: seq<Trade>)
      requires Valid() && symbol in Books()
      modifies orderBooks[symbol], tradeIdGen
      ensures Valid()
      ensures var r := Add(old(Books())[symbol], o, old(tradeIdGen.lastVal), ts);
              && ok == r.Added?
              && (ok ==> Books() == old(Books())[symbol := r.book] && trades == r.trades
                         && tradeIdGen.lastVal == r.lastId)
              && (!ok ==> Books() == old(Books()) && tradeIdGen.lastVal == old(tradeIdGen.lastVal))
    {
      hide Add, OrderBook.Valid, OrderBook.Abs;
      ok, trades := orderBooks[symbol].AddOrder(o, tradeIdGen, ts);
    }

    method RemoveFromBook(symbol: SymbolId, id: nat) returns (removed: Option<Order>)
      requires Valid() && symbol in Books()
      modifies orderBooks[symbol]
      ensures Valid()
      ensures var r := Remove(old(Books())[symbol], id);
              removed == r.order && Books() == old(Books())[symbol := r.book]
    {
      hide Remove, OrderBook.Valid, OrderBook.Abs;
      removed := orderBooks[symbol].RemoveOrder(id);
    }

    /** The Lock command, from the balance the ledger shows. */
    method PrepareLock(ledger: ShadowLedger, pair: Pair, o: Order) returns (c: Cmd, frozen: nat)
      requires ledger.Valid()
      ensures c == LockCommand(ledger.Accts(), pair, o)
      ensures frozen == Get(ledger.Accts(), o.user, c.asset).frozen
    {
      hide ShadowLedger.Accts, ShadowLedger.Valid, Get;
      var asset, amount := pair.1, o.price * o.quantity;
      if o.side == Sell {
        asset, amount := pair.0, o.quantity;
      }
      var b := ledger.GetBalance(o.user, asset);
      frozen := b.frozen;
      var after := if b.avail >= amount then b.avail - amount else b.avail;
      c := Cmd.Lock(o.user, asset, amount, after, WrapAdd(b.version, 1));
    }

    /** `let _ = ledger.apply(&LedgerCommand::OrderUpdate(..))`: recorded, without effect on accounts. */
    method Report(ledger: ShadowLedger, o: Order, status: OrderState)
      requires ledger.Valid()
      modifies ledger, ledger.delta
      ensures ledger.Valid() && ledger.Accts() == old(ledger.Accts())
      ensures ledger.pending == old(ledger.pending) + [UpdateOf(o, status)]
    {
      UpdateDoesNothing(ledger.Accts(), UpdateOf(o, status));
      hide ShadowLedger.Accts, ShadowLedger.Valid, ApplyTx, Leaves;
      var v := ledger.Apply(UpdateOf(o, status));
    }

    /** `process_order_logic`. When it returns Ok, the engine and the shadow are in the state the
        specification gives, and the shadow has recorded the commands that led there. A duplicate id
        leaves books and counters alone; after a failed batch the book has the order, and generator and
        counter have moved for its trades. */
    method ProcessOrderLogic(ledger: ShadowLedger, o: Order, ts: nat) returns (r: Outcome)
      requires Valid() && ledger.Valid()
      modifies this`outputSeq, tradeIdGen, orderBooks, ledger, ledger.delta
      ensures Valid() && ledger.Valid()
      ensures var p := Place(old(State(ledger)), o, ts);
              && (r == Accepted <==> p.Placed?)
              && (r == Declined <==> p.NotAccepted?)
              && (r == Duplicated <==> p.DuplicateOrder?)
              && (r == LedgerError <==> p.BatchFailed?)
              && (r == Crash <==> p.Crashed?)
              && (p.Placed? || p.NotAccepted? ==>
                    && State(ledger) == p.x
                    && ledger.pending == old(ledger.pending) + PlaceCommands(old(State(ledger)), o, p))
      ensures r == Duplicated ==>
                Books() == old(Books()) && tradeIdGen.lastVal == old(tradeIdGen.lastVal) && outputSeq == old(outputSeq)
      ensures r == Duplicated || r == LedgerError ==>
                && o.symbol in assetMap && o.symbol in old(Books())
                && var m := old(ledger.Accts());
                   var lock := ApplyTx(m, LockCommand(m, assetMap[o.symbol], o));
                   lock.Done? && (r == Duplicated ==> ledger.Accts() == lock.accts)
      ensures r == LedgerError ==>
                && var a := Add(old(Books())[o.symbol], o, old(tradeIdGen.lastVal), ts);
                   && a.Added? && Books() == old(Books())[o.symbol := a.book]
                   && tradeIdGen.lastVal == a.lastId && outputSeq == old(outputSeq) + |a.trades|
    {
      hide ApplyTx, Add, BuildBatch, LockCommand, Leaves, Valid, ShadowLedger.Valid, ShadowLedger.Accts, BooksOf, Place,
           UpdateOf, LedgerSpec.Get;
      PlaceCases(State(ledger), o, ts);
      var locked, pair := LockFunds(ledger, o, ts);
      if !locked {
        return Declined;
      }
      BookPresent(o.symbol);
      var added, trades := AddToBook(o.symbol, o, ts);
      if !added {
        return Duplicated;
      }
      var v := SettleOnLedger(ledger, o, pair, trades);
      return match v case Applied => Accepted case Refused => LedgerError case Panic => Crash;
    }

    /** The first half: the order's assets, the lock, and whether there is a book. */
    method LockFunds(ledger: ShadowLedger, o: Order, ghost ts: nat) returns (locked: bool, pair: Pair)
      requires Valid() && ledger.Valid()
      modifies ledger, ledger.delta
      ensures ledger.Valid()
      ensures locked ==>
                && o.symbol in assetMap && pair == assetMap[o.symbol] && o.symbol in Books()
                && var lock := LockCommand(old(ledger.Accts()), pair, o);
                   && ApplyTx(old(ledger.Accts()), lock) == Done(ledger.Accts())
                   && ledger.pending == old(ledger.pending) + [lock, UpdateOf(o, OrderState.New)]
      ensures !locked ==>
                && Place(old(State(ledger)), o, ts) == NotAccepted(State(ledger))
                && ledger.pending == old(ledger.pending) + DeclinedCommands(old(State(ledger)), o)
    {
      hide ApplyTx, Add, BuildBatch, LockCommand, Leaves, Valid, ShadowLedger.Valid, ShadowLedger.Accts, BooksOf, Place,
           UpdateOf, LedgerSpec.Get;
      PlaceCases(State(ledger), o, ts);
      if o.symbol !in assetMap {
        Report(ledger, o, OrderState.Rejected);
        return false, (0, 0);
      }
      pair := assetMap[o.symbol];
      var lock, frozen := PrepareLock(ledger, pair, o);
      LeavesOfLock(ledger.Accts(), pair, o);
      var v := ledger.Apply(lock);
      if v != Applied {
        Report(ledger, o, OrderState.Rejected);
        return false, pair;
      }
      Report(ledger, o, OrderState.New);
      BookPresent(o.symbol);
      if o.symbol >= |orderBooks| || orderBooks[o.symbol] == null {
        Report(ledger, o, OrderState.Rejected);
        return false, pair;
      }
      return true, pair;
    }

    /** `add_order`: symbol and id are checked before anything else, so a refused order has not touched
        the ledger, and the duplicate that `ProcessOrderLogic` finds only after locking is not reached. */
    method AddOrder(ledger: ShadowLedger, o: Order, ts: nat) returns (r: Outcome)
      requires Valid() && ledger.Valid()
      modifies this`outputSeq, tradeIdGen, orderBooks, ledger, ledger.delta
      ensures Valid() && ledger.Valid()
      ensures r == InvalidSymbol <==> o.symbol !in assetMap
      ensures r == Duplicated <==>
                o.symbol in assetMap && o.symbol in old(Books()) && o.id in old(Books())[o.symbol].active
      ensures r == InvalidSymbol || r == Duplicated ==>
                State(ledger) == old(State(ledger)) && ledger.pending == old(ledger.pending)
      ensures r != InvalidSymbol && r != Duplicated ==>
                var p := Place(old(State(ledger)), o, ts);
                && (r == Accepted <==> p.Placed?) && (r == Declined <==> p.NotAccepted?)
                && (r == LedgerError <==> p.BatchFailed?) && (r == Crash <==> p.Crashed?)
                && (p.Placed? || p.NotAccepted? ==>
                      && State(ledger) == p.x
                      && ledger.pending == old(ledger.pending) + PlaceCommands(old(State(ledger)), o, p))
      ensures r == LedgerError ==>
                && o.symbol in old(Books())
                && var a := Add(old(Books())[o.symbol], o, old(tradeIdGen.lastVal), ts);
                   && a.Added? && Books() == old(Books())[o.symbol := a.book]
                   && tradeIdGen.lastVal == a.lastId && outputSeq == old(outputSeq) + |a.trades|
    {
      hide Place, Valid, ShadowLedger.Valid, ShadowLedger.Accts, PlaceCommands, OrderBook.Valid, OrderBook.Abs,
           LedgerSpec.Get;
      if o.symbol !in assetMap {
        return InvalidSymbol;
      }
      if o.symbol < |orderBooks| && orderBooks[o.symbol] != null {
        BookIsValid(o.symbol);
        var known := orderBooks[o.symbol].HasOrder(o.id);
        if known {
          return Duplicated;
        }
      }
      NewIdIsNoDuplicate(State(ledger), o, ts);
      r := ProcessOrderLogic(ledger, o, ts);
    }

    lemma BookIsValid(symbol: SymbolId)
      requires Valid() && symbol < |orderBooks| && orderBooks[symbol] != null
      ensures orderBooks[symbol].Valid()
    {
    }

    /** The second half: build the batch, and apply it if there is any. */
    method SettleOnLedger(ledger: ShadowLedger, o: Order, pair: Pair, trades: seq<Trade>) returns (v: Verdict)
      requires ledger.Valid()
      modifies this`outputSeq, ledger, ledger.delta
      ensures ledger.Valid()
      ensures var batch := BuildBatch(old(ledger.Accts()), NO_OVERLAY, o, pair, trades, old(outputSeq));
              var tx := ApplyTx(old(ledger.Accts()), MatchExecBatch(batch));
              && (v == Applied <==> tx.Done?) && (v == Refused <==> tx.Failed?)
              && (v == Applied ==>
                    && ledger.Accts() == tx.accts
                    && ledger.pending == old(ledger.pending) + if batch != [] then [MatchExecBatch(batch)] else [])
      ensures outputSeq == old(outputSeq) + |trades|
    {
      hide ApplyTx, BuildBatch, Leaves, ShadowLedger.Valid, ShadowLedger.Accts;
      var batch;
      batch, outputSeq := BuildMatchBatch(ledger, o, pair, trades, outputSeq);
      EmptyBatchDoesNothing(ledger.Accts());
      LeavesOfBatch(batch);
      if batch == [] {
        return Applied;
      }
      v := ledger.Apply(MatchExecBatch(batch));
    }

    /** `build_unchecked`, and the chain head moves to the new bundle. */
    method Publish(hs: Hashes, builder: Builder) returns (b: Bundle)
      requires builder.input.Some?
      modifies this`lastOutputHash
      ensures b == Seal(hs.xxh, builder.outputSeq, builder.prevHash, builder.input.value, builder.report,
                        builder.trades, builder.events, builder.placements, builder.completions)
      ensures lastOutputHash == b.hash
    {
      var built := builder.Build(hs.xxh);
      b := built.value;
      lastOutputHash := b.hash;
    }

    /** A rejection: reported to the ledger and in the bundle. */
    method Reject(hs: Hashes, ledger: ShadowLedger, builder: Builder, q: Request) returns (b: Bundle)
      requires ledger.Valid() && builder.input.Some?
      modifies this`lastOutputHash, ledger, ledger.delta, builder
      ensures ledger.Valid() && ledger.Accts() == old(ledger.Accts())
      ensures b == Seal(hs.xxh, builder.outputSeq, builder.prevHash, old(builder.input.value),
                        Some(RejectReport(q.order, q.ts)), old(builder.trades), old(builder.events),
                        old(builder.placements), old(builder.completions))
      ensures lastOutputHash == b.hash
      ensures ledger.pending == old(ledger.pending) + [UpdateOf(q.order, OrderState.Rejected)]
    {
      hide ShadowLedger.Accts, ShadowLedger.Valid, Seal;
      Report(ledger, q.order, OrderState.Rejected);
      builder.SetReport(RejectReport(q.order, q.ts));
      b := Publish(hs, builder);
    }

    /** `process_order_with_output`: as the plain path, with every effect captured in one bundle. The
        output counter moves first and in every case. Both errors come after the lock: a duplicate id leaves
        books and generator alone, after a failed batch the book has the order. */
    method ProcessOrderWithOutput(hs: Hashes, ledger: ShadowLedger, q: Request)
      returns (r: Outcome, output: Option<Bundle>)
      requires Valid() && ledger.Valid()
      modifies this`outputSeq, this`lastOutputHash, tradeIdGen, orderBooks, ledger, ledger.delta
      ensures Valid() && ledger.Valid()
      ensures var p := PlaceWithOutput(hs, old(Engine(State(ledger), lastOutputHash)), q);
              && (p.Output? ==> output == Some(p.bundle) && r == (if p.accepted then Accepted else Declined)
                                && Engine(State(ledger), lastOutputHash) == p.e
                                && ledger.pending == old(ledger.pending) +
                                   OutputCommands(hs, old(Engine(State(ledger), lastOutputHash)), q))
              && (p.NoOutput? ==> output == None && (r == Duplicated || r == LedgerError))
              && (p.OutputCrash? ==> output == None && r == Crash)
      ensures outputSeq == old(outputSeq) + 1
      ensures output == None ==> lastOutputHash == old(lastOutputHash)
      ensures r == Duplicated ==> Books() == old(Books()) && tradeIdGen.lastVal == old(tradeIdGen.lastVal)
      ensures r == Duplicated || r == LedgerError ==>
                && q.order.symbol in assetMap && q.order.symbol in old(Books())
                && var m := old(ledger.Accts());
                   var lock := ApplyTx(m, LockCommand(m, assetMap[q.order.symbol], q.order));
                   lock.Done? && (r == Duplicated ==> ledger.Accts() == lock.accts)
      ensures r == LedgerError ==>
                var a := Add(old(Books())[q.order.symbol], q.order, old(tradeIdGen.lastVal), q.ts);
                && a.Added? && Books() == old(Books())[q.order.symbol := a.book] && tradeIdGen.lastVal == a.lastId
    {
      hide ApplyTx, Add, OutputBatch, LockCommand, Leaves, Valid, ShadowLedger.Valid, ShadowLedger.Accts, BooksOf,
           PlaceWithOutput, Seal, RejectReport, InputOf, FilledQty, EventsOf, TradeOutputs, LockEventOf, LedgerSpec.Get,
           OutputTx, SettledBundle, OutputCommands, SettleCommands, DeclinedCommands, UpdateOf;
      ghost var e := Engine(State(ledger), lastOutputHash);
      OutputCases(hs, e, q);
      OutputCommandsInHalves(hs, e, q);
      outputSeq := outputSeq + 1;
      var builder := new Builder(outputSeq, lastOutputHash);
      builder.SetInput(InputOf(hs, q));
      var locked, pair, rejected := LockForOutput(hs, ledger, builder, q, e);
      if !locked {
        return Declined, Some(rejected.value);
      }
      r, output := MatchAndPublish(hs, ledger, builder, q, pair, e);
    }

    /** Up to the locked order: its assets, the lock and its event, and whether there is a book; a
        bundle with the rejection otherwise. */
    method LockForOutput(hs: Hashes, ledger: ShadowLedger, builder: Builder, q: Request, ghost e: Engine)
      returns (locked: bool, pair: Pair, rejected: Option<Bundle>)
      requires Valid() && ledger.Valid()
      requires e.x.accts == ledger.Accts() && e.x.pairs == assetMap && e.x.books == Books()
      requires builder.outputSeq == e.x.outputSeq + 1 && builder.prevHash == e.lastHash
      requires builder.input == Some(InputOf(hs, q)) && builder.events == []
      requires builder.trades == [] && builder.placements == [] && builder.completions == []
      modifies this`lastOutputHash, ledger, ledger.delta, builder
      ensures ledger.Valid()
      ensures locked ==>
                && q.order.symbol in e.x.pairs && pair == e.x.pairs[q.order.symbol] && q.order.symbol in e.x.books
                && ApplyTx(e.x.accts, LockCommand(e.x.accts, pair, q.order)) == Done(ledger.Accts())
                && builder.events == [LockEventOf(e.x.accts, pair, q.order)]
                && builder.input == Some(InputOf(hs, q))
                && builder.trades == [] && builder.placements == [] && builder.completions == []
                && lastOutputHash == old(lastOutputHash)
                && ledger.pending == old(ledger.pending)
                                     + [LockCommand(e.x.accts, pair, q.order), UpdateOf(q.order, OrderState.New)]
      ensures !locked ==>
                && ledger.pending == old(ledger.pending) + DeclinedCommands(e.x, q.order)
                && rejected.Some? && lastOutputHash == rejected.value.hash
                && PlaceWithOutput(hs, e, q) ==
                   Emit(hs, e.x.(outputSeq := e.x.outputSeq + 1, accts := ledger.Accts()), rejected.value, false)
    {
      hide ApplyTx, Add, OutputBatch, LockCommand, Leaves, Valid, ShadowLedger.Valid, ShadowLedger.Accts, BooksOf,
           PlaceWithOutput, Seal, RejectReport, InputOf, FilledQty, EventsOf, TradeOutputs, LockEventOf, LedgerSpec.Get,
           OutputTx, SettledBundle;
      OutputCases(hs, e, q);
      var o := q.order;
      if o.symbol !in assetMap {
        var b := Reject(hs, ledger, builder, q);
        return false, (0, 0), Some(b);
      }
      pair := assetMap[o.symbol];
      var lock, frozen := PrepareLock(ledger, pair, o);
      LeavesOfLock(e.x.accts, pair, o);
      var v := ledger.Apply(lock);
      if v != Applied {
        var b := Reject(hs, ledger, builder, q);
        return false, pair, Some(b);
      }
      AddLockEvent(builder, e.x.accts, pair, o, lock, frozen);
      assert builder.events == [LockEventOf(e.x.accts, pair, o)];
      Report(ledger, o, OrderState.New);
      BookPresent(o.symbol);
      if o.symbol >= |orderBooks| || orderBooks[o.symbol] == null {
        var b := Reject(hs, ledger, builder, q);
        return false, pair, Some(b);
      }
      return true, pair, None;
    }

    /** From the locked order on: match it, settle the trades, publish the bundle. */
    method MatchAndPublish(hs: Hashes, ledger: ShadowLedger, builder: Builder, q: Request, pair: Pair, ghost e: Engine)
      returns (r: Outcome, output: Option<Bundle>)
      requires Valid() && ledger.Valid() && q.order.symbol in Books() && q.order.symbol in e.x.books
      requires Books()[q.order.symbol] == e.x.books[q.order.symbol] && tradeIdGen.lastVal == e.x.lastId
      requires builder.outputSeq == e.x.outputSeq + 1 && builder.prevHash == e.lastHash
      requires builder.input == Some(InputOf(hs, q)) && builder.events == [LockEventOf(e.x.accts, pair, q.order)]
      requires builder.trades == [] && builder.placements == [] && builder.completions == []
      modifies this`lastOutputHash, tradeIdGen, orderBooks, ledger, ledger.delta, builder
      ensures Valid() && ledger.Valid()
      ensures var added := Add(e.x.books[q.order.symbol], q.order, e.x.lastId, q.ts);
              && (added.Duplicate? ==> r == Duplicated && output == None && ledger.Accts() == old(ledger.Accts())
                                       && Books() == old(Books()) && tradeIdGen.lastVal == e.x.lastId)
              && (added.Added? ==>
                    && FilledQty(added.trades) <= q.order.quantity
                    && tradeIdGen.lastVal == added.lastId && Books() == old(Books())[q.order.symbol := added.book]
                    && var tx := OutputTx(e, q, pair, old(ledger.Accts()), added.trades);
                       && (tx.Done? ==>
                             && r == Accepted
                             && output == Some(SettledBundle(hs, e, q, pair, old(ledger.Accts()), added.trades))
                             && ledger.Accts() == tx.accts
                             && ledger.pending == old(ledger.pending)
                                                  + SettleCommands(e, q, pair, old(ledger.Accts()), added.trades))
                       && (tx.Failed? ==> r == LedgerError && output == None)
                       && (tx.Panicked? ==> r == Crash && output == None))
      ensures lastOutputHash == if output == None then old(lastOutputHash) else output.value.hash
    {
      hide ApplyTx, Add, OutputBatch, Leaves, Valid, ShadowLedger.Valid, ShadowLedger.Accts, BooksOf, Seal, InputOf,
           FilledQty, EventsOf, TradeOutputs, LockEventOf, ReportOf;
      BookPresent(q.order.symbol);
      var added, trades := AddToBook(q.order.symbol, q.order, q.ts);
      if !added {
        return Duplicated, None;
      }
      FilledWithinOrder(e.x.books[q.order.symbol], q.order, e.x.lastId, q.ts);
      var v := SettleWithBundle(ledger, builder, q, pair, trades);
      if v != Applied {
        return if v == Refused then LedgerError else Crash, None;
      }
      assert builder.placements == [q.order] && builder.trades == TradeOutputs(q.order, pair, trades);
      assert forall ids: seq<nat> :: [] + ids == ids;
      var b := Publish(hs, builder);
      return Accepted, Some(b);
    }

    method AddLockEvent(builder: Builder, ghost m: Accounts, pair: Pair, o: Order, lock: Cmd, frozen: nat)
      requires lock == LockCommand(m, pair, o) && frozen == Get(m, o.user, lock.asset).frozen
      modifies builder`events
      ensures builder.events == old(builder.events) + [LockEventOf(m, pair, o)]
    {
      builder.AddEvent(BalanceEvent(o.user, lock.asset, lock.version, NegI64(AsI64(lock.amount)),
                                    AsI64(lock.amount), Some(lock.balanceAfter), Some(frozen + lock.amount),
                                    LockEvent, o.id));
    }

    /** The second half of the bundle path: placement, trades and events, the batch, the report. */
    method SettleWithBundle(ledger: ShadowLedger, builder: Builder, q: Request, pair: Pair, trades: seq<Trade>)
      returns (v: Verdict)
      requires ledger.Valid() && FilledQty(trades) <= q.order.quantity
      modifies ledger, ledger.delta, builder
      ensures ledger.Valid()
      ensures var batch := OutputBatch(old(ledger.Accts()), NO_OVERLAY, q.order, pair, trades, builder.outputSeq);
              var tx := ApplyTx(old(ledger.Accts()), MatchExecBatch(batch));
              var report := ReportOf(q.order, trades, q.ts);
              && (v == Applied <==> tx.Done?) && (v == Refused <==> tx.Failed?)
              && (v == Applied ==>
                    && ledger.Accts() == tx.accts
                    && ledger.pending == old(ledger.pending) + (if batch != [] then [MatchExecBatch(batch)] else [])
                    && builder.input == old(builder.input) && builder.report == Some(report)
                    && builder.trades == old(builder.trades) + TradeOutputs(q.order, pair, trades)
                    && builder.events == old(builder.events) + EventsOf(batch)
                    && builder.placements == old(builder.placements) + [q.order]
                    && builder.completions == old(builder.completions)
                                              + if report.status == STATUS_FILLED then [q.order.id] else [])
    {
      hide ApplyTx, OutputBatch, Leaves, ShadowLedger.Valid, ShadowLedger.Accts, FilledQty, TotalCost, EventsOf,
           TradeOutputs;
      builder.AddPlacement(q.order);
      var batch, totalFilled, totalCost := BuildOutputs(ledger, builder, q.order, pair, trades, builder.outputSeq);
      EmptyBatchDoesNothing(ledger.Accts());
      LeavesOfBatch(batch);
      if batch != [] {
        v := ledger.Apply(MatchExecBatch(batch));
        if v != Applied {
          return;
        }
      }
      var remaining := q.order.quantity - totalFilled;
      var avgPrice := if totalFilled > 0 then totalCost / totalFilled else 0;
      var status :=
        if totalFilled == 0 then STATUS_NEW else if remaining == 0 then STATUS_FILLED else STATUS_PARTIAL_FILL;
      builder.SetReport(OrderReport(q.order.id, q.order.user, status, totalFilled, remaining, avgPrice, q.ts));
      if status == STATUS_FILLED {
        builder.AddCompletion(q.order.id);
      }
      return Applied;
    }

    /** One order against the ledger with its log: the order runs on a shadow, which is committed when
        the call returns Ok and dropped otherwise. The commit goes through unless one of the recorded
        commands is too large for a log segment. When it does, engine and ledger are
        where the specification says and the log still holds exactly the applied commands. Applying
        them still gives the very accounts if and only if the order was accepted or its refusal left no
        trace; and in any case every snapshot that the ledger could be rebuilt from before, it can be
        rebuilt from after. */
    method PlaceAndCommit(global: GlobalLedger, o: Order, ts: nat) returns (r: Outcome, committed: bool)
      requires Valid() && global.Valid()
      requires this !in global.WalRepr() && tradeIdGen !in global.WalRepr()
      requires forall b :: b in orderBooks && b != null ==> b !in global.WalRepr()
      modifies this`outputSeq, tradeIdGen, orderBooks, global, global.table, global.WalRepr()
      ensures Valid() && global.Valid()
      ensures var x := Exchange(old(global.Accts()), old(Books()), assetMap, old(tradeIdGen.lastVal), old(outputSeq));
              var p := Place(x, o, ts);
              && (r == Accepted <==> p.Placed?) && (r == Declined <==> p.NotAccepted?)
              && (r == Duplicated <==> p.DuplicateOrder?)
              && (r == LedgerError <==> p.BatchFailed?) && (r == Crash <==> p.Crashed?)
              && (p.Placed? || p.NotAccepted? ==>
                    && Books() == p.x.books && tradeIdGen.lastVal == p.x.lastId && outputSeq == p.x.outputSeq
                    && var cs := PlaceCommands(x, o, p);
                       && (committed <==> global.Loggable(cs) == |cs|)
                       && global.LoggedSince(cs, global.Loggable(cs))
                       && global.history == if committed then old(global.history) + cs else old(global.history))
              && (committed ==>
                    && (p.Placed? || p.NotAccepted?)
                    && p.x == Exchange(global.Accts(), Books(), assetMap, tradeIdGen.lastVal, outputSeq)
                    && (old(global.Logs()) ==> global.Logs())
                    && (old(global.Faithful()) ==> (global.Faithful() <==> p.Placed? || LeavesNoTrace(x, o)))
                    && (LockAmount(o) <= U64_MAX ==>
                          forall k, m :: ReplaysFrom(x, old(global.history), k, m) ==>
                            ReplaysFrom(p.x, global.history, k, m) && global.RebuildsFrom(k, m)))
      ensures !committed ==> global.Accts() == old(global.Accts())
      ensures r != Accepted && r != Declined ==>
                && !committed && global.history == old(global.history)
                && global.lastSeq == old(global.lastSeq) && global.WalRecords() == old(global.WalRecords())
      ensures r == Duplicated ==>
                Books() == old(Books()) && tradeIdGen.lastVal == old(tradeIdGen.lastVal) && outputSeq == old(outputSeq)
    {
      hide Valid, ShadowLedger.Valid, BooksOf, Place, PlaceCommands, GlobalLedger.Valid, GlobalLedger.Faithful,
           GlobalLedger.Loggable, GlobalLedger.Logs, GlobalLedger.RebuildsFrom, Recovery.Flatten, Recovery.Logged,
           ApplyTx,
           AccountsOf, AllDistinct, ShadowLedger.Accts, ReplaysFrom, LeavesNoTrace, LockAmount, LockCommand, Add;
      GlobalParts(global);
      var shadow := new ShadowLedger(global.table);
      ghost var x := State(shadow);
      r := ProcessOrderLogic(shadow, o, ts);
      if r != Accepted && r != Declined {
        return r, false;
      }
      committed := CommitOrder(global, shadow, x, o, ts);
    }

    /** Committing the shadow that an order ran on. */
    static method CommitOrder(global: GlobalLedger, shadow: ShadowLedger, ghost x: Exchange, ghost o: Order,
                              ghost ts: nat)
      returns (committed: bool)
      requires global.Valid() && shadow.Valid() && shadow.below == global.table
      requires x.accts == global.Accts()
      requires Place(x, o, ts).Placed? || Place(x, o, ts).NotAccepted?
      requires shadow.Accts() == Place(x, o, ts).x.accts && shadow.pending == PlaceCommands(x, o, Place(x, o, ts))
      modifies global, global.table, global.WalRepr()
      ensures global.Valid()
      ensures var p := Place(x, o, ts);
              var cs := PlaceCommands(x, o, p);
              && (committed <==> global.Loggable(cs) == |cs|)
              && global.LoggedSince(cs, global.Loggable(cs))
              && global.history == (if committed then old(global.history) + cs else old(global.history))
              && global.Accts() == (if committed then p.x.accts else old(global.Accts()))
              && (committed ==>
                    && (old(global.Logs()) ==> global.Logs())
                    && (old(global.Faithful()) ==> (global.Faithful() <==> p.Placed? || LeavesNoTrace(x, o)))
                    && (LockAmount(o) <= U64_MAX ==>
                          forall k, m :: ReplaysFrom(x, old(global.history), k, m) ==>
                            ReplaysFrom(p.x, global.history, k, m) && global.RebuildsFrom(k, m)))
    {
      hide MatchingEngine.Valid, ShadowLedger.Valid, BooksOf, Place, PlaceCommands, ApplyAll, GlobalLedger.Faithful,
           GlobalLedger.Loggable, GlobalLedger.Logs, GlobalLedger.RebuildsFrom, GlobalLedger.Ran, GlobalLedger.Valid,
           Recovery.Flatten, Recovery.Logged, AccountsOf, AllDistinct, ShadowLedger.Accts, ApplyTx, ReplaysFrom,
           LeavesNoTrace, LockAmount;
      GlobalParts(global);
      ghost var history, p := global.history, Place(x, o, ts);
      CommandsTellTheState(x, o, ts);
      ShadowParts(shadow);
      committed := global.CommitDelta(shadow.pending, shadow.delta.accounts);
      if committed && LockAmount(o) <= U64_MAX {
        forall k, m | ReplaysFrom(x, history, k, m)
          ensures ReplaysFrom(p.x, global.history, k, m) && global.RebuildsFrom(k, m)
        {
          PlacingKeepsReplaying(x, o, ts, history, k, m);
          ReplaysRebuild(global, p.x, k, m);
        }
      }
    }

    // ----- Cancelling -----

    /** `process_cancel`: the commands that give the funds back. */
    method ProcessCancel(symbol: SymbolId, id: nat) returns (r: CancelOutcome)
      requires Valid()
      modifies orderBooks
      ensures Valid()
      ensures r == CancelOf(old(Books()), assetMap, symbol, id)
      ensures Books() == if symbol in old(Books())
                         then old(Books())[symbol := Remove(old(Books())[symbol], id).book] else old(Books())
    {
      hide Valid, BooksOf, Remove;
      BookPresent(symbol);
      if symbol >= |orderBooks| || orderBooks[symbol] == null {
        return UnknownSymbol;
      }
      var removed := RemoveFromBook(symbol, id);
      if removed == None {
        return OrderNotFound;
      }
      var o := removed.value;
      if symbol !in assetMap {
        return NoAssets;
      }
      var pair := assetMap[symbol];
      var asset, amount := pair.1, o.price * o.quantity;
      if o.side == Sell {
        asset, amount := pair.0, o.quantity;
      }
      return Unlocked(o, [Cmd.Unlock(o.user, asset, amount, WrapAdd(STUB_BALANCE, amount), STUB_VERSION + 1),
                          UpdateOf(o, OrderState.Cancelled)]);
    }

    /** The search of `cancel_order` for symbol 0: the first book that knows the id. */
    method FindSymbol(id: nat) returns (s: Option<SymbolId>)
      requires Valid()
      ensures s.Some? ==> FirstWith(Books(), id, s.value)
      ensures s.None? ==> forall k :: k in Books() ==> id !in Books()[k].active
    {
      hide OrderBook.Valid, OrderBook.Abs;
      var i := 0;
      while i < |orderBooks|
        invariant i <= |orderBooks|
        invariant forall k :: 0 <= k < i && k in Books() ==> id !in Books()[k].active
      {
        if orderBooks[i] != null {
          var has := orderBooks[i].HasOrder(id);
          if has {
            return Some(i);
          }
        }
        i := i + 1;
      }
      return None;
    }

    /** `cancel_order`: symbol 0 stands for the first book that knows the id. */
    method CancelOrder(symbol: SymbolId, id: nat) returns (r: CancelOutcome)
      requires Valid()
      modifies orderBooks
      ensures Valid()
      ensures var books := old(Books());
              && (symbol == 0 && (forall s :: s in books ==> id !in books[s].active) ==>
                    r == OrderNotFound && Books() == books)
              && (forall s :: (symbol != 0 && s == symbol) || (symbol == 0 && FirstWith(books, id, s)) ==>
                    && r == CancelOf(books, assetMap, s, id)
                    && Books() == if s in books then books[s := Remove(books[s], id).book] else books)
    {
      hide Remove, CancelOf, Valid, BooksOf;
      if symbol != 0 {
        r := ProcessCancel(symbol, id);
        return;
      }
      var s := FindSymbol(id);
      if s == None {
        return OrderNotFound;
      }
      OnlyOneIsFirst(Books(), id, s.value);
      r := ProcessCancel(s.value, id);
    }

    lemma BookPresent(symbol: SymbolId)
      ensures symbol in Books() <==> symbol < |orderBooks| && orderBooks[symbol] != null
    {
    }
  }

  lemma UpdateDoesNothing(m: Accounts, c: Cmd)
    requires c.OrderUpdate?
    ensures ApplyTx(m, c) == Done(m) && Leaves(c) == [c]
  {
  }

  lemma LeavesOfLock(m: Accounts, pair: Pair, o: Order)
    ensures var c := LockCommand(m, pair, o);
            c.Lock? && IsTransfer(c) && Leaves(c) == [c] && c.user == o.user && c.asset == LockAsset(pair, o.side)
  {
  }

  lemma LeavesOfBatch(batch: seq<ExecData>)
    ensures Leaves(MatchExecBatch(batch)) == [MatchExecBatch(batch)]
  {
  }

  /** The branches of `Place`, for any state. */
  lemma PlaceCases(x: Exchange, o: Order, ts: nat)
    ensures o.symbol !in x.pairs ==> Place(x, o, ts) == NotAccepted(x)
    ensures o.symbol in x.pairs ==>
              var pair := x.pairs[o.symbol];
              var lock := ApplyTx(x.accts, LockCommand(x.accts, pair, o));
              && (lock.Panicked? ==> Place(x, o, ts) == Crashed)
              && (lock.Failed? ==> Place(x, o, ts) == NotAccepted(x.(accts := lock.accts)))
              && (lock.Done? && o.symbol !in x.books ==> Place(x, o, ts) == NotAccepted(x.(accts := lock.accts)))
              && (lock.Done? && o.symbol in x.books ==>
                    var r := Add(x.books[o.symbol], o, x.lastId, ts);
                    && (r.Duplicate? ==> Place(x, o, ts) == DuplicateOrder)
                    && (r.Added? ==> SettlesAs(x, o, pair, lock.accts, r.book, r.trades, r.lastId, Place(x, o, ts))))
  {
    hide ApplyTx, Add, BuildBatch, LockCommand;
  }

  /** What settling the trades makes of the result of placing. */
  ghost predicate SettlesAs(x: Exchange, o: Order, pair: Pair, a: Accounts, b: Book, trades: seq<Trade>,
                            lastId: nat, p: PlaceResult)
    requires o.symbol in x.books
  {
    var batch := BuildBatch(a, NO_OVERLAY, o, pair, trades, x.outputSeq);
    var tx := ApplyTx(a, MatchExecBatch(batch));
    if tx.Done? then
      p == Placed(x.(accts := tx.accts, books := x.books[o.symbol := b], lastId := lastId,
                     outputSeq := x.outputSeq + |trades|), batch)
    else if tx.Failed? then p == BatchFailed
    else p == Crashed
  }

  /** The branches of `PlaceWithOutput`, for any state. */
  lemma OutputCases(hs: Hashes, e: Engine, q: Request)
    ensures var o, n := q.order, e.x.outputSeq + 1;
            var x := e.x.(outputSeq := n);
            var p, input, reject := PlaceWithOutput(hs, e, q), InputOf(hs, q), Some(RejectReport(o, q.ts));
            && (o.symbol !in x.pairs ==>
                  p == Emit(hs, x, Seal(hs.xxh, n, e.lastHash, input, reject, [], [], [], []), false))
            && (o.symbol in x.pairs ==>
                  var pair := x.pairs[o.symbol];
                  var lock, event := ApplyTx(x.accts, LockCommand(x.accts, pair, o)), LockEventOf(x.accts, pair, o);
                  && (lock.Failed? ==>
                        p == Emit(hs, x.(accts := lock.accts),
                                  Seal(hs.xxh, n, e.lastHash, input, reject, [], [], [], []), false))
                  && (lock.Done? && o.symbol !in x.books ==>
                        p == Emit(hs, x.(accts := lock.accts),
                                  Seal(hs.xxh, n, e.lastHash, input, reject, [], [event], [], []), false))
                  && (lock.Done? && o.symbol in x.books ==>
                        var r := Add(x.books[o.symbol], o, x.lastId, q.ts);
                        && (r.Duplicate? ==> p == NoOutput(Engine(x, e.lastHash)))
                        && (r.Added? && FilledQty(r.trades) <= o.quantity ==>
                              OutputSettlesAs(hs, e, q, pair, lock.accts, r.book, r.trades, r.lastId, p))))
  {
    hide ApplyTx, Add, OutputBatch, LockCommand, Seal, RejectReport, InputOf, LockEventOf, FilledQty, EventsOf,
         TradeOutputs,
         ReportOf;
  }

  ghost function OutputTx(e: Engine, q: Request, pair: Pair, a: Accounts, trades: seq<Trade>): Tx {
    ApplyTx(a, MatchExecBatch(OutputBatch(a, NO_OVERLAY, q.order, pair, trades, e.x.outputSeq + 1)))
  }

  ghost function SettleCommands(e: Engine, q: Request, pair: Pair, a: Accounts, trades: seq<Trade>): seq<Cmd> {
    var batch := OutputBatch(a, NO_OVERLAY, q.order, pair, trades, e.x.outputSeq + 1);
    if batch != [] then [MatchExecBatch(batch)] else []
  }

  /** The commands of an order of the bundle path, put together from its two halves. */
  lemma OutputCommandsInHalves(hs: Hashes, e: Engine, q: Request)
    ensures var o, r := q.order, PlaceWithOutput(hs, e, q);
            && (r.Output? && !r.accepted ==> OutputCommands(hs, e, q) == DeclinedCommands(e.x, o))
            && (r.Output? && r.accepted && o.symbol in e.x.pairs && o.symbol in e.x.books ==>
                  var pair := e.x.pairs[o.symbol];
                  var lock := ApplyTx(e.x.accts, LockCommand(e.x.accts, pair, o));
                  var added := Add(e.x.books[o.symbol], o, e.x.lastId, q.ts);
                  lock.Done? && added.Added? ==>
                    OutputCommands(hs, e, q) == [LockCommand(e.x.accts, pair, o), UpdateOf(o, OrderState.New)]
                                                + SettleCommands(e, q, pair, lock.accts, added.trades))
  {
    hide ApplyTx, Add, OutputBatch, LockCommand, PlaceWithOutput, UpdateOf;
  }

  ghost function SettledBundle(hs: Hashes, e: Engine, q: Request, pair: Pair, a: Accounts, trades: seq<Trade>): Bundle
    requires FilledQty(trades) <= q.order.quantity
  {
    var o, n := q.order, e.x.outputSeq + 1;
    var report := ReportOf(o, trades, q.ts);
    Seal(hs.xxh, n, e.lastHash, InputOf(hs, q), Some(report), TradeOutputs(o, pair, trades),
         [LockEventOf(e.x.accts, pair, o)] + EventsOf(OutputBatch(a, NO_OVERLAY, o, pair, trades, n)), [o],
         if report.status == STATUS_FILLED then [o.id] else [])
  }

  /** What settling the trades makes of the result of placing with a bundle. */
  ghost predicate OutputSettlesAs(hs: Hashes, e: Engine, q: Request, pair: Pair, a: Accounts, b: Book,
                                  trades: seq<Trade>, lastId: nat, p: OutputResult)
    requires FilledQty(trades) <= q.order.quantity
  {
    var tx := OutputTx(e, q, pair, a, trades);
    if tx.Done? then
      p == Emit(hs, e.x.(outputSeq := e.x.outputSeq + 1, accts := tx.accts,
                         books := e.x.books[q.order.symbol := b], lastId := lastId),
                SettledBundle(hs, e, q, pair, a, trades), true)
    else if tx.Failed? then p == NoOutput(Engine(e.x.(outputSeq := e.x.outputSeq + 1), e.lastHash))
    else p == OutputCrash
  }

  lemma NewIdIsNoDuplicate(x: Exchange, o: Order, ts: nat)
    requires o.symbol in x.books ==> o.id !in x.books[o.symbol].active
    ensures !Place(x, o, ts).DuplicateOrder?
  {
    hide ApplyTx, AfterMatch, TradesOf, MatchIn, BuildBatch, LockCommand, LastIdAfter;
  }

  lemma GlobalParts(global: GlobalLedger)
    requires global.Valid()
    ensures global.Accts() == global.table.Accts() && global.table.Valid()
    ensures global.wal != null ==> global.wal in global.WalRepr()
  {
  }

  lemma ShadowParts(s: ShadowLedger)
    requires s.Valid()
    ensures AllDistinct(s.delta.accounts)
    ensures s.Accts() == s.below.Accts() + AccountsOf(s.delta.accounts)
  {
  }

  /** A refused lock for a user without an entry installs one, all zero, that no record makes again; and a
      lock whose frozen side overflows leaks. Everything else a declined order leaves in the accounts is
      in the log. */
  ghost predicate LeavesNoTrace(x: Exchange, o: Order) {
    o.symbol !in x.pairs ||
    var asset := LockAsset(x.pairs[o.symbol], o.side);
    || ApplyTx(x.accts, LockCommand(x.accts, x.pairs[o.symbol], o)).Done?
    || (Has(x.accts, o.user, asset) && !LeaksOnError(Get(x.accts, o.user, asset), BalOp.Lock(LockAmount(o))))
  }

  lemma RefusedLock(m: Accounts, u: UserId, a: AssetId, n: nat)
    requires DoTouch(m, Touch(u, a, BalOp.Lock(n))).Failed?
    ensures DoTouch(m, Touch(u, a, BalOp.Lock(n))).accts == m <==>
            Has(m, u, a) && !LeaksOnError(Get(m, u, a), BalOp.Lock(n))
  {
    var t := Touch(u, a, BalOp.Lock(n));
    TouchReads(m, t);
    OpEffect(Get(m, u, a), t.op);
    var m' := DoTouch(m, t).accts;
    if Has(m, u, a) && !LeaksOnError(Get(m, u, a), t.op) {
      assert m[u][a := m[u][a]] == m[u] && m[u := m[u]] == m;
    } else {
      assert Has(m', u, a) && Get(m', u, a) == ApplyOp(Get(m, u, a), t.op).bal;
    }
  }

  /** Replaying the recorded commands of an order gives the accounts it led to, exactly when it was
      accepted or left no trace. */
  lemma CommandsTellTheState(x: Exchange, o: Order, ts: nat)
    requires Place(x, o, ts).Placed? || Place(x, o, ts).NotAccepted?
    ensures var p := Place(x, o, ts);
            ApplyAll(x.accts, PlaceCommands(x, o, p)) == Done(p.x.accts) <==> p.Placed? || LeavesNoTrace(x, o)
  {
    hide Place, Add, BuildBatch, ApplyAll, DoTouch, LockAmount, Get, Has, PlacedCommands, DeclinedCommands,
         LeaksOnError,
         LockCommand;
    PlaceCases(x, o, ts);
    if o.symbol in x.pairs {
      LockOfAnySnapshot(x.accts, x, o);
      hide ApplyTx;
      if Place(x, o, ts).Placed? {
        PlacedCommandsRun(x, o, Place(x, o, ts).batch, x.accts);
      } else {
        DeclinedCommandsRun(x, o, x.accts);
        if DoTouch(x.accts, Touch(o.user, LockAsset(x.pairs[o.symbol], o.side), BalOp.Lock(LockAmount(o)))).Failed? {
          RefusedLock(x.accts, o.user, LockAsset(x.pairs[o.symbol], o.side), LockAmount(o));
        }
      }
    } else {
      DeclinedCommandsRun(x, o, x.accts);
    }
  }

  lemma PlacingKeepsReplaying(x: Exchange, o: Order, ts: nat, history: seq<Cmd>, k: nat, m: Accounts)
    requires ReplaysFrom(x, history, k, m) && LockAmount(o) <= U64_MAX
    requires Place(x, o, ts).Placed? || Place(x, o, ts).NotAccepted?
    ensures ReplaysFrom(Place(x, o, ts).x, history + PlaceCommands(x, o, Place(x, o, ts)), k, m)
  {
    hide Replays, ApplyAll, Place, LockAmount, PlaceCommands;
    var cs := PlaceCommands(x, o, Place(x, o, ts));
    assert (history + cs)[k..] == history[k..] + cs;
    ApplyAllAppend(m, history[k..], cs);
    var y := PlacingIsReplayed(x, ApplyAll(m, history[k..]).accts, o, ts);
  }

  lemma PlacingIsReplayed(x: Exchange, y: Accounts, o: Order, ts: nat) returns (y': Accounts)
    requires Replays(x, y) && LockAmount(o) <= U64_MAX
    requires Place(x, o, ts).Placed? || Place(x, o, ts).NotAccepted?
    ensures ApplyAll(y, PlaceCommands(x, o, Place(x, o, ts))) == Done(y') && Replays(Place(x, o, ts).x, y')
  {
    hide Sound, Mirrors, Place, LockAmount, ApplyAll, PlaceCommands, DoStep;
    PlaceKeepsSound(x, o, ts);
    StepOfPlace(x, o, ts);
    if Place(x, o, ts).Placed? {
      y' := PlacedIsMirrored(x, y, o, ts);
    } else {
      y' := y;
      DeclinedIsMirrored(x, y, o, ts);
    }
  }

  lemma ReplaysRebuild(global: GlobalLedger, x: Exchange, k: nat, m: Accounts)
    requires ReplaysFrom(x, global.history, k, m) && x.accts == global.Accts()
    ensures global.RebuildsFrom(k, m)
  {
    hide Sound, Mirrors, ApplyAll;
  }

  // ----- Cancelling -----

  /** Applying the emitted commands to any ledger is what `Cancel` says. */
  lemma EmittedUnlockIsTheCancellation(x: Exchange, symbol: SymbolId, id: nat)
    ensures var c := CancelOf(x.books, x.pairs, symbol, id);
            var r := Cancel(x, symbol, id);
            && (r.CancelDone? ==>
                  c.Unlocked? && c.order == r.order && ApplyAll(x.accts, c.commands) == Done(r.x.accts))
            && (!c.Unlocked? ==> r.CancelFailed? && r.x.accts == x.accts)
            && (c.Unlocked? && ApplyAll(x.accts, c.commands).Done? ==> r.CancelDone?)
  {
    var c := CancelOf(x.books, x.pairs, symbol, id);
    hide Remove, DoTouch, ApplyAll, LockAmount, LockAsset;
    if c.Unlocked? {
      var unlock, report := c.commands[0], c.commands[1];
      assert c.commands == [unlock, report];
      ThenReport(x.accts, unlock, report);
    }
  }

  /** The book with the smallest symbol that knows the id. */
  ghost predicate FirstWith(books: map<SymbolId, Book>, id: nat, s: SymbolId) {
    s in books && id in books[s].active && forall k :: k in books && k < s ==> id !in books[k].active
  }

  lemma OnlyOneIsFirst(books: map<SymbolId, Book>, id: nat, s: SymbolId)
    requires FirstWith(books, id, s)
    ensures forall k :: FirstWith(books, id, k) ==> k == s
  {
  }

  /** When `cancel_order` with symbol 0 succeeds: exactly when the id rests in the first book that knows it.
      An id that is only known there, of a filled order, hides an order resting under the same id in a
      later book: the cancellation fails, moves nothing, and takes the stale id away, so that the next one
      searches on. */
  lemma CancelWithoutSymbol(x: Exchange, id: nat, s: SymbolId)
    requires Sound(x) && FirstWith(x.books, id, s)
    ensures var r, c := Cancel(x, s, id), CancelOf(x.books, x.pairs, s, id);
            && (c.Unlocked? <==> r.CancelDone?)
            && (r.CancelDone? <==> exists o :: RestsIn(x.books[s], o) && o.id == id)
            && (r.CancelFailed? ==>
                  && r.x.accts == x.accts && r.x.books.Keys == x.books.Keys
                  && (forall t, o :: t in x.books ==> (RestsIn(r.x.books[t], o) <==> RestsIn(x.books[t], o)))
                  && (forall t :: FirstWith(r.x.books, id, t) ==> s < t))
  {
    hide Sound, Remove, RestsIn, DoTouch, LockAmount, Get, WellFormed;
    SoundParts(x);
    CancelKeepsSound(x, s, id);
    CancelBranches(x, s, id);
    SoundHasBook(x, s);
    RemoveIffResting(x.books[s], id);
    if Remove(x.books[s], id).order.Some? {
      UnlockSucceeds(x, s, id, Remove(x.books[s], id).order.value);
    }
  }
}
