/** What placing and cancelling leave besides the balances: books, counters, reports and recorded commands, and
    why a cancellation fails. */
module PlacementDetails {
  import opened Numbers
  import opened Balances
  import opened LedgerSpec
  import opened BookSpec
  import opened BookInvariant
  import opened ExchangeSpec
  import opened EngineOutputs
  import opened BundleSpec
  import opened BundleTheorems
  import opened BundleContents
  import opened Collateral
  import opened Exchanges
  import opened Predictions
  import opened RecordedCommands

  // ----- Placing -----

  /** An accepted order changes one book, by adding it, moves the id generator by its trades, and takes one
      output number for each of them, in their order, after those of all earlier orders. */
  lemma PlacedOrder(x: Exchange, o: Order, ts: nat)
    requires Place(x, o, ts).Placed?
    ensures o.symbol in x.books && Add(x.books[o.symbol], o, x.lastId, ts).Added?
    ensures var y, batch := Place(x, o, ts).x, Place(x, o, ts).batch;
            var added := Add(x.books[o.symbol], o, x.lastId, ts);
            && y.pairs == x.pairs && y.books == x.books[o.symbol := added.book] && y.lastId == added.lastId
            && y.outputSeq == x.outputSeq + |batch| && |batch| == |added.trades|
            && forall i :: 0 <= i < |batch| ==>
                 batch[i].outputSequence == x.outputSeq + 1 + i && batch[i].tradeId == added.trades[i].tradeId
  {
    hide ApplyTx, Add, BuildBatch, LockCommand, DoTouch, ApplyExecs;
    PlacedMeans(x, o, ts);
    var pair := x.pairs[o.symbol];
    var m := ApplyTx(x.accts, LockCommand(x.accts, pair, o)).accts;
    var trades := Add(x.books[o.symbol], o, x.lastId, ts).trades;
    BatchLength(m, NO_OVERLAY, o, pair, trades, x.outputSeq);
    forall i | 0 <= i < |trades|
      ensures BuildBatch(m, NO_OVERLAY, o, pair, trades, x.outputSeq)[i].outputSequence == x.outputSeq + 1 + i
      ensures BuildBatch(m, NO_OVERLAY, o, pair, trades, x.outputSeq)[i].tradeId == trades[i].tradeId
    {
      BatchRecordsTheTrades(m, NO_OVERLAY, o, pair, trades, x.outputSeq, i);
    }
  }

  /** What a declined order leaves, in any state: books and counters as they were, and of all balances at most
      the one it would have been paid with has changed. That keeps the lock when only the book was missing; a
      refused lock leaves it alone, unless its frozen side overflows, and then the available side has lost the
      amount all the same. */
  lemma DeclinedOrder(x: Exchange, o: Order, ts: nat, u: UserId, a: AssetId)
    requires Place(x, o, ts).NotAccepted?
    ensures var y, amount := Place(x, o, ts).x, if o.side == Buy then o.price * o.quantity else o.quantity;
            && y == x.(accts := y.accts)
            && (o.symbol !in x.pairs ==> y == x)
            && (o.symbol in x.pairs ==>
                  var pair, b, b' := x.pairs[o.symbol], Get(x.accts, u, a), Get(y.accts, u, a);
                  if u != o.user || a != (if o.side == Buy then pair.1 else pair.0) || amount > b.avail then b' == b
                  else if b.frozen + amount > U64_MAX then b' == b.(avail := b.avail - amount)
                  else && o.symbol !in x.books
                       && b' == Bal(b.avail - amount, b.frozen + amount, WrapAdd(b.version, 1)))
  {
    hide Place, LockCommand, ApplyTx, Get;
    DeclinedMeans(x, o, ts);
    if o.symbol in x.pairs {
      LockReads(x.accts, x.pairs[o.symbol], o, u, a);
    }
  }

  lemma DeclinedMeans(x: Exchange, o: Order, ts: nat)
    requires Place(x, o, ts).NotAccepted?
    ensures var y := Place(x, o, ts).x;
            && y == x.(accts := y.accts)
            && (o.symbol !in x.pairs ==> y == x)
            && (o.symbol in x.pairs ==>
                  var lock := ApplyTx(x.accts, LockCommand(x.accts, x.pairs[o.symbol], o));
                  !lock.Panicked? && y.accts == lock.accts && (lock.Done? ==> o.symbol !in x.books))
  {
    hide Add, BuildBatch, ApplyTx, LockCommand;
  }

  lemma LockReads(m: Accounts, pair: Pair, o: Order, u: UserId, a: AssetId)
    ensures var lock := ApplyTx(m, LockCommand(m, pair, o));
            var amount := if o.side == Buy then o.price * o.quantity else o.quantity;
            && !lock.Panicked?
            && var b, b' := Get(m, u, a), Get(lock.accts, u, a);
               if u != o.user || a != (if o.side == Buy then pair.1 else pair.0) || amount > b.avail then b' == b
               else if b.frozen + amount > U64_MAX then lock.Failed? && b' == b.(avail := b.avail - amount)
               else lock.Done? && b' == Bal(b.avail - amount, b.frozen + amount, WrapAdd(b.version, 1))
  {
    hide Get;
    var c := LockCommand(m, pair, o);
    TouchReads(m, Touch(c.user, c.asset, BalOp.Lock(c.amount)));
  }

  /** How placing ends otherwise: a known id is a duplicate once the funds are locked, and when the match batch
      fails or panics, so does the order. */
  lemma ErrorsOfPlacing(x: Exchange, o: Order, ts: nat)
    requires o.symbol in x.pairs && o.symbol in x.books
    requires ApplyTx(x.accts, LockCommand(x.accts, x.pairs[o.symbol], o)).Done?
    ensures var a := ApplyTx(x.accts, LockCommand(x.accts, x.pairs[o.symbol], o)).accts;
            var p, r := Place(x, o, ts), Add(x.books[o.symbol], o, x.lastId, ts);
            && (p.DuplicateOrder? <==> o.id in x.books[o.symbol].active)
            && (r.Added? ==>
                  var tx := ApplyExecs(a, BuildBatch(a, NO_OVERLAY, o, x.pairs[o.symbol], r.trades, x.outputSeq));
                  && (p.Placed? <==> tx.Done?) && (p.BatchFailed? <==> tx.Failed?) && (p.Crashed? <==> tx.Panicked?))
  {
    hide ApplyExecs, BuildBatch, LockCommand, MatchIn, AfterMatch, TradesOf, LastIdAfter, DoTouch;
  }

  /** Nothing but an accepted order moves the generator or the output counter. */
  lemma OthersLeaveTheCounters(x: Exchange, s: Step)
    requires s.PlaceStep? ==> !Place(x, s.order, s.ts).Placed?
    ensures DoStep(x, s).lastId == x.lastId && DoStep(x, s).outputSeq == x.outputSeq
    ensures !s.RegisterStep? ==> DoStep(x, s).pairs == x.pairs && DoStep(x, s).books.Keys == x.books.Keys
  {
    hide ApplyTx, Add, Remove, BuildBatch, LockCommand, UnlockCommand;
  }

  /** Registering adds an empty book with its assets under a free symbol, and does nothing under a taken one. */
  lemma RegisteredSymbol(x: Exchange, symbol: SymbolId, pair: Pair)
    ensures var y := DoStep(x, RegisterStep(symbol, pair));
            if symbol in x.books then y == x else
            && y.books.Keys == x.books.Keys + {symbol} && y.accts == x.accts
            && y.books[symbol].bids == y.books[symbol].asks == [] && y.books[symbol].active == {}
            && symbol in y.pairs && y.pairs[symbol] == pair
            && (forall s :: s in x.books ==> y.books[s] == x.books[s])
            && (forall s :: s in x.pairs && s != symbol ==> s in y.pairs && y.pairs[s] == x.pairs[s])
  {
  }

  // ----- The output numbers of a run -----

  function NumbersOf(batch: seq<ExecData>): seq<nat> {
    seq(|batch|, i requires 0 <= i < |batch| => batch[i].outputSequence)
  }

  function NumbersIn(x: Exchange, s: Step): seq<nat> {
    if !s.PlaceStep? then [] else
    match Place(x, s.order, s.ts)
    case Placed(_, batch) => NumbersOf(batch)
    case _ => []
  }

  /** The output numbers in the batches of a run, in the order of its steps. */
  function OutputNumbers(x: Exchange, steps: seq<Step>): seq<nat>
    decreases |steps|
  {
    if steps == [] then [] else NumbersIn(x, steps[0]) + OutputNumbers(DoStep(x, steps[0]), steps[1..])
  }

  /** Over every run, across all books, they are the numbers after the one it began with, without a gap or a
      repetition. */
  lemma {:induction false} OutputNumbersAreConsecutive(x: Exchange, steps: seq<Step>)
    ensures var ns := OutputNumbers(x, steps);
            && DoSteps(x, steps).outputSeq == x.outputSeq + |ns|
            && forall i :: 0 <= i < |ns| ==> ns[i] == x.outputSeq + 1 + i
    decreases |steps|
  {
    hide Place, DoStep;
    if steps != [] {
      var s := steps[0];
      if s.PlaceStep? && Place(x, s.order, s.ts).Placed? {
        PlacedOrder(x, s.order, s.ts);
        StepOfPlace(x, s.order, s.ts);
      } else {
        OthersLeaveTheCounters(x, s);
      }
      OutputNumbersAreConsecutive(DoStep(x, s), steps[1..]);
    }
  }

  // ----- What is reported -----

  /** The report of an order in the given state names it, its user and its symbol, with its price and
      quantity. */
  ghost predicate Reports(c: Cmd, o: Order, status: OrderState) {
    && c.OrderUpdate? && c.update.status == status
    && c.update.orderId == o.id && c.update.userId == o.user && c.update.symbolId == o.symbol
    && c.update.price == o.price && c.update.quantity == o.quantity
  }

  /** The command locks what the order can cost at most: price times quantity of quote for a buy, the quantity
      of base for a sell. */
  ghost predicate Locks(c: Cmd, o: Order, pair: Pair) {
    && c.Lock? && c.user == o.user
    && c.asset == (if o.side == Buy then pair.1 else pair.0)
    && c.amount == (if o.side == Buy then o.price * o.quantity else o.quantity)
  }

  /** The commands an order leaves in the log. Accepted: its lock, its report as new, and its batch when there
      are trades. Declined: its report as rejected, behind its lock and its report as new when only the book was
      missing. After an error: nothing. */
  lemma OrderIsReported(x: Exchange, o: Order, ts: nat)
    ensures var p := Place(x, o, ts);
            var cs := PlaceCommands(x, o, p);
            match p
            case Placed(_, batch) =>
              && o.symbol in x.pairs && |cs| == (if batch == [] then 2 else 3)
              && Locks(cs[0], o, x.pairs[o.symbol]) && Reports(cs[1], o, OrderState.New)
              && (batch != [] ==> cs[2] == MatchExecBatch(batch))
            case NotAccepted(_) =>
              if o.symbol in x.pairs && ApplyTx(x.accts, LockCommand(x.accts, x.pairs[o.symbol], o)).Done? then
                && |cs| == 3 && Locks(cs[0], o, x.pairs[o.symbol]) && Reports(cs[1], o, OrderState.New)
                && Reports(cs[2], o, OrderState.Rejected)
              else |cs| == 1 && Reports(cs[0], o, OrderState.Rejected)
            case _ => cs == []
  {
    hide ApplyTx, Add, BuildBatch, Get;
  }

  // ----- The bundle path -----

  /** The same for the path with bundles: an order with a bundle leaves the commands of the plain path, with a
      batch of one element per trade; one without leaves nothing. */
  lemma OutputIsReported(hs: Hashes, e: Engine, q: Request)
    ensures var x, o, p, cs := e.x, q.order, PlaceWithOutput(hs, e, q), OutputCommands(hs, e, q);
            match p
            case Output(_, _, accepted) =>
              if accepted then
                && o.symbol in x.pairs && o.symbol in x.books
                && Locks(cs[0], o, x.pairs[o.symbol]) && Reports(cs[1], o, OrderState.New)
                && var trades := Add(x.books[o.symbol], o, x.lastId, q.ts).trades;
                   && |cs| == (if trades == [] then 2 else 3)
                   && (trades != [] ==> cs[2].MatchExecBatch? && |cs[2].batch| == |trades|)
              else if o.symbol in x.pairs && ApplyTx(x.accts, LockCommand(x.accts, x.pairs[o.symbol], o)).Done? then
                && |cs| == 3 && Locks(cs[0], o, x.pairs[o.symbol]) && Reports(cs[1], o, OrderState.New)
                && Reports(cs[2], o, OrderState.Rejected)
              else |cs| == 1 && Reports(cs[0], o, OrderState.Rejected)
            case _ => cs == []
  {
    hide PlaceWithOutput, ApplyTx, Add, OutputBatch, LockCommand, UpdateOf;
    var x, o := e.x, q.order;
    if o.symbol in x.pairs {
      CommandParts(x.accts, x.pairs[o.symbol], o);
    }
    CommandParts(x.accts, (0, 0), o);
    var p := PlaceWithOutput(hs, e, q);
    if p.Output? && p.accepted {
      AcceptedMeans(hs, e, q);
      var pair := x.pairs[o.symbol];
      var m := ApplyTx(x.accts, LockCommand(x.accts, pair, o)).accts;
      var trades := Add(x.books[o.symbol], o, x.lastId, q.ts).trades;
      OutputBatchLength(m, NO_OVERLAY, o, pair, trades, x.outputSeq + 1);
    }
  }

  lemma CommandParts(m: Accounts, pair: Pair, o: Order)
    ensures Locks(LockCommand(m, pair, o), o, pair)
    ensures forall s :: Reports(UpdateOf(o, s), o, s)
  {
  }

  lemma AcceptedMeans(hs: Hashes, e: Engine, q: Request)
    requires PlaceWithOutput(hs, e, q).Output? && PlaceWithOutput(hs, e, q).accepted
    ensures var x, o := e.x, q.order;
            && o.symbol in x.pairs && o.symbol in x.books
            && ApplyTx(x.accts, LockCommand(x.accts, x.pairs[o.symbol], o)).Done?
            && Add(x.books[o.symbol], o, x.lastId, q.ts).Added?
  {
    hide ApplyTx, Add, OutputBatch, LockCommand, Seal, RejectReport, InputOf, LockEventOf, FilledQty, EventsOf,
         TradeOutputs, ReportOf;
  }

  lemma OutputBatchLength(m: Accounts, ov: Overlay, o: Order, pair: Pair, trades: seq<Trade>, n: nat)
    ensures |OutputBatch(m, ov, o, pair, trades, n)| == |trades|
  {
    if trades != [] {
      OutputBatchRecordsTheTrades(m, ov, o, pair, trades, n, 0);
    }
  }

  /** And how it ends without a bundle. */
  lemma ErrorsOfOutput(hs: Hashes, e: Engine, q: Request)
    requires q.order.symbol in e.x.pairs && q.order.symbol in e.x.books
    requires ApplyTx(e.x.accts, LockCommand(e.x.accts, e.x.pairs[q.order.symbol], q.order)).Done?
    ensures var x, o, p := e.x, q.order, PlaceWithOutput(hs, e, q);
            var a := ApplyTx(x.accts, LockCommand(x.accts, x.pairs[o.symbol], o)).accts;
            var r := Add(x.books[o.symbol], o, x.lastId, q.ts);
            && (r.Duplicate? <==> o.id in x.books[o.symbol].active)
            && (r.Duplicate? ==> p == NoOutput(Engine(x.(outputSeq := x.outputSeq + 1), e.lastHash)))
            && (r.Added? ==>
                  var tx := ApplyExecs(a, OutputBatch(a, NO_OVERLAY, o, x.pairs[o.symbol], r.trades, x.outputSeq + 1));
                  && (tx.Done? <==> p.Output? && p.accepted)
                  && (tx.Failed? ==> p == NoOutput(Engine(x.(outputSeq := x.outputSeq + 1), e.lastHash)))
                  && (tx.Panicked? <==> p.OutputCrash?))
  {
    hide LockCommand, Seal, RejectReport, InputOf, LockEventOf, FilledQty, EventsOf, TradeOutputs, ReportOf, DoTouch,
         ApplyExecs, OutputBatch, MatchIn, AfterMatch, TradesOf, LastIdAfter;
    if q.order.id !in e.x.books[q.order.symbol].active {
      FilledWithinOrder(e.x.books[q.order.symbol], q.order, e.x.lastId, q.ts);
    }
  }

  // ----- Cancelling -----

  /** Why a cancellation fails, and what it emits when it does not: an unknown symbol has no book, an unknown
      order does not rest in it, and otherwise the owner's remaining funds are unlocked and the order, as it
      rested, is reported as cancelled. */
  lemma CancelledIsReported(x: Exchange, symbol: SymbolId, id: nat)
    requires Sound(x)
    ensures var c := CancelOf(x.books, x.pairs, symbol, id);
            && !c.NoAssets?
            && (c.UnknownSymbol? <==> symbol !in x.books)
            && (c.OrderNotFound? <==> symbol in x.books && forall o :: RestsIn(x.books[symbol], o) ==> o.id != id)
            && (c.Unlocked? ==>
                  && symbol in x.books && RestsIn(x.books[symbol], c.order) && c.order.id == id
                  && symbol in x.pairs && |c.commands| == 2
                  && var unlock, pair := c.commands[0], x.pairs[symbol];
                     && unlock.Unlock? && unlock.user == c.order.user
                     && unlock.asset == (if c.order.side == Buy then pair.1 else pair.0)
                     && unlock.amount == (if c.order.side == Buy then c.order.price * c.order.quantity
                                          else c.order.quantity)
                     && Reports(c.commands[1], c.order, OrderState.Cancelled))
  {
    hide Remove, RestsIn, Sound, WellFormed;
    SoundParts(x);
    if symbol in x.books {
      SoundHasBook(x, symbol);
      RemoveIffResting(x.books[symbol], id);
    }
  }

  /** What cancelling does, in any state: the order leaves its book, and is found, as removing it there says;
      nothing else changes but the balance of a cancelled order's owner, into which its funds go back. */
  lemma CancelInAnyState(x: Exchange, symbol: SymbolId, id: nat, u: UserId, a: AssetId)
    ensures var r := Cancel(x, symbol, id);
            if symbol !in x.books then r == CancelFailed(x) else
            var removed := Remove(x.books[symbol], id);
            && r.x == x.(accts := r.x.accts, books := x.books[symbol := removed.book])
            && (removed.order.None? || symbol !in x.pairs ==> r.CancelFailed?)
            && (r.CancelFailed? ==> r.x.accts == x.accts)
            && (removed.order.Some? && symbol in x.pairs ==>
                  var o, pair := removed.order.value, x.pairs[symbol];
                  var asset := if o.side == Buy then pair.1 else pair.0;
                  var amount := if o.side == Buy then o.price * o.quantity else o.quantity;
                  var b, owner, b' := Get(x.accts, u, a), Get(x.accts, o.user, asset), Get(r.x.accts, u, a);
                  && (r.CancelDone? <==> amount <= owner.frozen && owner.avail + amount <= U64_MAX)
                  && (r.CancelDone? ==>
                        && r.order == o
                        && b' == if u == o.user && a == asset
                                 then Bal(b.avail + amount, b.frozen - amount, WrapAdd(b.version, 1)) else b))
  {
    hide Remove, ApplyAll;
    if symbol in x.books && symbol in x.pairs && Remove(x.books[symbol], id).order.Some? {
      var c := UnlockCommand(x.pairs[symbol], Remove(x.books[symbol], id).order.value);
      TouchReads(x.accts, Touch(c.user, c.asset, BalOp.Unlock(c.amount)));
    }
  }
}
