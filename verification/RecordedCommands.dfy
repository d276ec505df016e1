/** The commands that a step of the exchange leaves in the ledger's log: what the shadow recorded for an
    order, what a cancellation emits, and transfers that succeed. */
module RecordedCommands {
  import opened LedgerSpec
  import opened BookSpec
  import opened ExchangeSpec
  import opened BundleSpec

  function UpdateOf(o: Order, status: OrderState): Cmd {
    OrderUpdate(Update(o.id, o.user, o.symbol, status, o.price, o.quantity))
  }

  /** The commands an accepted order leaves: lock, New, and the batch if there is one. */
  function PlacedCommands(x: Exchange, o: Order, batch: seq<ExecData>): seq<Cmd>
    requires o.symbol in x.pairs
  {
    [LockCommand(x.accts, x.pairs[o.symbol], o), UpdateOf(o, OrderState.New)]
    + if batch != [] then [MatchExecBatch(batch)] else []
  }

  /** The commands a declined order leaves: the rejection, after lock and New when only the book was missing. */
  function DeclinedCommands(x: Exchange, o: Order): seq<Cmd> {
    var rejected := [UpdateOf(o, OrderState.Rejected)];
    if o.symbol !in x.pairs then rejected else
    var lock := LockCommand(x.accts, x.pairs[o.symbol], o);
    if ApplyTx(x.accts, lock).Done? then [lock, UpdateOf(o, OrderState.New)] + rejected else rejected
  }

  /** Errors drop the shadow, and with it everything recorded. */
  function PlaceCommands(x: Exchange, o: Order, p: PlaceResult): seq<Cmd> {
    match p
    case Placed(_, batch) => if o.symbol in x.pairs then PlacedCommands(x, o, batch) else []
    case NotAccepted(_) => DeclinedCommands(x, o)
    case _ => []
  }

  function TransferCommands(x: Exchange, c: Cmd): seq<Cmd> {
    if ApplyTx(x.accts, c).Done? then [c] else []
  }

  /** What cancelling emits. */
  datatype CancelOutcome = UnknownSymbol | OrderNotFound | NoAssets | Unlocked(order: Order, commands: seq<Cmd>)

  function CancelOf(books: map<SymbolId, Book>, pairs: map<SymbolId, Pair>, symbol: SymbolId, id: nat): CancelOutcome {
    if symbol !in books then UnknownSymbol else
    match Remove(books[symbol], id).order
    case None => OrderNotFound
    case Some(o) =>
      if symbol !in pairs then NoAssets
      else Unlocked(o, [UnlockCommand(pairs[symbol], o), UpdateOf(o, OrderState.Cancelled)])
  }

  function CancelCommands(x: Exchange, symbol: SymbolId, id: nat): seq<Cmd> {
    match CancelOf(x.books, x.pairs, symbol, id)
    case Unlocked(_, commands) => if ApplyAll(x.accts, commands).Done? then commands else []
    case _ => []
  }

  function CommandsOf(x: Exchange, s: Step): seq<Cmd> {
    match s
    case DepositStep(u, a, n) => TransferCommands(x, Cmd.Deposit(u, a, n, 0, 0))
    case WithdrawStep(u, a, n) => TransferCommands(x, Cmd.Withdraw(u, a, n, 0, 0))
    case RegisterStep(_, _) => []
    case PlaceStep(o, ts) => PlaceCommands(x, o, Place(x, o, ts))
    case CancelStep(symbol, id) => CancelCommands(x, symbol, id)
  }

  /** The batch of an order of the bundle path. */
  function OutputBatchOf(e: Engine, q: Request): seq<ExecData> {
    var x, o := e.x, q.order;
    if o.symbol !in x.pairs || o.symbol !in x.books then [] else
    var lock := ApplyTx(x.accts, LockCommand(x.accts, x.pairs[o.symbol], o));
    var r := Add(x.books[o.symbol], o, x.lastId, q.ts);
    if lock.Done? && r.Added?
    then OutputBatch(lock.accts, NO_OVERLAY, o, x.pairs[o.symbol], r.trades, x.outputSeq + 1) else []
  }

  /** The commands that an order of the bundle path leaves: as on the plain path, with its own batch. */
  function OutputCommands(hs: Hashes, e: Engine, q: Request): seq<Cmd> {
    match PlaceWithOutput(hs, e, q)
    case Output(_, _, accepted) =>
      if !accepted then DeclinedCommands(e.x, q.order)
      else if q.order.symbol in e.x.pairs then PlacedCommands(e.x, q.order, OutputBatchOf(e, q)) else []
    case _ => []
  }

  function ActionCommands(hs: Hashes, e: Engine, a: Action): seq<Cmd> {
    match a
    case Plain(s) => CommandsOf(e.x, s)
    case Bundled(q) => OutputCommands(hs, e, q)
  }

  /** The log of a run. */
  function HistoryOf(hs: Hashes, e: Engine, actions: seq<Action>): seq<Cmd>
    decreases |actions|
  {
    if actions == [] then [] else
    ActionCommands(hs, e, actions[0]) + HistoryOf(hs, Act(hs, e, actions[0]), actions[1..])
  }

  // ----- Small runs -----

  lemma ThenReport(m: Accounts, c: Cmd, report: Cmd)
    requires report.OrderUpdate?
    ensures ApplyAll(m, [c, report]) == ApplyTx(m, c)
  {
    assert [c, report][1..] == [report] && [report][1..] == [];
    match ApplyTx(m, c)
    case Done(m') => assert ApplyAll(m', [report]) == Done(m');
    case _ =>
  }

  lemma OnlyReport(m: Accounts, report: Cmd)
    requires report.OrderUpdate?
    ensures ApplyAll(m, [report]) == Done(m)
  {
    assert [report][1..] == [];
  }

  lemma OnlyCommand(m: Accounts, c: Cmd)
    ensures ApplyAll(m, [c]) == ApplyTx(m, c) && ApplyAll(m, []) == Done(m)
  {
    assert [c][1..] == [];
  }

  lemma EmptyBatchDoesNothing(m: Accounts)
    ensures ApplyTx(m, MatchExecBatch([])) == Done(m)
  {
  }

  lemma RunTwoOrThree(m: Accounts, c: Cmd, report: Cmd, d: Cmd)
    requires ApplyTx(m, c).Done? && report.OrderUpdate?
    ensures ApplyAll(m, [c, report] + []) == ApplyTx(m, c)
    ensures ApplyAll(m, [c, report] + [d]) == ApplyTx(ApplyTx(m, c).accts, d)
  {
    hide ApplyTx, ApplyAll;
    ThenReport(m, c, report);
    assert [c, report] + [] == [c, report];
    ApplyAllAppend(m, [c, report], [d]);
    OnlyCommand(ApplyTx(m, c).accts, d);
  }

  /** What an accepted order's commands do to any accounts that take its lock. */
  lemma PlacedCommandsRun(x: Exchange, o: Order, batch: seq<ExecData>, m: Accounts)
    requires o.symbol in x.pairs && ApplyTx(m, LockCommand(x.accts, x.pairs[o.symbol], o)).Done?
    ensures ApplyAll(m, PlacedCommands(x, o, batch)) ==
            ApplyTx(ApplyTx(m, LockCommand(x.accts, x.pairs[o.symbol], o)).accts, MatchExecBatch(batch))
  {
    hide ApplyTx, ApplyAll, LockCommand;
    var lock := LockCommand(x.accts, x.pairs[o.symbol], o);
    EmptyBatchDoesNothing(ApplyTx(m, lock).accts);
    RunTwoOrThree(m, lock, UpdateOf(o, OrderState.New), MatchExecBatch(batch));
  }

  /** What a declined order's commands do to any accounts: the lock, if it was taken, and nothing else. */
  lemma DeclinedCommandsRun(x: Exchange, o: Order, m: Accounts)
    ensures ApplyAll(m, DeclinedCommands(x, o)) ==
            if o.symbol in x.pairs && ApplyTx(x.accts, LockCommand(x.accts, x.pairs[o.symbol], o)).Done?
            then ApplyTx(m, LockCommand(x.accts, x.pairs[o.symbol], o)) else Done(m)
  {
    hide ApplyTx, ApplyAll, LockCommand;
    var rejected := UpdateOf(o, OrderState.Rejected);
    OnlyReport(m, rejected);
    if o.symbol in x.pairs {
      var lock, new_ := LockCommand(x.accts, x.pairs[o.symbol], o), UpdateOf(o, OrderState.New);
      ThenReport(m, lock, new_);
      ApplyAllAppend(m, [lock, new_], [rejected]);
      if ApplyTx(m, lock).Done? {
        OnlyReport(ApplyTx(m, lock).accts, rejected);
      }
    }
  }
}
