/** Trades name their orders, and over whole runs, across all books, trade ids strictly increase. */
module TradeIdRuns {
  import opened Numbers
  import opened TradeIds
  import opened Sums
  import opened LedgerSpec
  import opened BookSpec
  import opened BookLaws
  import opened ExchangeSpec
  import opened EngineOutputs
  import opened BundleSpec

  /** The i-th trade is the i-th fill: numbered on, at the maker's price, with the buyer and the
      seller in their places. */
  lemma {:induction false} TradesNameTheirOrders(o: Order, fills: seq<Fill>, seq0: nat, lastId: nat, ts: nat, i: nat)
    requires i < |fills|
    ensures var trades := TradesOf(o, fills, seq0, lastId, ts);
            && |trades| == |fills|
            && var t, f := trades[i], fills[i];
               var (buy, sell) := if o.side == Buy then (o, f.maker) else (f.maker, o);
               && t.matchSeq == seq0 + i + 1 && t.price == f.maker.price && t.quantity == f.quantity
               && t.buyOrderId == buy.id && t.buyer == buy.user && t.sellOrderId == sell.id && t.seller == sell.user
    decreases i
  {
    var id := NextId(lastId, ts);
    TradesLength(o, fills, seq0, lastId, ts);
    assert TradesOf(o, fills, seq0, lastId, ts)[1..] == TradesOf(o, fills[1..], seq0 + 1, id, ts);
    if i > 0 {
      TradesNameTheirOrders(o, fills[1..], seq0 + 1, id, ts, i - 1);
    }
  }

  lemma {:induction false} TradesLength(o: Order, fills: seq<Fill>, seq0: nat, lastId: nat, ts: nat)
    ensures |TradesOf(o, fills, seq0, lastId, ts)| == |fills|
    decreases |fills|
  {
    if fills != [] {
      TradesLength(o, fills[1..], seq0 + 1, NextId(lastId, ts), ts);
    }
  }

  // ----- The ids of one order -----

  /** What the generator remembers after issuing ids at some times. */
  function LastIssued(last: nat, times: seq<nat>): nat
    decreases |times|
  {
    if times == [] then last else LastIssued(NextId(last, times[0]), times[1..])
  }

  lemma {:induction false} IssueAppend(last: nat, times: seq<nat>, more: seq<nat>)
    ensures IssueAll(last, times + more) == IssueAll(last, times) + IssueAll(LastIssued(last, times), more)
    decreases |times|
  {
    if times == [] {
      assert times + more == more;
    } else {
      assert (times + more)[0] == times[0] && (times + more)[1..] == times[1..] + more;
      IssueAppend(NextId(last, times[0]), times[1..], more);
    }
  }

  function Repeat(ts: nat, n: nat): seq<nat> {
    if n == 0 then [] else [ts] + Repeat(ts, n - 1)
  }

  function IdsOf(trades: seq<Trade>): seq<nat> {
    if trades == [] then [] else [trades[0].tradeId] + IdsOf(trades[1..])
  }

  lemma {:induction false} TradesTakeIssuedIds(o: Order, fills: seq<Fill>, seq0: nat, lastId: nat, ts: nat)
    ensures IdsOf(TradesOf(o, fills, seq0, lastId, ts)) == IssueAll(lastId, Repeat(ts, |fills|))
    ensures LastIdAfter(lastId, ts, |fills|) == LastIssued(lastId, Repeat(ts, |fills|))
    decreases |fills|
  {
    if fills != [] {
      var id := NextId(lastId, ts);
      TradesTakeIssuedIds(o, fills[1..], seq0 + 1, id, ts);
      assert TradesOf(o, fills, seq0, lastId, ts)[1..] == TradesOf(o, fills[1..], seq0 + 1, id, ts);
      assert Repeat(ts, |fills|)[1..] == Repeat(ts, |fills[1..]|);
    }
  }

  // ----- The trades of a run -----

  function Traded(outputs: seq<TradeOutput>): seq<Trade> {
    if outputs == [] then [] else [outputs[0].trade] + Traded(outputs[1..])
  }

  lemma {:induction false} TradedOutputs(o: Order, pair: Pair, trades: seq<Trade>)
    ensures Traded(TradeOutputs(o, pair, trades)) == trades
    decreases |trades|
  {
    if trades != [] {
      TradedOutputs(o, pair, trades[1..]);
    }
  }

  /** The trades of one action, on either path. */
  function TradesIn(hs: Hashes, e: Engine, a: Action): seq<Trade> {
    match a
    case Bundled(q) =>
      (match PlaceWithOutput(hs, e, q)
       case Output(_, b, _) => Traded(b.trades)
       case _ => [])
    case Plain(s) =>
      if s.PlaceStep? && Place(e.x, s.order, s.ts).Placed? && s.order.symbol in e.x.books then
        var r := Add(e.x.books[s.order.symbol], s.order, e.x.lastId, s.ts);
        if r.Added? then r.trades else []
      else []
  }

  /** The time an action passes to the generator. */
  function TimeOf(a: Action): nat {
    match a
    case Bundled(q) => q.ts
    case Plain(s) => if s.PlaceStep? then s.ts else 0
  }

  /** All trades of a run, over all books and both paths, in the order in which they happen. */
  function TradesInRun(hs: Hashes, e: Engine, actions: seq<Action>): seq<Trade>
    decreases |actions|
  {
    if actions == [] then [] else
    TradesIn(hs, e, actions[0]) + TradesInRun(hs, Act(hs, e, actions[0]), actions[1..])
  }

  /** The times at which the run asks the generator for an id, once per trade. */
  function TimesInRun(hs: Hashes, e: Engine, actions: seq<Action>): seq<nat>
    decreases |actions|
  {
    if actions == [] then [] else
    Repeat(TimeOf(actions[0]), |TradesIn(hs, e, actions[0])|) + TimesInRun(hs, Act(hs, e, actions[0]), actions[1..])
  }

  lemma {:induction false} IdsAppend(ts: seq<Trade>, us: seq<Trade>)
    ensures IdsOf(ts + us) == IdsOf(ts) + IdsOf(us)
    decreases |ts|
  {
    if ts == [] {
      assert ts + us == us;
    } else {
      assert (ts + us)[0] == ts[0] && (ts + us)[1..] == ts[1..] + us;
      IdsAppend(ts[1..], us);
    }
  }

  /** What an action does to the books and the generator: it matches one order, or it does not trade
      and leaves the generator alone. */
  ghost predicate Matches(x: Exchange, o: Order, ts: nat, trades: seq<Trade>, x': Exchange) {
    o.symbol in x.books &&
    var r := Add(x.books[o.symbol], o, x.lastId, ts);
    r.Added? && trades == r.trades && x'.lastId == r.lastId && x'.books == x.books[o.symbol := r.book]
  }

  lemma PlacedMatches(x: Exchange, o: Order, ts: nat)
    requires Place(x, o, ts).Placed?
    ensures o.symbol in x.books && Add(x.books[o.symbol], o, x.lastId, ts).Added?
    ensures Matches(x, o, ts, Add(x.books[o.symbol], o, x.lastId, ts).trades, Place(x, o, ts).x)
  {
    hide ApplyTx, BuildBatch, LockCommand, TradesOf, LastIdAfter, MatchIn, AfterMatch;
  }

  lemma OutputMatches(hs: Hashes, e: Engine, q: Request)
    requires PlaceWithOutput(hs, e, q).Output?
    ensures var r := PlaceWithOutput(hs, e, q);
            if r.accepted then Matches(e.x, q.order, q.ts, Traded(r.bundle.trades), r.e.x)
            else r.bundle.trades == [] && r.e.x.lastId == e.x.lastId && r.e.x.books == e.x.books
  {
    hide ApplyTx, OutputBatch, LockCommand, TradesOf, LastIdAfter, MatchIn, AfterMatch, LockEventOf, EventsOf, ReportOf,
         TradeOutputs, FilledQty, InputOf, RejectReport, Traded;
    var o := q.order;
    if PlaceWithOutput(hs, e, q).accepted {
      TradedOutputs(o, e.x.pairs[o.symbol], Add(e.x.books[o.symbol], o, e.x.lastId, q.ts).trades);
    }
  }

  lemma NoTrading(hs: Hashes, e: Engine, q: Request)
    requires !PlaceWithOutput(hs, e, q).Output?
    ensures Act(hs, e, Bundled(q)).x.lastId == e.x.lastId && Act(hs, e, Bundled(q)).x.books == e.x.books
  {
    hide ApplyTx, Add, OutputBatch, LockCommand, LockEventOf, EventsOf, ReportOf, TradeOutputs, FilledQty, InputOf,
         RejectReport, Seal;
  }

  /** Every action matches one order, or makes no trade. */
  lemma ActionMatchesOrNot(hs: Hashes, e: Engine, a: Action)
    ensures var x' := Act(hs, e, a).x;
            || (TradesIn(hs, e, a) == [] && x'.lastId == e.x.lastId && QuietBooks(e.x, x'))
            || (exists o :: Matches(e.x, o, TimeOf(a), TradesIn(hs, e, a), x'))
  {
    hide Place, PlaceWithOutput, DoStep, Matches, QuietBooks;
    match a
    case Bundled(q) =>
      if PlaceWithOutput(hs, e, q).Output? {
        OutputMatches(hs, e, q);
        NothingTraded();
        assert PlaceWithOutput(hs, e, q).accepted ==>
            Matches(e.x, q.order, TimeOf(a), TradesIn(hs, e, a), Act(hs, e, a).x);
      } else {
        NoTrading(hs, e, q);
      }
      SameBooksAreQuiet(e.x, Act(hs, e, a).x);
    case Plain(s) =>
      if s.PlaceStep? && Place(e.x, s.order, s.ts).Placed? {
        PlacedMatches(e.x, s.order, s.ts);
        StepOfPlaced(e.x, s.order, s.ts);
        assert s == PlaceStep(s.order, s.ts);
        assert Matches(e.x, s.order, TimeOf(a), TradesIn(hs, e, a), Act(hs, e, a).x);
      } else {
        OtherStepsAreQuiet(e.x, s);
      }
  }

  lemma NothingTraded()
    ensures Traded([]) == []
  {
  }

  lemma StepOfPlaced(x: Exchange, o: Order, ts: nat)
    requires Place(x, o, ts).Placed?
    ensures DoStep(x, PlaceStep(o, ts)) == Place(x, o, ts).x
  {
    hide Place;
  }

  /** No book has more orders than before. */
  ghost predicate QuietBooks(x: Exchange, x': Exchange) {
    && x.books.Keys <= x'.books.Keys
    && forall s :: s in x'.books ==>
         BookSize(x'.books[s]) <= if s in x.books then BookSize(x.books[s]) else 0
  }

  ghost function BookSize(b: Book): nat {
    |b.bids| + |b.asks|
  }

  lemma SameBooksAreQuiet(x: Exchange, x': Exchange)
    ensures x.books == x'.books ==> QuietBooks(x, x')
  {
  }

  lemma OtherStepsAreQuiet(x: Exchange, s: Step)
    requires s.PlaceStep? ==> !Place(x, s.order, s.ts).Placed?
    ensures DoStep(x, s).lastId == x.lastId && QuietBooks(x, DoStep(x, s))
  {
    hide ApplyTx, Add, BuildBatch, LockCommand, UnlockCommand, Find;
  }

  // ----- How many trades a run can make -----

  ghost function Sizes(x: Exchange): SymbolId -> int {
    (s: SymbolId) => if s in x.books then BookSize(x.books[s]) else 0
  }

  /** Orders in all books. */
  ghost function Resting(x: Exchange): int {
    Sum(x.books.Keys, Sizes(x))
  }

  lemma {:induction false} InsertLength(side: Side, s: seq<Order>, o: Order)
    ensures |Insert(side, s, o)| == |s| + 1
    decreases |s|
  {
    if s != [] && !Better(side, o.price, s[0].price) {
      InsertLength(side, s[1..], o);
    }
  }

  /** Every trade of an order but the last removes a maker from the book, and when the last one does not,
      the order itself does not rest. */
  lemma TradesUseUpTheBook(b: Book, o: Order, lastId: nat, ts: nat)
    requires Add(b, o, lastId, ts).Added?
    ensures var r := Add(b, o, lastId, ts);
            |r.trades| + BookSize(r.book) <= BookSize(b) + 1
  {
    hide Match, Insert, Exhausted, TradesOf, LastIdAfter, IdSet;
    var r := MatchIn(b, o);
    var k := RestIsSuffix(o.side, o.price, o.quantity, Half(b, Opposite(o.side)));
    TradesLength(o, r.fills, b.matchSeq, lastId, ts);
    InsertLength(o.side, Half(b, o.side), o.(quantity := r.left));
  }

  lemma MatchedShrinks(x: Exchange, o: Order, ts: nat, trades: seq<Trade>, x': Exchange)
    requires Matches(x, o, ts, trades, x')
    ensures |trades| + Resting(x') <= Resting(x) + 1
  {
    TradesUseUpTheBook(x.books[o.symbol], o, x.lastId, ts);
    hide Add, BookSize;
    assert x'.books.Keys == x.books.Keys;
    SumChange(x.books.Keys, Sizes(x), Sizes(x'), o.symbol);
  }

  lemma QuietShrinks(x: Exchange, x': Exchange)
    requires QuietBooks(x, x')
    ensures Resting(x') <= Resting(x)
  {
    hide BookSize;
    SumMonotone(x.books.Keys, x'.books.Keys, Sizes(x), Sizes(x'));
  }

  lemma {:induction false} SumMonotone(s: set<SymbolId>, t: set<SymbolId>, f: SymbolId -> int, g: SymbolId -> int)
    requires s <= t && forall x :: x in t ==> g(x) <= if x in s then f(x) else 0
    ensures Sum(t, g) <= Sum(s, f)
    decreases t
  {
    if t != {} {
      var x :| x in t;
      SumPick(t, g, x);
      if x in s {
        SumPick(s, f, x);
        SumMonotone(s - {x}, t - {x}, f, g);
      } else {
        SumMonotone(s, t - {x}, f, g);
      }
    }
  }

  lemma ActionTradesBound(hs: Hashes, e: Engine, a: Action)
    ensures |TradesIn(hs, e, a)| + Resting(Act(hs, e, a).x) <= Resting(e.x) + 1
  {
    hide TradesIn, Act, Matches, QuietBooks, Resting;
    ActionMatchesOrNot(hs, e, a);
    var x' := Act(hs, e, a).x;
    if o :| Matches(e.x, o, TimeOf(a), TradesIn(hs, e, a), x') {
      MatchedShrinks(e.x, o, TimeOf(a), TradesIn(hs, e, a), x');
    } else {
      QuietShrinks(e.x, x');
    }
  }

  /** A run makes at most as many trades as it has actions and found orders in the books. */
  lemma {:induction false} RunTradesBound(hs: Hashes, e: Engine, actions: seq<Action>)
    ensures |TradesInRun(hs, e, actions)| <= Resting(e.x) + |actions|
    decreases |actions|
  {
    hide TradesIn, Act, Resting;
    if actions == [] {
      RestingIsNatural(e.x);
    } else {
      ActionTradesBound(hs, e, actions[0]);
      RunTradesBound(hs, Act(hs, e, actions[0]), actions[1..]);
    }
  }

  lemma RestingIsNatural(x: Exchange)
    ensures Resting(x) >= 0
  {
    SumNonNegative(x.books.Keys, Sizes(x));
  }

  // ----- The ids of a run -----

  lemma MatchTakesIssuedIds(x: Exchange, o: Order, ts: nat, trades: seq<Trade>, x': Exchange)
    requires Matches(x, o, ts, trades, x')
    ensures IdsOf(trades) == IssueAll(x.lastId, Repeat(ts, |trades|))
    ensures x'.lastId == LastIssued(x.lastId, Repeat(ts, |trades|))
  {
    hide TradesOf, LastIdAfter, MatchIn, Repeat, IssueAll, IdsOf, LastIssued, AfterMatch;
    var b := x.books[o.symbol];
    TradesTakeIssuedIds(o, MatchIn(b, o).fills, b.matchSeq, x.lastId, ts);
    TradesLength(o, MatchIn(b, o).fills, b.matchSeq, x.lastId, ts);
  }

  lemma ActionTakesIssuedIds(hs: Hashes, e: Engine, a: Action)
    ensures var times := Repeat(TimeOf(a), |TradesIn(hs, e, a)|);
            && IdsOf(TradesIn(hs, e, a)) == IssueAll(e.x.lastId, times)
            && Act(hs, e, a).x.lastId == LastIssued(e.x.lastId, times)
  {
    hide TradesIn, Act, Matches, QuietBooks, IdsOf, IssueAll, LastIssued, Repeat, TimeOf;
    ActionMatchesOrNot(hs, e, a);
    NothingIssued(e.x.lastId);
    var x' := Act(hs, e, a).x;
    if o :| Matches(e.x, o, TimeOf(a), TradesIn(hs, e, a), x') {
      MatchTakesIssuedIds(e.x, o, TimeOf(a), TradesIn(hs, e, a), x');
    }
  }

  lemma NothingIssued(last: nat)
    ensures IssueAll(last, []) == [] && LastIssued(last, []) == last && IdsOf([]) == []
    ensures forall ts :: Repeat(ts, 0) == []
  {
  }

  /** One generator serves all books and both paths: the ids of a run are the ids it issues at the
      trades' times. */
  lemma {:induction false} RunTakesIssuedIds(hs: Hashes, e: Engine, actions: seq<Action>)
    ensures IdsOf(TradesInRun(hs, e, actions)) == IssueAll(e.x.lastId, TimesInRun(hs, e, actions))
    ensures |TimesInRun(hs, e, actions)| == |TradesInRun(hs, e, actions)|
    decreases |actions|
  {
    hide IdsOf, IssueAll, TradesIn, TimeOf, Act, LastIssued, Repeat;
    NothingIssued(e.x.lastId);
    if actions != [] {
      var a, e' := actions[0], Act(hs, e, actions[0]);
      ActionTakesIssuedIds(hs, e, a);
      RunTakesIssuedIds(hs, e', actions[1..]);
      var times := Repeat(TimeOf(a), |TradesIn(hs, e, a)|);
      RepeatLength(TimeOf(a), |TradesIn(hs, e, a)|);
      IdsAppend(TradesIn(hs, e, a), TradesInRun(hs, e', actions[1..]));
      IssueAppend(e.x.lastId, times, TimesInRun(hs, e', actions[1..]));
    }
  }

  lemma {:induction false} RepeatLength(ts: nat, n: nat)
    ensures |Repeat(ts, n)| == n
    ensures forall t :: t in Repeat(ts, n) ==> t == ts
    decreases n
  {
    if n > 0 {
      RepeatLength(ts, n - 1);
    }
  }

  /** The clock never passes `limit`. */
  ghost predicate TimesWithin(actions: seq<Action>, limit: nat) {
    forall a :: a in actions ==> TimestampPart(TimeOf(a)) <= limit
  }

  lemma {:induction false} RunTimesWithin(hs: Hashes, e: Engine, actions: seq<Action>, limit: nat)
    requires TimesWithin(actions, limit)
    ensures forall ts :: ts in TimesInRun(hs, e, actions) ==> TimestampPart(ts) <= limit
    decreases |actions|
  {
    hide TradesIn, TimeOf, Act, Repeat, TimestampPart;
    if actions != [] {
      RepeatLength(TimeOf(actions[0]), |TradesIn(hs, e, actions[0])|);
      RunTimesWithin(hs, Act(hs, e, actions[0]), actions[1..], limit);
    }
  }

  /** Over every run of both order paths, across all books and for timestamps in any order: when the
      clock, together with the orders in the books and the number of actions, stays within 64 bits,
      trade ids strictly increase. */
  lemma TradeIdsIncreaseOverRuns(hs: Hashes, e: Engine, actions: seq<Action>, limit: nat)
    requires e.x.lastId <= limit && TimesWithin(actions, limit)
    requires limit + Resting(e.x) + |actions| <= U64_MAX
    ensures StrictlyIncreasing([e.x.lastId] + IdsOf(TradesInRun(hs, e, actions)))
  {
    hide IdsOf, TradesInRun, IssueAll, TimesInRun, TimesWithin, Resting, StrictlyIncreasing;
    RunTakesIssuedIds(hs, e, actions);
    RunTradesBound(hs, e, actions);
    RunTimesWithin(hs, e, actions, limit);
    IdsIncreaseWithin(e.x.lastId, TimesInRun(hs, e, actions), limit);
  }

  /** Without any bound, ids strictly increase exactly until the largest 64-bit number is issued. */
  lemma TradeIdsIncreaseUntilWrap(hs: Hashes, e: Engine, actions: seq<Action>)
    requires e.x.lastId < U64_MAX
    ensures var ids := IdsOf(TradesInRun(hs, e, actions));
            StrictlyIncreasing([e.x.lastId] + ids) <==> forall i :: 0 <= i < |ids| - 1 ==> ids[i] < U64_MAX
  {
    hide IdsOf, TradesInRun, IssueAll, TimesInRun;
    RunTakesIssuedIds(hs, e, actions);
    IdsIncreaseUntilWrap(e.x.lastId, TimesInRun(hs, e, actions));
  }
}
