/** Which ids a book knows: exactly what adding and removing do to the id set, the index and the queues, and
    how long a used id stays refused. */
module BookIds {
  import opened Options
  import opened TradeIds
  import opened BookSpec
  import opened BookLaws
  import opened BookInvariant

  // ----- Adding -----

  /** The id of an order that rested against `o` before, and does not any more. */
  ghost predicate TradedAway(b: Book, o: Order, book: Book, id: nat) {
    && (exists m :: m in Half(b, Opposite(o.side)) && m.id == id)
    && (forall m :: m in Half(book, Opposite(o.side)) ==> m.id != id)
  }

  /** `queue` is `s` with `o` in it, behind everything at least as good and in front of everything worse. */
  ghost predicate Queued(side: Side, s: seq<Order>, o: Order, queue: seq<Order>, p: nat) {
    && p <= |s| && queue == s[..p] + [o] + s[p..]
    && (forall i :: 0 <= i < p ==> !Better(side, o.price, s[i].price))
    && (forall i :: p <= i < |s| ==> Better(side, o.price, s[i].price))
  }

  /** What a successful addition leaves, whether the order rests, trades or is filled completely: its id is
      known and indexed at its side and price from now on; known ids go exactly when their order was traded
      away; the other entries stay; the trade counter moves once per trade; the opposite side is what the
      match leaves; and what is left of the order, and nothing else, is queued at its price. */
  lemma AddedOutcome(b: Book, o: Order, lastId: nat, ts: nat)
    requires WellFormed(b) && Add(b, o, lastId, ts).Added?
    ensures var book, r := Add(b, o, lastId, ts).book, MatchIn(b, o);
            && o.id in book.active && o.id in book.index && book.index[o.id] == (o.side, o.price)
            && (forall id :: id in book.active <==>
                  id == o.id || (id in b.active && !TradedAway(b, o, book, id)))
            && book.index.Keys == book.active
            && (forall id :: id in book.index && id != o.id ==> id in b.index && book.index[id] == b.index[id])
            && book.matchSeq == b.matchSeq + |Add(b, o, lastId, ts).trades|
            && Half(book, Opposite(o.side)) == r.rest
            && (r.left == 0 ==> Half(book, o.side) == Half(b, o.side))
            && (r.left > 0 ==> exists p ::
                  Queued(o.side, Half(b, o.side), o.(quantity := r.left), Half(book, o.side), p))
  {
    hide Match, Insert, Exhausted, IdSet, TradesOf, LastIdAfter, Suffix, TailOf, WellFormed, TradedAway, Queued, Better;
    var side, opp, r := o.side, Half(b, Opposite(o.side)), MatchIn(b, o);
    var book := Add(b, o, lastId, ts).book;
    AddKeepsWellFormed(b, o, lastId, ts);
    TradesReported(o, r.fills, b.matchSeq, lastId, ts);
    WellFormedParts(b, side);
    WellFormedParts(book, side);
    var k := RestIsSuffix(side, o.price, o.quantity, opp);
    SuffixIsTail(Opposite(side), opp, r.fills, r.rest, k);
    ExhaustedExcludesTaker(opp, k, b.index, o.id);
    forall id ensures id in IdSet(opp[..k]) <==> TradedAway(b, o, book, id) {
      GoneIsTradedAway(b, o, book, k, id);
    }
    forall id ensures TradedAway(b, o, book, id) ==> id in b.active {
      TradedAwayWasKnown(b, o, book, id);
    }
    if r.left > 0 {
      var p := InsertAt(side, Half(b, side), o.(quantity := r.left));
      QueuedAt(side, Half(b, side), o.(quantity := r.left), Half(book, side), p);
    }
  }

  lemma QueuedAt(side: Side, s: seq<Order>, o: Order, queue: seq<Order>, p: nat)
    requires p <= |s| && queue == s[..p] + [o] + s[p..]
    requires forall i :: 0 <= i < p ==> !Better(side, o.price, s[i].price)
    requires forall i :: p <= i < |s| ==> Better(side, o.price, s[i].price)
    ensures Queued(side, s, o, queue, p)
  {
  }

  lemma WellFormedParts(b: Book, side: Side)
    requires WellFormed(b)
    ensures b.active == b.index.Keys
    ensures Sorted(side, Half(b, side)) && Resting(Opposite(side), Half(b, Opposite(side)))
    ensures DistinctIds(Half(b, Opposite(side))) && Indexed(Half(b, Opposite(side)), b.index)
  {
  }

  lemma {:induction false} TradesReported(o: Order, fills: seq<Fill>, seq0: nat, lastId: nat, ts: nat)
    ensures |TradesOf(o, fills, seq0, lastId, ts)| == |fills|
    decreases |fills|
  {
    hide TradeOf;
    if fills != [] {
      TradesReported(o, fills[1..], seq0 + 1, NextId(lastId, ts), ts);
    }
  }

  /** The makers in front of the rest are the ones that are gone. */
  lemma GoneIsTradedAway(b: Book, o: Order, book: Book, k: nat, id: nat)
    requires DistinctIds(Half(b, Opposite(o.side)))
    requires k <= |Half(b, Opposite(o.side))|
    requires TailOf(Half(b, Opposite(o.side)), k, Half(book, Opposite(o.side)))
    ensures id in IdSet(Half(b, Opposite(o.side))[..k]) <==> TradedAway(b, o, book, id)
  {
    var opp, rest := Half(b, Opposite(o.side)), Half(book, Opposite(o.side));
    InIdSet(opp[..k], id);
    if id in IdSet(opp[..k]) {
      var i :| 0 <= i < k && opp[..k][i].id == id;
      assert opp[i] in opp;
      forall m | m in rest ensures m.id != id {
        var j :| 0 <= j < |rest| && rest[j] == m;
        assert rest[j].id == opp[k + j].id;
      }
    } else if exists m :: m in opp && m.id == id {
      var m :| m in opp && m.id == id;
      var i :| 0 <= i < |opp| && opp[i] == m;
      assert forall j :: 0 <= j < k ==> opp[j].id == opp[..k][j].id;
      assert i >= k;
      assert rest[i - k] in rest && rest[i - k].id == id;
    }
  }

  lemma TradedAwayWasKnown(b: Book, o: Order, book: Book, id: nat)
    requires b.active == b.index.Keys && Indexed(Half(b, Opposite(o.side)), b.index)
    ensures TradedAway(b, o, book, id) ==> id in b.active
  {
  }

  // ----- Removing -----

  /** What removing leaves, whether or not an order rests under the id: the id and its entry are gone and no
      other, the counter stays, and each side keeps its order, without the order that was found. */
  lemma RemovedOutcome(b: Book, id: nat, side: Side)
    requires WellFormed(b)
    ensures var r := Remove(b, id);
            && r.book.active == b.active - {id} && r.book.index == b.index - {id} && r.book.matchSeq == b.matchSeq
            && ((forall m :: m in Half(b, side) ==> m.id != id) ==> Half(r.book, side) == Half(b, side))
            && (forall i :: 0 <= i < |Half(b, side)| && Half(b, side)[i].id == id ==>
                  && r.order == Some(Half(b, side)[i])
                  && Half(r.book, side) == Half(b, side)[..i] + Half(b, side)[i + 1..])
  {
    hide WellFormed;
    HalvesOf(b, side);
    if id in b.index {
      var (s, price) := b.index[id];
      if s != side {
        AbsentFromOther(Half(b, s), Half(b, side), s, id, b.index);
      }
    } else {
      assert b.active - {id} == b.active && b.index - {id} == b.index;
    }
  }

  lemma HalvesOf(b: Book, side: Side)
    requires WellFormed(b)
    ensures GoodHalf(side, Half(b, side), b.index) && b.active == b.index.Keys
  {
  }

  // ----- How long an id is refused -----

  /** The step frees the id: it removes it, or it trades its resting order away. */
  ghost predicate Frees(b: Book, lastId: nat, step: BookStep, id: nat) {
    match step
    case RemoveStep(i) => i == id
    case AddStep(o, ts) => Add(b, o, lastId, ts).Added? && TradedAway(b, o, Add(b, o, lastId, ts).book, id)
  }

  /** A book knows an id after a step exactly when the step adds it, or the book knew it and the step does not
      free it. */
  lemma StepIds(b: Book, lastId: nat, step: BookStep, id: nat)
    requires WellFormed(b)
    ensures id in RunStep(b, lastId, step).0.active <==>
            (step.AddStep? && step.order.id == id) || (id in b.active && !Frees(b, lastId, step, id))
  {
    hide WellFormed, TradedAway, Add, Remove;
    match step
    case RemoveStep(i) => RemovedOutcome(b, i, Buy);
    case AddStep(o, ts) =>
      KnownIsDuplicate(b, o, lastId, ts);
      if Add(b, o, lastId, ts).Added? {
        AddedOutcome(b, o, lastId, ts);
      }
  }

  lemma KnownIsDuplicate(b: Book, o: Order, lastId: nat, ts: nat)
    ensures Add(b, o, lastId, ts).Duplicate? <==> o.id in b.active
  {
  }

  /** No step of the run frees the id. */
  ghost predicate NeverFreed(b: Book, lastId: nat, steps: seq<BookStep>, id: nat)
    decreases |steps|
  {
    steps == [] ||
    var (b', lastId') := RunStep(b, lastId, steps[0]);
    !Frees(b, lastId, steps[0], id) && NeverFreed(b', lastId', steps[1..], id)
  }

  lemma StepKeepsWellFormed(b: Book, lastId: nat, step: BookStep)
    requires WellFormed(b)
    ensures WellFormed(RunStep(b, lastId, step).0)
  {
    hide WellFormed, Add, Remove;
    match step
    case RemoveStep(i) => RemoveKeepsWellFormed(b, i);
    case AddStep(o, ts) =>
      if Add(b, o, lastId, ts).Added? {
        AddKeepsWellFormed(b, o, lastId, ts);
      }
  }

  /** A known id stays known over any run that does not free it. */
  lemma {:induction false} KnownStaysKnown(b: Book, lastId: nat, steps: seq<BookStep>, id: nat)
    requires WellFormed(b) && id in b.active && NeverFreed(b, lastId, steps, id)
    ensures id in RunSteps(b, lastId, steps).0.active
    decreases |steps|
  {
    hide WellFormed, RunStep, Frees;
    if steps != [] {
      StepIds(b, lastId, steps[0], id);
      StepKeepsWellFormed(b, lastId, steps[0]);
      var (b', lastId') := RunStep(b, lastId, steps[0]);
      KnownStaysKnown(b', lastId', steps[1..], id);
    }
  }

  /** An accepted id is accepted only once: over any run after it, also when the order was filled at once,
      a second order with its id is a duplicate, until the id is removed or its resting order is traded
      away. */
  lemma AddedIdIsRefused(b: Book, lastId: nat, o: Order, ts: nat, steps: seq<BookStep>, again: Order, ts': nat)
    requires WellFormed(b) && Add(b, o, lastId, ts).Added? && again.id == o.id
    requires NeverFreed(Add(b, o, lastId, ts).book, Add(b, o, lastId, ts).lastId, steps, o.id)
    ensures var (book, lastId') := RunSteps(Add(b, o, lastId, ts).book, Add(b, o, lastId, ts).lastId, steps);
            Add(book, again, lastId', ts').Duplicate?
  {
    hide WellFormed, Add, TradedAway, NeverFreed, RunSteps;
    AddedOutcome(b, o, lastId, ts);
    AddKeepsWellFormed(b, o, lastId, ts);
    var r := Add(b, o, lastId, ts);
    KnownStaysKnown(r.book, r.lastId, steps, o.id);
    var (book, lastId') := RunSteps(r.book, r.lastId, steps);
    KnownIsDuplicate(book, again, lastId', ts');
  }

  /** And a freed id can be used again at once. */
  lemma FreedIdIsAccepted(b: Book, lastId: nat, step: BookStep, again: Order, ts: nat)
    requires WellFormed(b) && Frees(b, lastId, step, again.id) && !(step.AddStep? && step.order.id == again.id)
    ensures var (book, lastId') := RunStep(b, lastId, step);
            Add(book, again, lastId', ts).Added?
  {
    hide WellFormed, Add, Frees, RunStep;
    StepIds(b, lastId, step, again.id);
    var (book, lastId') := RunStep(b, lastId, step);
    KnownIsDuplicate(book, again, lastId', ts);
  }
}
