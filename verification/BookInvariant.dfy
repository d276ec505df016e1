/** Every reachable book is well formed, and cancelling removes exactly what rests. */
module BookInvariant {
  import opened Options
  import opened BookSpec
  import opened BookLaws

  // ----- The side that is taken from -----

  lemma {:induction false} InIdSet(s: seq<Order>, id: nat)
    ensures id in IdSet(s) <==> exists i :: 0 <= i < |s| && s[i].id == id
    decreases |s|
  {
    if s != [] {
      InIdSet(s[1..], id);
      if id in IdSet(s[1..]) {
        var i :| 0 <= i < |s| - 1 && s[1..][i].id == id;
        assert s[i + 1].id == id;
      }
      if exists i :: 0 <= i < |s| && s[i].id == id {
        var i :| 0 <= i < |s| && s[i].id == id;
        if i > 0 {
          assert s[1..][i - 1].id == id;
        }
      }
    }
  }

  /** The i-th order of `rest` is the (k+i)-th of `makers` up to its quantity, which stays positive. */
  ghost predicate TailOf(makers: seq<Order>, k: nat, rest: seq<Order>) {
    && |rest| + k == |makers|
    && forall i :: 0 <= i < |rest| ==>
         && rest[i].id == makers[k + i].id && rest[i].side == makers[k + i].side
         && rest[i].price == makers[k + i].price && rest[i].user == makers[k + i].user
         && 0 < rest[i].quantity <= makers[k + i].quantity
  }

  lemma SuffixIsTail(side: Side, makers: seq<Order>, fills: seq<Fill>, rest: seq<Order>, k: nat)
    requires Resting(side, makers) && Suffix(makers, fills, rest, k)
    ensures TailOf(makers, k, rest)
  {
    if |fills| == k + 1 {
      assert rest[0].quantity == makers[k].quantity - fills[k].quantity;
    }
  }

  /** What is left of the opposite side stays good after the exhausted ids have left the index. */
  lemma TailIsGood(side: Side, makers: seq<Order>, k: nat, rest: seq<Order>,
                   index: map<nat, (Side, nat)>, id: nat, entry: (Side, nat))
    requires GoodHalf(side, makers, index) && TailOf(makers, k, rest) && id !in index
    ensures GoodHalf(side, rest, index[id := entry] - IdSet(makers[..k]))
  {
    forall i | 0 <= i < |rest| ensures rest[i].id !in IdSet(makers[..k]) {
      InIdSet(makers[..k], rest[i].id);
      assert rest[i].id == makers[k + i].id;
    }
    forall i, j | 0 <= i < j < |rest|
      ensures rest[i].id != rest[j].id && !Better(side, rest[j].price, rest[i].price)
    {
      assert makers[k + i].id != makers[k + j].id;
    }
    forall i | 0 <= i < |rest| ensures rest[i].id in index && index[rest[i].id] == (rest[i].side, rest[i].price) {
      assert makers[k + i].id in index;
    }
  }

  /** The other side does not notice. */
  lemma OwnSideKept(side: Side, own: seq<Order>, opp: seq<Order>, k: nat,
                    index: map<nat, (Side, nat)>, id: nat, entry: (Side, nat))
    requires GoodHalf(side, own, index) && DisjointIds(own, opp) && k <= |opp| && id !in index
    ensures GoodHalf(side, own, index[id := entry] - IdSet(opp[..k]))
  {
    forall i | 0 <= i < |own| ensures own[i].id !in IdSet(opp[..k]) {
      InIdSet(opp[..k], own[i].id);
    }
  }

  // ----- The side that is added to -----

  /** Insert puts the order behind everything at least as good and before everything worse. */
  lemma {:induction false} InsertAt(side: Side, s: seq<Order>, o: Order) returns (p: nat)
    requires Sorted(side, s)
    ensures p <= |s| && Insert(side, s, o) == s[..p] + [o] + s[p..]
    ensures forall i :: 0 <= i < p ==> !Better(side, o.price, s[i].price)
    ensures forall i :: p <= i < |s| ==> Better(side, o.price, s[i].price)
    decreases |s|
  {
    p := 0;
    if s != [] && !Better(side, o.price, s[0].price) {
      var q := InsertAt(side, s[1..], o);
      p := q + 1;
      assert s[..p] == [s[0]] + s[1..][..q] && s[p..] == s[1..][q..];
    } else if s != [] {
      assert s[..0] + [o] + s[0..] == [o] + s;
      assert forall i :: 0 < i < |s| ==> !Better(side, s[i].price, s[0].price);
    }
  }

  /** Where every element of the list after an insertion comes from. */
  ghost predicate InsertedAt(s: seq<Order>, o: Order, p: nat, t: seq<Order>) {
    && p <= |s| && |t| == |s| + 1
    && forall i :: 0 <= i < |t| ==> t[i] == if i < p then s[i] else if i == p then o else s[i - 1]
  }

  lemma InsertKeepsGood(side: Side, s: seq<Order>, o: Order, index: map<nat, (Side, nat)>)
    requires GoodHalf(side, s, index)
    requires o.side == side && o.quantity > 0 && o.id in index && index[o.id] == (side, o.price)
    requires forall i :: 0 <= i < |s| ==> s[i].id != o.id
    ensures GoodHalf(side, Insert(side, s, o), index)
  {
    var p := InsertAt(side, s, o);
    hide Insert;
    var t := Insert(side, s, o);
    assert InsertedAt(s, o, p, t);
    InsertedIsSorted(side, s, o, p, t);
    hide Sorted;
  }

  lemma InsertedIsSorted(side: Side, s: seq<Order>, o: Order, p: nat, t: seq<Order>)
    requires Sorted(side, s) && InsertedAt(s, o, p, t)
    requires forall i :: 0 <= i < p ==> !Better(side, o.price, s[i].price)
    requires forall i :: p <= i < |s| ==> Better(side, o.price, s[i].price)
    ensures Sorted(side, t)
  {
    forall i, j | 0 <= i < j < |t| ensures !Better(side, t[j].price, t[i].price) {
      assert t[j] == if j < p then s[j] else if j == p then o else s[j - 1];
      assert t[i] == if i < p then s[i] else if i == p then o else s[i - 1];
    }
  }

  /** No order of `own` would trade with any order of `opp`. */
  ghost predicate Apart(side: Side, own: seq<Order>, opp: seq<Order>) {
    forall i, j :: 0 <= i < |own| && 0 <= j < |opp| ==> !Crosses(side, own[i].price, opp[j].price)
  }

  lemma ApartIsUncrossed(b: Book, side: Side)
    ensures Uncrossed(b.bids, b.asks) <==> Apart(side, Half(b, side), Half(b, Opposite(side)))
  {
  }

  lemma InsertElements(side: Side, s: seq<Order>, o: Order)
    requires Sorted(side, s)
    ensures |Insert(side, s, o)| == |s| + 1
    ensures forall i :: 0 <= i < |s| + 1 ==>
              Insert(side, s, o)[i] == o || exists j :: 0 <= j < |s| && s[j] == Insert(side, s, o)[i]
  {
    var p := InsertAt(side, s, o);
    var t := Insert(side, s, o);
    forall i | 0 <= i < |t| ensures t[i] == o || exists j :: 0 <= j < |s| && s[j] == t[i] {
      if i < p {
        assert s[i] == t[i];
      } else if i > p {
        assert s[i - 1] == t[i];
      }
    }
  }

  lemma InsertKeepsApart(side: Side, own: seq<Order>, o: Order, opp: seq<Order>)
    requires Sorted(side, own) && Apart(side, own, opp)
    requires forall j :: 0 <= j < |opp| ==> !Crosses(side, o.price, opp[j].price)
    ensures Apart(side, Insert(side, own, o), opp)
  {
    InsertElements(side, own, o);
  }

  lemma InsertKeepsDisjoint(side: Side, own: seq<Order>, o: Order, opp: seq<Order>)
    requires Sorted(side, own) && DisjointIds(own, opp)
    requires forall j :: 0 <= j < |opp| ==> opp[j].id != o.id
    ensures DisjointIds(Insert(side, own, o), opp)
  {
    InsertElements(side, own, o);
  }

  // ----- Every operation -----

  /** Well-formedness seen from one side. */
  ghost predicate GoodSides(side: Side, own: seq<Order>, opp: seq<Order>, index: map<nat, (Side, nat)>) {
    GoodHalf(side, own, index) && GoodHalf(Opposite(side), opp, index)
    && DisjointIds(own, opp) && Apart(side, own, opp)
  }

  lemma GoodSidesIsWellFormed(b: Book, side: Side)
    ensures WellFormed(b) <==>
            GoodSides(side, Half(b, side), Half(b, Opposite(side)), b.index) && b.active == b.index.Keys
  {
    ApartIsUncrossed(b, side);
  }

  lemma MatchKeepsSides(side: Side, own: seq<Order>, opp: seq<Order>, index: map<nat, (Side, nat)>,
                        k: nat, rest: seq<Order>, id: nat, entry: (Side, nat))
    requires GoodSides(side, own, opp, index) && TailOf(opp, k, rest) && id !in index
    ensures GoodSides(side, own, rest, index[id := entry] - IdSet(opp[..k]))
    ensures forall i :: 0 <= i < |rest| ==> rest[i].id != id
    ensures forall i :: 0 <= i < |own| ==> own[i].id != id
  {
    TailIsGood(Opposite(side), opp, k, rest, index, id, entry);
    OwnSideKept(side, own, opp, k, index, id, entry);
    assert forall i :: 0 <= i < |rest| ==> rest[i].id == opp[k + i].id && rest[i].price == opp[k + i].price;
  }

  /** Adding any order with a new id, crossing or not, keeps the book well formed. A taker that is
      filled completely stays in the id index, so the index may hold more than what rests. */
  lemma AddKeepsWellFormed(b: Book, o: Order, lastId: nat, ts: nat)
    requires WellFormed(b) && Add(b, o, lastId, ts).Added?
    ensures WellFormed(Add(b, o, lastId, ts).book)
  {
    hide Match, Insert, Exhausted, IdSet, TradesOf, LastIdAfter, WellFormed, Apart, DisjointIds, Suffix, TailOf,
         Taken, CrossingDepth;
    var side, own, opp := o.side, Half(b, o.side), Half(b, Opposite(o.side));
    var r := MatchIn(b, o);
    var b' := Add(b, o, lastId, ts).book;
    GoodSidesIsWellFormed(b, side);
    var k := RestIsSuffix(side, o.price, o.quantity, opp);
    SuffixIsTail(Opposite(side), opp, r.fills, r.rest, k);
    MatchKeepsSides(side, own, opp, b.index, k, r.rest, o.id, (side, o.price));
    ExhaustedExcludesTaker(opp, k, b.index, o.id);
    if r.left > 0 {
      var left := o.(quantity := r.left);
      MatchIsMaximal(side, o.price, o.quantity, opp);
      InsertKeepsGood(side, own, left, b'.index);
      InsertKeepsApart(side, own, left, r.rest);
      InsertKeepsDisjoint(side, own, left, r.rest);
    }
    assert b'.active == b'.index.Keys;
    GoodSidesIsWellFormed(b', side);
  }

  lemma ExhaustedExcludesTaker(opp: seq<Order>, k: nat, index: map<nat, (Side, nat)>, id: nat)
    requires k <= |opp| && Indexed(opp, index) && id !in index
    ensures id !in IdSet(opp[..k])
  {
    InIdSet(opp[..k], id);
  }

  // ----- Removing -----

  lemma RemoveAtKeepsGood(side: Side, s: seq<Order>, i: nat, index: map<nat, (Side, nat)>)
    requires GoodHalf(side, s, index) && i < |s|
    ensures GoodHalf(side, RemoveAt(s, i), index - {s[i].id})
    ensures forall j :: 0 <= j < |s| - 1 ==> RemoveAt(s, i)[j] == s[if j < i then j else j + 1]
  {
    var t := RemoveAt(s, i);
    assert forall j :: 0 <= j < |t| ==> t[j] == s[if j < i then j else j + 1];
  }

  lemma AbsentKeepsGood(side: Side, s: seq<Order>, id: nat, index: map<nat, (Side, nat)>)
    requires GoodHalf(side, s, index) && forall i :: 0 <= i < |s| ==> s[i].id != id
    ensures GoodHalf(side, s, index - {id})
  {
  }

  lemma RemoveKeepsWellFormed(b: Book, id: nat)
    requires WellFormed(b)
    ensures WellFormed(Remove(b, id).book)
  {
    hide WellFormed, Sorted, Resting, DistinctIds;
    if id in b.index {
      var (side, price) := b.index[id];
      var own, opp := Half(b, side), Half(b, Opposite(side));
      GoodSidesIsWellFormed(b, side);
      var i := Find(own, id, price);
      var b' := Remove(b, id).book;
      AbsentFromOther(own, opp, side, id, b.index);
      AbsentKeepsGood(Opposite(side), opp, id, b.index);
      if i < |own| {
        RemoveAtKeepsGood(side, own, i, b.index);
      } else {
        AbsentWhenNotFound(side, own, id, price, b.index);
        AbsentKeepsGood(side, own, id, b.index);
      }
      GoodSidesIsWellFormed(b', side);
    }
  }

  /** An order indexed on one side cannot rest on the other. */
  lemma AbsentFromOther(own: seq<Order>, opp: seq<Order>, side: Side, id: nat, index: map<nat, (Side, nat)>)
    requires GoodHalf(Opposite(side), opp, index) && id in index && index[id].0 == side
    ensures forall j :: 0 <= j < |opp| ==> opp[j].id != id
  {
  }

  /** An order that is not found at its indexed price does not rest at all. */
  lemma AbsentWhenNotFound(side: Side, own: seq<Order>, id: nat, price: nat, index: map<nat, (Side, nat)>)
    requires GoodHalf(side, own, index) && id in index && index[id] == (side, price)
    requires Find(own, id, price) == |own|
    ensures forall j :: 0 <= j < |own| ==> own[j].id != id
  {
  }

  ghost predicate RestsIn(b: Book, o: Order) {
    o in b.bids || o in b.asks
  }

  /** Cancelling succeeds exactly for resting orders, returns that order, and removes only it; a
      stale index entry is cleared without touching the resting orders. */
  lemma RemoveIffResting(b: Book, id: nat)
    requires WellFormed(b)
    ensures var r := Remove(b, id);
            && (r.order.Some? <==> exists o :: RestsIn(b, o) && o.id == id)
            && (r.order.Some? ==> RestsIn(b, r.order.value) && r.order.value.id == id)
            && (forall o :: RestsIn(r.book, o) <==> RestsIn(b, o) && o.id != id)
            && id !in r.book.active
  {
    var r := Remove(b, id);
    if id in b.index {
      var (side, price) := b.index[id];
      var own, opp := Half(b, side), Half(b, Opposite(side));
      var i := Find(own, id, price);
      AbsentFromOther(own, opp, side, id, b.index);
      if i < |own| {
        RemoveAtElements(own, i);
      } else {
        AbsentWhenNotFound(side, own, id, price, b.index);
      }
    }
  }

  lemma RemoveAtElements(s: seq<Order>, i: nat)
    requires DistinctIds(s) && i < |s|
    ensures forall o :: o in RemoveAt(s, i) <==> o in s && o.id != s[i].id
  {
    var t := RemoveAt(s, i);
    forall o | o in s && o.id != s[i].id ensures o in t {
      var j :| 0 <= j < |s| && s[j] == o;
      assert t[if j < i then j else j - 1] == o;
    }
    forall o | o in t ensures o in s && o.id != s[i].id {
      var j :| 0 <= j < |t| && t[j] == o;
      assert s[if j < i then j else j + 1] == o;
    }
  }

  /** Cancelling an order that rested without trading restores the book exactly. */
  lemma CancelUndoesAdd(b: Book, o: Order, lastId: nat, ts: nat)
    requires WellFormed(b) && o.quantity > 0
    requires o.id !in b.active && MatchIn(b, o).fills == []
    ensures Add(b, o, lastId, ts).Added?
    ensures Remove(Add(b, o, lastId, ts).book, o.id) == RemoveResult(b, Some(o))
  {
    RestedBook(b, o, lastId, ts);
    SidesLackNewId(b, o);
    hide Match, Insert, WellFormed, Find, Add, Remove, GoodHalf;
    var p := InsertAt(o.side, Half(b, o.side), o);
    RemoveRested(b, o, p);
  }

  lemma SidesLackNewId(b: Book, o: Order)
    requires WellFormed(b) && o.id !in b.active
    ensures Sorted(o.side, Half(b, o.side))
    ensures forall i :: 0 <= i < |Half(b, o.side)| ==> Half(b, o.side)[i].id != o.id
    ensures b.active == b.index.Keys
  {
  }

  /** Removing an order that was put at position `p` and indexed gives the book back. */
  lemma RemoveRested(b: Book, o: Order, p: nat)
    requires p <= |Half(b, o.side)| && o.id !in b.active && b.active == b.index.Keys
    requires forall i :: 0 <= i < |Half(b, o.side)| ==> Half(b, o.side)[i].id != o.id
    ensures var own := Half(b, o.side);
            var b' := b.(active := b.active + {o.id}, index := b.index[o.id := (o.side, o.price)]);
            Remove(WithHalf(b', o.side, own[..p] + [o] + own[p..]), o.id) == RemoveResult(b, Some(o))
  {
    var own := Half(b, o.side);
    FoundWhereInserted(own, o, p);
    hide Find;
    assert RemoveAt(own[..p] + [o] + own[p..], p) == own;
    assert b.index[o.id := (o.side, o.price)] - {o.id} == b.index;
    assert b.active + {o.id} - {o.id} == b.active;
  }

  /** An order that meets nothing to trade with is indexed and queued, and nothing else happens. */
  lemma RestedBook(b: Book, o: Order, lastId: nat, ts: nat)
    requires o.id !in b.active && o.quantity > 0 && MatchIn(b, o).fills == []
    ensures Add(b, o, lastId, ts) ==
            Added(WithHalf(b.(active := b.active + {o.id}, index := b.index[o.id := (o.side, o.price)]),
                           o.side, Insert(o.side, Half(b, o.side), o)), [], lastId)
  {
    var r := MatchIn(b, o);
    assert r == Matched([], Half(b, Opposite(o.side)), o.quantity);
    assert Exhausted(r.fills) == {};
    assert b.index[o.id := (o.side, o.price)] - {} == b.index[o.id := (o.side, o.price)];
    assert b.active + {o.id} - {} == b.active + {o.id};
  }

  lemma {:induction false} FoundWhereInserted(s: seq<Order>, o: Order, p: nat)
    requires p <= |s| && forall i :: 0 <= i < |s| ==> s[i].id != o.id
    ensures Find(s[..p] + [o] + s[p..], o.id, o.price) == p
    decreases p
  {
    var t := s[..p] + [o] + s[p..];
    assert t[p] == o;
    if p > 0 {
      assert t[0] == s[0];
      assert s[..p] == [s[0]] + s[1..][..p - 1] && s[p..] == s[1..][p - 1..];
      assert t[1..] == s[1..][..p - 1] + [o] + s[1..][p - 1..];
      FoundWhereInserted(s[1..], o, p - 1);
    }
  }

  // ----- Runs -----

  datatype BookStep = AddStep(order: Order, ts: nat) | RemoveStep(id: nat)

  function RunStep(b: Book, lastId: nat, step: BookStep): (Book, nat) {
    match step
    case AddStep(o, ts) =>
      (match Add(b, o, lastId, ts)
       case Duplicate => (b, lastId)
       case Added(b', _, lastId') => (b', lastId'))
    case RemoveStep(id) => (Remove(b, id).book, lastId)
  }

  function RunSteps(b: Book, lastId: nat, steps: seq<BookStep>): (Book, nat)
    decreases |steps|
  {
    if steps == [] then (b, lastId) else
    var (b', lastId') := RunStep(b, lastId, steps[0]);
    RunSteps(b', lastId', steps[1..])
  }

  /** Every book reached from the empty one by any additions and cancellations is well formed. */
  lemma {:induction false} ReachableBooksAreWellFormed(b: Book, lastId: nat, steps: seq<BookStep>)
    requires WellFormed(b)
    ensures WellFormed(RunSteps(b, lastId, steps).0)
    decreases |steps|
  {
    if steps != [] {
      match steps[0] {
        case AddStep(o, ts) => if o.id !in b.active { AddKeepsWellFormed(b, o, lastId, ts); }
        case RemoveStep(id) => RemoveKeepsWellFormed(b, id);
      }
      var (b', lastId') := RunStep(b, lastId, steps[0]);
      ReachableBooksAreWellFormed(b', lastId', steps[1..]);
    }
  }
}
