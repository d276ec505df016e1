/** The collateral invariant over every run of deposits, withdrawals, registrations, orders and
    cancellations. */
module Exchanges {
  import opened Numbers
  import opened Options
  import opened Sums
  import opened Balances
  import opened LedgerSpec
  import opened LedgerLaws
  import opened BookSpec
  import opened BookInvariant
  import opened ExchangeSpec
  import opened Collateral

  // ----- Changing one book -----

  lemma RequiredAtLeast(x: Exchange, symbol: SymbolId, u: UserId, a: AssetId)
    ensures Required(x, u, a) >= 0
    ensures symbol in x.books && symbol in x.pairs ==>
              BookLock(x.books[symbol], x.pairs[symbol], u, a) <= Required(x, u, a)
  {
    var f := BookLocks(x, u, a);
    SumNonNegative(x.books.Keys, f);
    if symbol in x.books && symbol in x.pairs {
      SumAtLeast(x.books.Keys, f, symbol);
    }
  }

  lemma RequiredOfNewBook(x: Exchange, symbol: SymbolId, b: Book, m: Accounts, u: UserId, a: AssetId)
    requires symbol in x.books && symbol in x.pairs
    ensures Required(x.(books := x.books[symbol := b], accts := m), u, a) ==
            Required(x, u, a) + BookLock(b, x.pairs[symbol], u, a)
            - BookLock(x.books[symbol], x.pairs[symbol], u, a)
  {
    var x' := x.(books := x.books[symbol := b], accts := m);
    assert x'.books.Keys == x.books.Keys;
    SumChange(x.books.Keys, BookLocks(x, u, a), BookLocks(x', u, a), symbol);
  }

  /** Changes outside books and pairs do not change what is required. */
  lemma RequiredSame(x: Exchange, y: Exchange, u: UserId, a: AssetId)
    requires x.books == y.books && x.pairs == y.pairs
    ensures Required(x, u, a) == Required(y, u, a)
  {
    SumSame(x.books.Keys, BookLocks(x, u, a), BookLocks(y, u, a));
  }

  // ----- Transfers -----

  /** Frozen funds and entries survive, supply stays in range: the books are still sound. */
  lemma SoundAfter(x: Exchange, m: Accounts)
    requires Sound(x) && SupplyFits(m)
    requires forall u, a :: Get(m, u, a).frozen == Get(x.accts, u, a).frozen
    requires forall u, a :: Has(x.accts, u, a) ==> Has(m, u, a)
    ensures Sound(x.(accts := m))
  {
    var y := x.(accts := m);
    forall u, a ensures Get(m, u, a).frozen == Required(y, u, a) {
      RequiredSame(x, y, u, a);
    }
    forall s | s in y.books ensures SoundBook(m, y.books[s], y.pairs[s]) {
      assert SoundBook(x.accts, x.books[s], x.pairs[s]);
    }
  }

  /** A deposit within the supply bound succeeds, credits exactly its user, and keeps the invariant. */
  lemma DepositKeepsSound(x: Exchange, u: UserId, a: AssetId, n: nat)
    requires Sound(x) && Supply(x.accts, a) + n <= U64_MAX
    ensures Sound(DoStep(x, DepositStep(u, a, n)))
    ensures ApplyTx(x.accts, Cmd.Deposit(u, a, n, 0, 0)).Done?
    ensures var y := DoStep(x, DepositStep(u, a, n));
            && y == x.(accts := y.accts)
            && forall v, b :: Get(y.accts, v, b).avail == Get(x.accts, v, b).avail + if v == u && b == a then n else 0
  {
    hide Get, Has, Supply, WellFormed;
    var t := Touch(u, a, BalOp.Deposit(n));
    HoldingWithinSupply(x.accts, u, a);
    TouchReads(x.accts, t);
    OpOutcome(Get(x.accts, u, a), t.op);
    forall b ensures Supply(DoTouch(x.accts, t).accts, b) <= U64_MAX {
      SupplyOfTouch(x.accts, t, b);
    }
    SoundAfter(x, DoTouch(x.accts, t).accts);
  }

  /** A withdrawal succeeds exactly for available funds, whatever the user has frozen, and then takes
      exactly those; otherwise nothing changes. The invariant is kept either way. */
  lemma WithdrawKeepsSound(x: Exchange, u: UserId, a: AssetId, n: nat)
    requires Sound(x)
    ensures Sound(DoStep(x, WithdrawStep(u, a, n)))
    ensures ApplyTx(x.accts, Cmd.Withdraw(u, a, n, 0, 0)).Done? <==> n <= Get(x.accts, u, a).avail
    ensures var y := DoStep(x, WithdrawStep(u, a, n));
            if n <= Get(x.accts, u, a).avail then
              && y == x.(accts := y.accts)
              && forall v, b :: Get(y.accts, v, b).avail == Get(x.accts, v, b).avail - if v == u && b == a then n else 0
            else y == x
  {
    hide Get, Has, Supply, WellFormed, DoTouch;
    var t := Touch(u, a, BalOp.Withdraw(n));
    TransferOutcome(x.accts, Cmd.Withdraw(u, a, n, 0, 0));
    TouchReads(x.accts, t);
    if DoTouch(x.accts, t).Done? {
      forall b ensures Supply(DoTouch(x.accts, t).accts, b) <= U64_MAX {
        SupplyOfTouch(x.accts, t, b);
      }
      SoundAfter(x, DoTouch(x.accts, t).accts);
    }
  }

  lemma RequiredOfEmptyBook(x: Exchange, symbol: SymbolId, pair: Pair, u: UserId, a: AssetId)
    requires symbol !in x.books
    ensures Required(x.(books := x.books[symbol := EMPTY_BOOK], pairs := x.pairs[symbol := pair]), u, a) ==
            Required(x, u, a)
  {
    var y := x.(books := x.books[symbol := EMPTY_BOOK], pairs := x.pairs[symbol := pair]);
    assert y.books.Keys == x.books.Keys + {symbol};
    SumGrow(x.books.Keys, BookLocks(y, u, a), symbol);
    SumSame(x.books.Keys, BookLocks(x, u, a), BookLocks(y, u, a));
  }

  lemma RegisterKeepsSound(x: Exchange, symbol: SymbolId, pair: Pair)
    requires Sound(x) && pair.0 != pair.1
    ensures Sound(DoStep(x, RegisterStep(symbol, pair)))
  {
    hide Required, SupplyFits, WellFormed;
    if symbol !in x.books {
      var y := DoStep(x, RegisterStep(symbol, pair));
      forall u, a ensures Get(y.accts, u, a).frozen == Required(y, u, a) {
        RequiredOfEmptyBook(x, symbol, pair, u, a);
      }
      EmptyBookIsSound(y.accts, pair);
      forall s | s in y.books ensures SoundBook(y.accts, y.books[s], y.pairs[s]) {
        assert s != symbol ==> SoundBook(x.accts, x.books[s], x.pairs[s]);
      }
    }
  }

  lemma EmptyBookIsSound(m: Accounts, pair: Pair)
    requires pair.0 != pair.1
    ensures SoundBook(m, EMPTY_BOOK, pair)
  {
  }

  // ----- Placing an order -----

  /** What is needed by everything but the side the order trades against. */
  ghost function Others(x: Exchange, o: Order): (UserId, AssetId) -> int
    requires o.symbol in x.books && o.symbol in x.pairs
  {
    (u: UserId, a: AssetId) =>
      Required(x, u, a) - if a == LockAsset(x.pairs[o.symbol], Opposite(o.side))
                          then Locked(Half(x.books[o.symbol], Opposite(o.side)), u) else 0
  }

  /** Locking succeeds exactly when enough is available; a refused lock changes no balance. */
  lemma LockOutcome(m: Accounts, u: UserId, a: AssetId, n: nat)
    requires SupplyFits(m)
    ensures var t := Touch(u, a, BalOp.Lock(n));
            var r := DoTouch(m, t);
            && !r.Panicked? && (r.Done? <==> Get(m, u, a).avail >= n)
            && SupplyFits(r.accts) && Has(r.accts, u, a)
            && (forall v, b :: Has(m, v, b) ==> Has(r.accts, v, b))
            && (forall v, b :: Get(r.accts, v, b).frozen ==
                  Get(m, v, b).frozen + if r.Done? && v == u && b == a then n else 0)
            && (r.Failed? ==> forall v, b :: Get(r.accts, v, b) == Get(m, v, b))
  {
    var t := Touch(u, a, BalOp.Lock(n));
    var r := DoTouch(m, t);
    HoldingWithinSupply(m, u, a);
    TouchReads(m, t);
    forall b ensures Supply(r.accts, b) <= U64_MAX {
      if r.Done? {
        SupplyOfTouch(m, t, b);
      } else {
        SupplyOfUpdate(m, u, TouchAccount(AccountOf(m, u), a, t.op), b);
      }
    }
  }

  /** After the lock, the order is ready to be matched. */
  lemma LockedOrderIsReady(x: Exchange, o: Order, m: Accounts)
    requires Sound(x) && o.symbol in x.books
    requires SupplyFits(m) && Has(m, o.user, LockAsset(x.pairs[o.symbol], o.side))
    requires forall u, a :: Has(x.accts, u, a) ==> Has(m, u, a)
    requires forall u, a :: Get(m, u, a).frozen == Get(x.accts, u, a).frozen +
               if u == o.user && a == LockAsset(x.pairs[o.symbol], o.side) then LockAmount(o) else 0
    ensures Ready(m, o, x.pairs[o.symbol], o.quantity,
                  Half(x.books[o.symbol], Opposite(o.side)), Others(x, o))
  {
    var pair, b := x.pairs[o.symbol], x.books[o.symbol];
    assert SoundBook(x.accts, b, pair);
    assert o.(quantity := o.quantity) == o;
    forall u, a ensures Others(x, o)(u, a) >= 0 {
      RequiredAtLeast(x, o.symbol, u, a);
    }
  }

  /** What the changed book needs, from the leftovers of the match. */
  lemma BookLockAfterAdd(b: Book, o: Order, lastId: nat, ts: nat, pair: Pair, u: UserId, a: AssetId)
    requires WellFormed(b) && pair.0 != pair.1 && o.id !in b.active
    ensures var r := MatchIn(b, o);
            BookLock(Add(b, o, lastId, ts).book, pair, u, a) ==
            (if a == LockAsset(pair, Opposite(o.side)) then Locked(r.rest, u) else 0)
            + (if a == LockAsset(pair, o.side) then Locked(Half(b, o.side), u) else 0)
            + (if u == o.user && a == LockAsset(pair, o.side) then LockAmount(o.(quantity := r.left)) else 0)
  {
    hide Match, TradesOf, Exhausted, LastIdAfter, Insert;
    var r := MatchIn(b, o);
    if r.left > 0 {
      LockedInsert(o.side, Half(b, o.side), o.(quantity := r.left), u);
    } else {
      assert LockAmount(o.(quantity := r.left)) == 0 by {
        assert o.price * 0 == 0;
      }
    }
  }

  lemma {:induction false} EntriesAfterInsert(m: Accounts, side: Side, s: seq<Order>, o: Order, a: AssetId)
    requires Sorted(side, s) && EntriesFor(m, s, a) && Has(m, o.user, a)
    ensures EntriesFor(m, Insert(side, s, o), a)
  {
    var p := InsertAt(side, s, o);
    var t := Insert(side, s, o);
    forall i | 0 <= i < |t| ensures Has(m, t[i].user, a) {
      assert t[i] == if i < p then s[i] else if i == p then o else s[i - 1];
    }
  }

  /** The book after the match is sound over the accounts after the settlement. */
  lemma BookStaysSound(m: Accounts, m': Accounts, b: Book, pair: Pair, o: Order, lastId: nat, ts: nat)
    requires SoundBook(m, b, pair) && o.id !in b.active
    requires forall u, a :: Has(m, u, a) ==> Has(m', u, a)
    requires Has(m', o.user, LockAsset(pair, o.side))
    requires EntriesFor(m', MatchIn(b, o).rest, LockAsset(pair, Opposite(o.side)))
    ensures SoundBook(m', Add(b, o, lastId, ts).book, pair)
  {
    AddKeepsWellFormed(b, o, lastId, ts);
    hide WellFormed, Match, TradesOf, Exhausted, LastIdAfter, Insert;
    var r := MatchIn(b, o);
    assert EntriesFor(m', Half(b, o.side), LockAsset(pair, o.side));
    if r.left > 0 {
      SidesAreSorted(b, o.side);
      EntriesAfterInsert(m', o.side, Half(b, o.side), o.(quantity := r.left), LockAsset(pair, o.side));
    }
  }

  lemma SidesAreSorted(b: Book, side: Side)
    requires WellFormed(b)
    ensures Sorted(side, Half(b, side))
  {
  }

  /** The state after an accepted order is sound. */
  lemma SettledOrderIsSound(x: Exchange, o: Order, ts: nat, m: Accounts, x': Exchange)
    requires Sound(x) && o.symbol in x.books && o.id !in x.books[o.symbol].active
    requires forall u, a :: Has(x.accts, u, a) ==> Has(m, u, a)
    requires var r := MatchIn(x.books[o.symbol], o);
             Ready(m, o, x.pairs[o.symbol], r.left, r.rest, Others(x, o))
    requires x'.accts == m && x'.pairs == x.pairs
    requires x'.books == x.books[o.symbol := Add(x.books[o.symbol], o, x.lastId, ts).book]
    ensures Sound(x')
  {
    hide Match, Add, Locked, WellFormed, SupplyFits, Required, Midway, Get;
    var pair, b := x.pairs[o.symbol], x.books[o.symbol];
    assert SoundBook(x.accts, b, pair);
    forall u, a ensures Get(m, u, a).frozen == Required(x', u, a) {
      FrozenAfterSettlement(x, o, ts, m, x', u, a);
    }
    BookStaysSound(x.accts, m, b, pair, o, x.lastId, ts);
    forall s | s in x'.books ensures SoundBook(m, x'.books[s], x'.pairs[s]) {
      assert s != o.symbol ==> SoundBook(x.accts, x.books[s], x.pairs[s]);
    }
  }

  lemma FrozenAfterSettlement(x: Exchange, o: Order, ts: nat, m: Accounts, x': Exchange, u: UserId, a: AssetId)
    requires SoundBooks(x) && o.symbol in x.books && o.id !in x.books[o.symbol].active
    requires var r := MatchIn(x.books[o.symbol], o);
             Midway(m, o, x.pairs[o.symbol], r.left, r.rest, Others(x, o))
    requires x'.accts == m && x'.pairs == x.pairs
    requires x'.books == x.books[o.symbol := Add(x.books[o.symbol], o, x.lastId, ts).book]
    ensures Get(m, u, a).frozen == Required(x', u, a)
  {
    assert Add(x.books[o.symbol], o, x.lastId, ts).Added?;
    hide Match, Add, Locked, WellFormed, Required, Get;
    var pair, b := x.pairs[o.symbol], x.books[o.symbol];
    var b' := Add(b, o, x.lastId, ts).book;
    assert SoundBook(x.accts, b, pair);
    RequiredOfNewBook(x, o.symbol, b', m, u, a);
    RequiredSame(x', x.(books := x.books[o.symbol := b'], accts := m), u, a);
    BookLockAfterAdd(b, o, x.lastId, ts, pair, u, a);
  }

  /** The branches of placing an order on a registered symbol. */
  lemma PlaceBranches(x: Exchange, o: Order, ts: nat)
    requires o.symbol in x.pairs && o.symbol in x.books
    ensures var pair, b := x.pairs[o.symbol], x.books[o.symbol];
            var locked := DoTouch(x.accts, Touch(o.user, LockAsset(pair, o.side), BalOp.Lock(LockAmount(o))));
            var r := Add(b, o, x.lastId, ts);
            && (r.Duplicate? <==> o.id in b.active)
            && (locked.Failed? ==> Place(x, o, ts) == NotAccepted(x.(accts := locked.accts)))
            && (locked.Done? && r.Duplicate? ==> Place(x, o, ts) == DuplicateOrder)
            && (locked.Done? && r.Added? ==>
                  Place(x, o, ts) == SettleTrades(x, o, pair, locked.accts, r.book, r.trades, r.lastId))
  {
    hide DoTouch, LockAmount, AfterMatch, TradesOf, MatchIn, LastIdAfter, SettleTrades, Get;
  }

  lemma PlaceUnregistered(x: Exchange, o: Order, ts: nat)
    requires o.symbol !in x.pairs
    ensures Place(x, o, ts) == NotAccepted(x)
  {
  }

  lemma StepOfPlace(x: Exchange, o: Order, ts: nat)
    ensures DoStep(x, PlaceStep(o, ts)) ==
            match Place(x, o, ts)
            case Placed(x', _) => x'
            case NotAccepted(x') => x'
            case _ => x
  {
    hide Place;
  }

  lemma SoundParts(x: Exchange)
    requires Sound(x)
    ensures SupplyFits(x.accts) && x.books.Keys == x.pairs.Keys
  {
  }

  /** Placing any order from a sound state: it is accepted exactly when its symbol is registered,
      its user has the funds and its id is new; then its whole match settles. It never fails half
      way, never panics, and the state stays sound. A declined order moves no balance and nothing else. */
  lemma PlaceKeepsSound(x: Exchange, o: Order, ts: nat)
    requires Sound(x) && LockAmount(o) <= U64_MAX
    ensures Sound(DoStep(x, PlaceStep(o, ts)))
    ensures !Place(x, o, ts).BatchFailed? && !Place(x, o, ts).Crashed?
    ensures Place(x, o, ts).Placed? <==>
            && o.symbol in x.books
            && Get(x.accts, o.user, LockAsset(x.pairs[o.symbol], o.side)).avail >= LockAmount(o)
            && o.id !in x.books[o.symbol].active
    ensures Place(x, o, ts).NotAccepted? ==>
              var y := Place(x, o, ts).x;
              y == x.(accts := y.accts) && forall u, a :: Get(y.accts, u, a) == Get(x.accts, u, a)
  {
    hide *;
    SoundParts(x);
    StepOfPlace(x, o, ts);
    if o.symbol in x.pairs {
      var asset := LockAsset(x.pairs[o.symbol], o.side);
      LockOutcome(x.accts, o.user, asset, LockAmount(o));
      PlaceBranches(x, o, ts);
      var locked := DoTouch(x.accts, Touch(o.user, asset, BalOp.Lock(LockAmount(o))));
      if locked.Failed? {
        SoundAfter(x, locked.accts);
      } else if o.id !in x.books[o.symbol].active {
        AcceptedOrderSettles(x, o, ts, locked.accts);
      }
    } else {
      PlaceUnregistered(x, o, ts);
    }
  }

  lemma AcceptedOrderSettles(x: Exchange, o: Order, ts: nat, m: Accounts)
    requires Sound(x) && o.symbol in x.books && o.id !in x.books[o.symbol].active
    requires SupplyFits(m) && Has(m, o.user, LockAsset(x.pairs[o.symbol], o.side))
    requires forall u, a :: Has(x.accts, u, a) ==> Has(m, u, a)
    requires forall u, a :: Get(m, u, a).frozen == Get(x.accts, u, a).frozen +
               if u == o.user && a == LockAsset(x.pairs[o.symbol], o.side) then LockAmount(o) else 0
    ensures var pair, r := x.pairs[o.symbol], Add(x.books[o.symbol], o, x.lastId, ts);
            var p := SettleTrades(x, o, pair, m, r.book, r.trades, r.lastId);
            p.Placed? && Sound(p.x)
  {
    hide *;
    SoundParts(x);
    var pair, b := x.pairs[o.symbol], x.books[o.symbol];
    var makers := Half(b, Opposite(o.side));
    LockedOrderIsReady(x, o, m);
    FillsSettle(m, o, pair, o.quantity, makers, Others(x, o));
    var fills := Match(o.side, o.price, o.quantity, makers).fills;
    BatchIsFills(m, m, NO_OVERLAY, o, pair, fills, b.matchSeq, x.lastId, ts, x.outputSeq);
    SettledTrades(x, o, ts, m);
    var a := Add(b, o, x.lastId, ts);
    var p := SettleTrades(x, o, pair, m, a.book, a.trades, a.lastId);
    MatchInIs(b, o);
    SettledOrderIsSound(x, o, ts, p.x.accts, p.x);
  }

  lemma MatchInIs(b: Book, o: Order)
    ensures MatchIn(b, o) == Match(o.side, o.price, o.quantity, Half(b, Opposite(o.side)))
  {
  }

  /** What an accepted order leaves behind once its fills settle. */
  lemma SettledTrades(x: Exchange, o: Order, ts: nat, m: Accounts)
    requires o.symbol in x.books && o.symbol in x.pairs && o.id !in x.books[o.symbol].active
    requires var pair, b := x.pairs[o.symbol], x.books[o.symbol];
             var fills := Match(o.side, o.price, o.quantity, Half(b, Opposite(o.side))).fills;
             && ApplyFills(m, o, pair, fills).Done?
             && ApplyExecs(m, BuildBatch(m, NO_OVERLAY, o, pair,
                                         TradesOf(o, fills, b.matchSeq, x.lastId, ts), x.outputSeq)) ==
                ApplyFills(m, o, pair, fills)
    ensures var pair, b := x.pairs[o.symbol], x.books[o.symbol];
            var fills := Match(o.side, o.price, o.quantity, Half(b, Opposite(o.side))).fills;
            var a := Add(b, o, x.lastId, ts);
            && a.Added?
            && var p := SettleTrades(x, o, pair, m, a.book, a.trades, a.lastId);
               && p.Placed? && p.x.accts == ApplyFills(m, o, pair, fills).accts
               && p.x.pairs == x.pairs && p.x.books == x.books[o.symbol := a.book]
  {
    hide Match, ApplyFills, ApplyExecs, BuildBatch, TradesOf, AfterMatch, LastIdAfter;
  }

  // ----- Cancelling an order -----

  /** What the book needs after a cancellation: less by exactly the cancelled order. */
  lemma BookLockAfterRemove(b: Book, id: nat, pair: Pair, u: UserId, a: AssetId)
    requires WellFormed(b) && pair.0 != pair.1
    ensures var r := Remove(b, id);
            BookLock(b, pair, u, a) == BookLock(r.book, pair, u, a) +
              match r.order
              case None => 0
              case Some(o) => if u == o.user && a == LockAsset(pair, o.side) then LockAmount(o) else 0
  {
    var r := Remove(b, id);
    if r.order.Some? {
      var (side, price) := b.index[id];
      var i := Find(Half(b, side), id, price);
      LockedRemove(Half(b, side), i, u);
      SidesHaveTheirSide(b, side);
    }
  }

  lemma SidesHaveTheirSide(b: Book, side: Side)
    requires WellFormed(b)
    ensures forall i :: 0 <= i < |Half(b, side)| ==> Half(b, side)[i].side == side
  {
  }

  lemma RemovedBookIsSound(m: Accounts, m': Accounts, b: Book, id: nat, pair: Pair)
    requires SoundBook(m, b, pair) && forall u, a :: Has(m, u, a) ==> Has(m', u, a)
    ensures SoundBook(m', Remove(b, id).book, pair)
  {
    hide WellFormed;
    RemoveKeepsWellFormed(b, id);
    if id in b.index {
      var (side, price) := b.index[id];
      var i := Find(Half(b, side), id, price);
      if i < |Half(b, side)| {
        var t := RemoveAt(Half(b, side), i);
        assert forall j :: 0 <= j < |t| ==> t[j] == Half(b, side)[if j < i then j else j + 1];
      }
    }
  }

  /** Cancelling succeeds exactly for an order that rests in the book, its funds come back in full
      to its owner, nobody else's balance moves, and the state stays sound. */
  lemma CancelKeepsSound(x: Exchange, symbol: SymbolId, id: nat)
    requires Sound(x)
    ensures Sound(Cancel(x, symbol, id).x)
    ensures Cancel(x, symbol, id).CancelDone? <==>
            symbol in x.books && exists o :: RestsIn(x.books[symbol], o) && o.id == id
    ensures Cancel(x, symbol, id).CancelDone? ==>
              var o := Cancel(x, symbol, id).order;
              var x' := Cancel(x, symbol, id).x;
              && RestsIn(x.books[symbol], o) && o.id == id
              && forall u, a :: Get(x'.accts, u, a).avail == Get(x.accts, u, a).avail +
                   if u == o.user && a == LockAsset(x.pairs[symbol], o.side) then LockAmount(o) else 0
    ensures Cancel(x, symbol, id).CancelFailed? ==> Cancel(x, symbol, id).x.accts == x.accts
  {
    hide *;
    SoundParts(x);
    CancelBranches(x, symbol, id);
    if symbol in x.books {
      SoundHasBook(x, symbol);
      RemoveIffResting(x.books[symbol], id);
      var r := Remove(x.books[symbol], id);
      if r.order.None? {
        BookReplaced(x, symbol, id, x.accts);
      } else {
        var o := r.order.value;
        UnlockSucceeds(x, symbol, id, o);
        var t := Touch(o.user, LockAsset(x.pairs[symbol], o.side), BalOp.Unlock(LockAmount(o)));
        BookReplaced(x, symbol, id, DoTouch(x.accts, t).accts);
      }
    }
  }

  /** The balance and version that the emitted Unlock announces are not those after it: the balance is
      wrong for every order whose funds are not zero, and the version right only for a version counter
      that stood at zero. */
  lemma EmittedUnlockPredictsNothing(x: Exchange, symbol: SymbolId, id: nat)
    requires Sound(x) && Cancel(x, symbol, id).CancelDone?
    ensures var r := Cancel(x, symbol, id);
            var c := UnlockCommand(x.pairs[symbol], r.order);
            var was, bal := Get(x.accts, c.user, c.asset), Get(r.x.accts, c.user, c.asset);
            && (c.balanceAfter == bal.avail <==> c.amount == 0 && was.avail == U64_MAX)
            && (c.version == bal.version <==> was.version % TWO_64 == 0)
  {
    hide Sound, Remove, DoTouch, LockAmount, LockAsset, Get, Has, Required;
    CancelKeepsSound(x, symbol, id);
    var r := Cancel(x, symbol, id);
    var c := UnlockCommand(x.pairs[symbol], r.order);
    SoundParts(r.x);
    HoldingWithinSupply(r.x.accts, c.user, c.asset);
    TouchReads(x.accts, Touch(c.user, c.asset, BalOp.Unlock(c.amount)));
    OpEffect(Get(x.accts, c.user, c.asset), BalOp.Unlock(c.amount));
  }

  lemma SoundHasBook(x: Exchange, symbol: SymbolId)
    requires Sound(x) && symbol in x.books
    ensures WellFormed(x.books[symbol])
  {
    assert SoundBook(x.accts, x.books[symbol], x.pairs[symbol]);
  }

  /** The branches of a cancellation when every book has its assets. */
  lemma CancelBranches(x: Exchange, symbol: SymbolId, id: nat)
    requires x.books.Keys == x.pairs.Keys
    ensures symbol !in x.books ==> Cancel(x, symbol, id) == CancelFailed(x)
    ensures symbol in x.books ==>
              var r := Remove(x.books[symbol], id);
              var x' := x.(books := x.books[symbol := r.book]);
              && (r.order.None? ==> Cancel(x, symbol, id) == CancelFailed(x'))
              && (r.order.Some? ==>
                    var o := r.order.value;
                    var asset := LockAsset(x.pairs[symbol], o.side);
                    var tx := DoTouch(x.accts, Touch(o.user, asset, BalOp.Unlock(LockAmount(o))));
                    tx.Done? ==> Cancel(x, symbol, id) == CancelDone(x'.(accts := tx.accts), o))
  {
    hide DoTouch, LockAmount, Remove, Get;
  }

  lemma UnlockSucceeds(x: Exchange, symbol: SymbolId, id: nat, o: Order)
    requires Sound(x) && symbol in x.books && Remove(x.books[symbol], id).order == Some(o)
    ensures var asset := LockAsset(x.pairs[symbol], o.side);
            var t := Touch(o.user, asset, BalOp.Unlock(LockAmount(o)));
            var r := DoTouch(x.accts, t);
            && r.Done? && SupplyFits(r.accts)
            && (forall u, a :: Get(r.accts, u, a).frozen == Get(x.accts, u, a).frozen -
                  if u == o.user && a == asset then LockAmount(o) else 0)
            && (forall u, a :: Get(r.accts, u, a).avail == Get(x.accts, u, a).avail +
                  if u == o.user && a == asset then LockAmount(o) else 0)
            && (forall u, a :: Has(x.accts, u, a) ==> Has(r.accts, u, a))
  {
    hide WellFormed, Locked, Remove, EntriesFor;
    var b, pair := x.books[symbol], x.pairs[symbol];
    assert SoundBook(x.accts, b, pair);
    var asset := LockAsset(pair, o.side);
    var t := Touch(o.user, asset, BalOp.Unlock(LockAmount(o)));
    BookLockAfterRemove(b, id, pair, o.user, asset);
    RequiredAtLeast(x, symbol, o.user, asset);
    HoldingWithinSupply(x.accts, o.user, asset);
    TouchReads(x.accts, t);
    forall a ensures Supply(DoTouch(x.accts, t).accts, a) <= U64_MAX {
      SupplyOfTouch(x.accts, t, a);
    }
  }

  lemma BookReplaced(x: Exchange, symbol: SymbolId, id: nat, m: Accounts)
    requires Sound(x) && symbol in x.books && SupplyFits(m)
    requires forall u, a :: Has(x.accts, u, a) ==> Has(m, u, a)
    requires var r := Remove(x.books[symbol], id);
             forall u, a :: Get(m, u, a).frozen == Get(x.accts, u, a).frozen -
               match r.order
               case None => 0
               case Some(o) => if u == o.user && a == LockAsset(x.pairs[symbol], o.side) then LockAmount(o) else 0
    ensures Sound(x.(books := x.books[symbol := Remove(x.books[symbol], id).book], accts := m))
  {
    hide Required, SupplyFits, WellFormed, Locked, Remove;
    var b, pair := x.books[symbol], x.pairs[symbol];
    var b' := Remove(b, id).book;
    var x' := x.(books := x.books[symbol := b'], accts := m);
    assert SoundBook(x.accts, b, pair);
    forall u, a ensures Get(m, u, a).frozen == Required(x', u, a) {
      RequiredOfNewBook(x, symbol, b', m, u, a);
      BookLockAfterRemove(b, id, pair, u, a);
    }
    RemovedBookIsSound(x.accts, m, b, id, pair);
    forall s | s in x'.books ensures SoundBook(m, x'.books[s], x'.pairs[s]) {
      assert s != symbol ==> SoundBook(x.accts, x.books[s], x.pairs[s]);
    }
  }

  // ----- Every run -----

  /** The bounds a caller keeps: a deposit fits the asset's 64-bit supply, the product of an order's
      price and quantity fits 64 bits, and a symbol trades two different assets. */
  ghost predicate Admissible(x: Exchange, s: Step) {
    match s
    case DepositStep(_, a, n) => Supply(x.accts, a) + n <= U64_MAX
    case WithdrawStep(_, _, _) => true
    case RegisterStep(_, pair) => pair.0 != pair.1
    case PlaceStep(o, _) => LockAmount(o) <= U64_MAX
    case CancelStep(_, _) => true
  }

  ghost predicate AllAdmissible(x: Exchange, steps: seq<Step>)
    decreases |steps|
  {
    steps == [] || (Admissible(x, steps[0]) && AllAdmissible(DoStep(x, steps[0]), steps[1..]))
  }

  lemma StepKeepsSound(x: Exchange, s: Step)
    requires Sound(x) && Admissible(x, s)
    ensures Sound(DoStep(x, s))
  {
    match s
    case DepositStep(u, a, n) => DepositKeepsSound(x, u, a, n);
    case WithdrawStep(u, a, n) => WithdrawKeepsSound(x, u, a, n);
    case RegisterStep(symbol, pair) => RegisterKeepsSound(x, symbol, pair);
    case PlaceStep(o, ts) => PlaceKeepsSound(x, o, ts);
    case CancelStep(symbol, id) => CancelKeepsSound(x, symbol, id);
  }

  lemma EmptyIsSound()
    ensures Sound(EMPTY_EXCHANGE)
  {
    forall u, a ensures Get(EMPTY_EXCHANGE.accts, u, a).frozen == Required(EMPTY_EXCHANGE, u, a) {}
  }

  lemma {:induction false} RunKeepsSound(x: Exchange, steps: seq<Step>)
    requires Sound(x) && AllAdmissible(x, steps)
    ensures Sound(DoSteps(x, steps))
    decreases |steps|
  {
    hide Sound;
    if steps != [] {
      StepKeepsSound(x, steps[0]);
      RunKeepsSound(DoStep(x, steps[0]), steps[1..]);
    }
  }

  /** In every state reached from the empty exchange: each user's frozen quote and base are exactly
      what the user's resting bids and asks need over all books, every book is well formed, and every
      asset's supply fits 64 bits. */
  lemma EveryRunIsCollateralised(steps: seq<Step>)
    requires AllAdmissible(EMPTY_EXCHANGE, steps)
    ensures Sound(DoSteps(EMPTY_EXCHANGE, steps))
  {
    EmptyIsSound();
    RunKeepsSound(EMPTY_EXCHANGE, steps);
  }
}
