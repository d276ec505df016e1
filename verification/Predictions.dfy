/** The versions and balances written into a match batch are the ledger's own, although they are
    computed before the ledger sees the batch (`temp_versions`, `temp_balances`). */
module Predictions {
  import opened Numbers
  import opened Balances
  import opened LedgerSpec
  import opened LedgerLaws
  import opened BookSpec
  import opened ExchangeSpec
  import opened Collateral

  // ----- The ledger between the touches of one trade -----

  /** The accounts right after each touch of one settlement, in settlement order. */
  datatype Moments = Moments(start: Accounts, spentQuote: Accounts, gotBase: Accounts, refunded: Accounts,
                             spentBase: Accounts, gotQuote: Accounts)

  ghost function MomentsOf(m: Accounts, s: Settlement): Moments {
    var m1 := After(m, Touch(s.buyer, s.quote, SpendFrozen(s.Cost())));
    var m2 := After(m1, Touch(s.buyer, s.base, BalOp.Deposit(s.quantity)));
    var m3 := if s.buyerRefund > 0 then After(m2, Touch(s.buyer, s.quote, BalOp.Unlock(s.buyerRefund))) else m2;
    var m4 := After(m3, Touch(s.seller, s.base, SpendFrozen(s.quantity)));
    var m5 := After(m4, Touch(s.seller, s.quote, BalOp.Deposit(s.Cost())));
    Moments(m, m1, m2, m3, m4, m5)
  }

  ghost function After(m: Accounts, t: Touch): Accounts {
    DoTouch(m, t).accts
  }

  ghost predicate Succeeds(m: Accounts, t: Touch) {
    DoTouch(m, t).Done?
  }

  lemma RunIsMoments(m: Accounts, s: Settlement)
    requires s.sellerRefund == 0 && ApplyMatchExec(m, s).Done?
    ensures var ms := MomentsOf(m, s);
            && Succeeds(m, Touch(s.buyer, s.quote, SpendFrozen(s.Cost())))
            && Succeeds(ms.spentQuote, Touch(s.buyer, s.base, BalOp.Deposit(s.quantity)))
            && (s.buyerRefund > 0 ==> Succeeds(ms.gotBase, Touch(s.buyer, s.quote, BalOp.Unlock(s.buyerRefund))))
            && Succeeds(ms.refunded, Touch(s.seller, s.base, SpendFrozen(s.quantity)))
            && Succeeds(ms.spentBase, Touch(s.seller, s.quote, BalOp.Deposit(s.Cost())))
            && ms.gotQuote == ApplyMatchExec(m, s).accts
  {
    var t1, t2 := Touch(s.buyer, s.quote, SpendFrozen(s.Cost())), Touch(s.buyer, s.base, BalOp.Deposit(s.quantity));
    var t3 := Touch(s.buyer, s.quote, BalOp.Unlock(s.buyerRefund));
    var t4, t5 := Touch(s.seller, s.base, SpendFrozen(s.quantity)), Touch(s.seller, s.quote, BalOp.Deposit(s.Cost()));
    hide DoTouch;
    RunCons(m, t1, [t2] + if s.buyerRefund > 0 then [t3] else []);
    var m1 := After(m, t1);
    RunCons(m1, t2, if s.buyerRefund > 0 then [t3] else []);
    var m2 := After(m1, t2);
    RunCons(m2, t3, []);
    assert [t1] + ([t2] + if s.buyerRefund > 0 then [t3] else []) == BuyerTouches(s);
    assert [t3] + [] == [t3];
    var m3 := RunTouches(m, BuyerTouches(s)).accts;
    RunCons(m3, t4, [t5]);
    RunCons(After(m3, t4), t5, []);
    assert [t4] + [t5] == SellerTouches(s) && [t5] + [] == [t5];
  }

  // ----- What is predicted -----

  ghost function Version(m: Accounts, k: Key): nat {
    Get(m, k.0, k.1).version
  }

  ghost function Avail(m: Accounts, k: Key): nat {
    Get(m, k.0, k.1).avail
  }

  /** The four versions are those of the ledger just before each touch. */
  ghost predicate VersionsRight(m: Accounts, d: ExecData) {
    var s := d.deal;
    var ms := MomentsOf(m, s);
    && d.buyerQuoteVersion == Version(ms.start, (s.buyer, s.quote))
    && d.buyerBaseVersion == Version(ms.spentQuote, (s.buyer, s.base))
    && d.sellerBaseVersion == Version(ms.refunded, (s.seller, s.base))
    && d.sellerQuoteVersion == Version(ms.spentBase, (s.seller, s.quote))
  }

  /** The four balances are the available ones just after each touch. */
  ghost predicate BalancesRight(m: Accounts, d: ExecData) {
    var s := d.deal;
    var ms := MomentsOf(m, s);
    && d.buyerQuoteAfter == Avail(ms.refunded, (s.buyer, s.quote))
    && d.buyerBaseAfter == Avail(ms.gotBase, (s.buyer, s.base))
    && d.sellerBaseAfter == Avail(ms.spentBase, (s.seller, s.base))
    && d.sellerQuoteAfter == Avail(ms.gotQuote, (s.seller, s.quote))
  }

  /** The overlay over the ledger `m` shows the versions (the balances) of the later ledger `now`. */
  ghost predicate TracksVersions(ov: Overlay, m: Accounts, now: Accounts) {
    forall k: Key :: VersionIn(ov, m, k) == Version(now, k)
  }

  ghost predicate TracksAvails(ov: Overlay, m: Accounts, now: Accounts) {
    forall k: Key :: AvailIn(ov, m, k) == Avail(now, k)
  }

  /** A successful touch counts one version on its own key and moves its own available balance. */
  lemma TouchMoves(m: Accounts, t: Touch, k: Key)
    requires Succeeds(m, t)
    ensures Version(After(m, t), k) == if k == (t.user, t.asset) then WrapAdd(Version(m, k), 1) else Version(m, k)
    ensures Avail(After(m, t), k) == Avail(m, k) +
              if k != (t.user, t.asset) then 0
              else match t.op
                   case Deposit(n) => n
                   case Unlock(n) => n
                   case Withdraw(n) => 0 as int - n
                   case Lock(n) => 0 as int - n
                   case SpendFrozen(_) => 0
                   case RefundFrozen(_, r) => r
  {
    TouchReads(m, t);
  }

  lemma VersionsOfMoments(m: Accounts, s: Settlement, k: Key)
    requires s.base != s.quote && s.sellerRefund == 0 && ApplyMatchExec(m, s).Done?
    ensures var ms := MomentsOf(m, s);
            var bq, bb, sb, sq := (s.buyer, s.quote), (s.buyer, s.base), (s.seller, s.base), (s.seller, s.quote);
            var v1 := if k == bq then WrapAdd(Version(m, k), if s.buyerRefund > 0 then 2 else 1) else Version(m, k);
            var v2 := if k == bb then WrapAdd(v1, 1) else v1;
            var v3 := if k == sb then WrapAdd(v2, 1) else v2;
            && (k == bb ==> Version(ms.spentQuote, k) == v1)
            && Version(ms.refunded, k) == v2
            && Version(ms.spentBase, k) == v3
            && Version(ms.gotQuote, k) == if k == sq then WrapAdd(v3, 1) else v3
  {
    RunIsMoments(m, s);
    hide ApplyMatchExec, DoTouch, Version, Avail, WrapAdd, Get;
    var ms := MomentsOf(m, s);
    TouchMoves(m, Touch(s.buyer, s.quote, SpendFrozen(s.Cost())), k);
    TouchMoves(ms.spentQuote, Touch(s.buyer, s.base, BalOp.Deposit(s.quantity)), k);
    if s.buyerRefund > 0 {
      TouchMoves(ms.gotBase, Touch(s.buyer, s.quote, BalOp.Unlock(s.buyerRefund)), k);
      WrapAddTwice(Version(m, k), 1, 1);
    }
    TouchMoves(ms.refunded, Touch(s.seller, s.base, SpendFrozen(s.quantity)), k);
    TouchMoves(ms.spentBase, Touch(s.seller, s.quote, BalOp.Deposit(s.Cost())), k);
  }

  lemma AvailsOfMoments(m: Accounts, s: Settlement, k: Key)
    requires s.base != s.quote && s.sellerRefund == 0 && ApplyMatchExec(m, s).Done?
    ensures var ms := MomentsOf(m, s);
            var bq, bb, sb, sq := (s.buyer, s.quote), (s.buyer, s.base), (s.seller, s.base), (s.seller, s.quote);
            var a1 := if k == bq then Avail(m, k) + s.buyerRefund else Avail(m, k);
            var a2 := if k == bb then a1 + s.quantity else a1;
            && (k == bb ==> Avail(ms.gotBase, k) == a2)
            && Avail(ms.refunded, k) == a2
            && Avail(ms.spentBase, k) == a2
            && Avail(ms.gotQuote, k) == if k == sq then a2 + s.Cost() else a2
  {
    RunIsMoments(m, s);
    hide ApplyMatchExec, DoTouch, Version, Avail, WrapAdd, Get;
    var ms := MomentsOf(m, s);
    TouchMoves(m, Touch(s.buyer, s.quote, SpendFrozen(s.Cost())), k);
    TouchMoves(ms.spentQuote, Touch(s.buyer, s.base, BalOp.Deposit(s.quantity)), k);
    if s.buyerRefund > 0 {
      TouchMoves(ms.gotBase, Touch(s.buyer, s.quote, BalOp.Unlock(s.buyerRefund)), k);
    }
    TouchMoves(ms.refunded, Touch(s.seller, s.base, SpendFrozen(s.quantity)), k);
    TouchMoves(ms.spentBase, Touch(s.seller, s.quote, BalOp.Deposit(s.Cost())), k);
  }

  // ----- One turn of the loop -----

  lemma AddVersionReads(ov: Overlay, m: Accounts, k: Key, inc: nat, j: Key)
    ensures VersionIn(AddVersion(ov, m, k, inc), m, j) ==
            if j == k then WrapAdd(VersionIn(ov, m, j), inc) else VersionIn(ov, m, j)
    ensures AvailIn(AddVersion(ov, m, k, inc), m, j) == AvailIn(ov, m, j)
  {
  }

  lemma AddAvailReads(ov: Overlay, m: Accounts, k: Key, delta: int, j: Key)
    ensures AvailIn(AddAvail(ov, m, k, delta), m, j) ==
            if j == k then ShiftAvail(AvailIn(ov, m, j), delta) else AvailIn(ov, m, j)
    ensures VersionIn(AddAvail(ov, m, k, delta), m, j) == VersionIn(ov, m, j)
  {
  }

  /** The snapshot of a credit is the true balance exactly when the amount fits a signed integer;
      from 2^63 on the cast turns the credit into a debit. */
  lemma SnapshotOfCredit(avail: nat, n: nat)
    requires n <= U64_MAX
    ensures ShiftAvail(avail, AsI64(n)) == avail + n <==> n <= I64_MAX
  {
    WrapsOfWord(n);
  }

  /** What is recorded for any credit: from 2^63 on, 2^64 less than the true balance, and 0 at least. */
  lemma CreditIsRecordedAs(avail: nat, n: nat)
    requires n <= U64_MAX
    ensures var recorded := ShiftAvail(avail, AsI64(n));
            if n <= I64_MAX then recorded == avail + n
            else recorded == (if avail + n >= TWO_64 then avail + n - TWO_64 else 0)
  {
    WrapsOfWord(n);
  }

  /** The amounts of a trade that are cast to a signed integer survive the cast. */
  predicate Castable(s: Settlement) {
    s.Cost() <= I64_MAX && s.buyerRefund <= I64_MAX && s.quantity <= I64_MAX
  }

  predicate CastableTrades(o: Order, pair: Pair, trades: seq<Trade>) {
    forall i :: 0 <= i < |trades| ==> Castable(DealOf(o, pair, trades[i]))
  }

  lemma PredictVersions(m: Accounts, ov: Overlay, o: Order, pair: Pair, t: Trade, outSeq: nat, now: Accounts)
    requires TracksVersions(ov, m, now) && pair.0 != pair.1
    requires ApplyMatchExec(now, DealOf(o, pair, t)).Done?
    ensures var (d, ov') := Predict(m, ov, o, pair, t, outSeq);
            && VersionsRight(now, d)
            && TracksVersions(ov', m, ApplyMatchExec(now, d.deal).accts)
  {
    var s := DealOf(o, pair, t);
    PredictFromChain(m, ov, o, pair, t, outSeq);
    RunIsMoments(now, s);
    StartOfMoments(now, s);
    hide ApplyMatchExec, MomentsOf, ChainOf, Predict, VersionIn, Version, WrapAdd;
    var bb, sb, sq := (t.buyer, pair.0), (t.seller, pair.0), (t.seller, pair.1);
    forall k: Key
      ensures VersionIn(Predict(m, ov, o, pair, t, outSeq).1, m, k) == Version(ApplyMatchExec(now, s).accts, k)
    {
      ChainVersions(m, ov, o, pair, t, k);
      VersionsOfMoments(now, s, k);
    }
    VersionsOfMoments(now, s, bb);
    VersionsOfMoments(now, s, sb);
    VersionsOfMoments(now, s, sq);
    ChainVersions(m, ov, o, pair, t, bb);
    ChainVersions(m, ov, o, pair, t, sb);
    ChainVersions(m, ov, o, pair, t, sq);
  }

  lemma DealFields(o: Order, pair: Pair, t: Trade)
    ensures var s := DealOf(o, pair, t);
            && s.buyer == t.buyer && s.seller == t.seller && s.base == pair.0 && s.quote == pair.1
            && s.price == t.price && s.quantity == t.quantity && s.sellerRefund == 0
  {
  }

  lemma StartOfMoments(m: Accounts, s: Settlement)
    ensures MomentsOf(m, s).start == m
  {
  }

  lemma PredictFromChain(m: Accounts, ov: Overlay, o: Order, pair: Pair, t: Trade, outSeq: nat)
    ensures var c := ChainOf(m, ov, o, pair, t);
            var (d, ov') := Predict(m, ov, o, pair, t, outSeq);
            && ov' == c.ov8 && d.deal == DealOf(o, pair, t)
            && d.buyerQuoteVersion == VersionIn(ov, m, (t.buyer, pair.1))
            && d.buyerBaseVersion == VersionIn(c.ov1, m, (t.buyer, pair.0))
            && d.sellerBaseVersion == VersionIn(c.ov2, m, (t.seller, pair.0))
            && d.sellerQuoteVersion == VersionIn(c.ov3, m, (t.seller, pair.1))
            && d.buyerQuoteAfter == AvailIn(c.ov5, m, (t.buyer, pair.1))
            && d.buyerBaseAfter == AvailIn(c.ov6, m, (t.buyer, pair.0))
            && d.sellerBaseAfter == AvailIn(c.ov7, m, (t.seller, pair.0))
            && d.sellerQuoteAfter == AvailIn(c.ov8, m, (t.seller, pair.1))
  {
    hide VersionIn, AvailIn, AddVersion, AddAvail, AsI64, DealOf, ChainOf;
  }

  /** The overlay's versions at one key, at the four points where they are read. */
  lemma ChainVersions(m: Accounts, ov: Overlay, o: Order, pair: Pair, t: Trade, k: Key)
    ensures var s := DealOf(o, pair, t);
            var c := ChainOf(m, ov, o, pair, t);
            var v1 := if k == (t.buyer, pair.1)
                      then WrapAdd(VersionIn(ov, m, k), if s.buyerRefund > 0 then 2 else 1)
                      else VersionIn(ov, m, k);
            var v2 := if k == (t.buyer, pair.0) then WrapAdd(v1, 1) else v1;
            var v3 := if k == (t.seller, pair.0) then WrapAdd(v2, 1) else v2;
            && VersionIn(c.ov1, m, k) == v1
            && VersionIn(c.ov2, m, k) == v2
            && VersionIn(c.ov3, m, k) == v3
            && VersionIn(c.ov8, m, k) == if k == (t.seller, pair.1) then WrapAdd(v3, 1) else v3
  {
    hide VersionIn, AvailIn, AddVersion, AddAvail, AsI64, WrapAdd;
    var s, c := DealOf(o, pair, t), ChainOf(m, ov, o, pair, t);
    AddVersionReads(ov, m, (t.buyer, pair.1), if s.buyerRefund > 0 then 2 else 1, k);
    AddVersionReads(c.ov1, m, (t.buyer, pair.0), 1, k);
    AddVersionReads(c.ov2, m, (t.seller, pair.0), 1, k);
    AddVersionReads(c.ov3, m, (t.seller, pair.1), 1, k);
    AddAvailReads(c.ov4, m, (t.buyer, pair.1), AsI64(s.buyerRefund), k);
    AddAvailReads(c.ov5, m, (t.buyer, pair.0), AsI64(t.quantity), k);
    AddAvailReads(c.ov6, m, (t.seller, pair.0), 0, k);
    AddAvailReads(c.ov7, m, (t.seller, pair.1), AsI64(t.price * t.quantity), k);
  }

  /** The overlay's balances at one key, at the four points where they are read. */
  lemma ChainAvails(m: Accounts, ov: Overlay, o: Order, pair: Pair, t: Trade, k: Key)
    ensures var s := DealOf(o, pair, t);
            var c := ChainOf(m, ov, o, pair, t);
            var a0 := AvailIn(ov, m, k);
            var a1 := if k == (t.buyer, pair.1) then ShiftAvail(a0, AsI64(s.buyerRefund)) else a0;
            var a2 := if k == (t.buyer, pair.0) then ShiftAvail(a1, AsI64(s.quantity)) else a1;
            && AvailIn(c.ov5, m, k) == a1
            && AvailIn(c.ov6, m, k) == a2
            && AvailIn(c.ov7, m, k) == a2
            && AvailIn(c.ov8, m, k) == if k == (t.seller, pair.1) then ShiftAvail(a2, AsI64(s.Cost())) else a2
  {
    hide VersionIn, AvailIn, AddVersion, AddAvail, AsI64;
    var s, c := DealOf(o, pair, t), ChainOf(m, ov, o, pair, t);
    AddVersionReads(ov, m, (t.buyer, pair.1), if s.buyerRefund > 0 then 2 else 1, k);
    AddVersionReads(c.ov1, m, (t.buyer, pair.0), 1, k);
    AddVersionReads(c.ov2, m, (t.seller, pair.0), 1, k);
    AddVersionReads(c.ov3, m, (t.seller, pair.1), 1, k);
    AddAvailReads(c.ov4, m, (t.buyer, pair.1), AsI64(s.buyerRefund), k);
    AddAvailReads(c.ov5, m, (t.buyer, pair.0), AsI64(t.quantity), k);
    AddAvailReads(c.ov6, m, (t.seller, pair.0), 0, k);
    AddAvailReads(c.ov7, m, (t.seller, pair.1), AsI64(t.price * t.quantity), k);
  }

  /** The amounts of a trade that settles are 64-bit words. */
  lemma SettledAmounts(now: Accounts, s: Settlement)
    requires ApplyMatchExec(now, s).Done?
    ensures s.Cost() <= U64_MAX && s.buyerRefund <= U64_MAX && s.quantity <= U64_MAX
  {
    CheckedOutcome(now, s);
    TouchesAreSides(s);
    hide ApplyMatchExec, RunTouches, SideTouches, BuyerTouches, SellerTouches, Get;
    SettledSide(now, s.buyer, s.quote, s.Cost(), s.base, s.quantity, s.buyerRefund);
  }

  /** Over an overlay that shows the ledger's balances, the four predicted ones are right exactly when
      the trade's amounts are castable. */
  lemma BalancesExact(m: Accounts, ov: Overlay, o: Order, pair: Pair, t: Trade, outSeq: nat, now: Accounts)
    requires TracksAvails(ov, m, now) && pair.0 != pair.1
    requires ApplyMatchExec(now, DealOf(o, pair, t)).Done?
    ensures BalancesRight(now, Predict(m, ov, o, pair, t, outSeq).0) <==> Castable(DealOf(o, pair, t))
  {
    hide ApplyMatchExec, MomentsOf, ChainOf, Predict, AvailIn, Avail, DealOf, AsI64, ShiftAvail;
    PredictFromChain(m, ov, o, pair, t, outSeq);
    DealFields(o, pair, t);
    var s := DealOf(o, pair, t);
    SettledAmounts(now, s);
    var bq, bb, sb, sq := (t.buyer, pair.1), (t.buyer, pair.0), (t.seller, pair.0), (t.seller, pair.1);
    KeyExact(m, ov, o, pair, t, now, bq);
    KeyExact(m, ov, o, pair, t, now, bb);
    KeyExact(m, ov, o, pair, t, now, sb);
    KeyExact(m, ov, o, pair, t, now, sq);
  }

  /** At every point where one of the four balances is read, whether the overlay shows the ledger's. */
  lemma KeyExact(m: Accounts, ov: Overlay, o: Order, pair: Pair, t: Trade, now: Accounts, k: Key)
    requires AvailIn(ov, m, k) == Avail(now, k) && pair.0 != pair.1
    requires ApplyMatchExec(now, DealOf(o, pair, t)).Done?
    ensures var s := DealOf(o, pair, t);
            var c, ms := ChainOf(m, ov, o, pair, t), MomentsOf(now, s);
            && (k == (t.buyer, pair.1) ==>
                  (AvailIn(c.ov5, m, k) == Avail(ms.refunded, k) <==> s.buyerRefund <= I64_MAX))
            && (k == (t.buyer, pair.0) ==>
                  (AvailIn(c.ov6, m, k) == Avail(ms.gotBase, k) <==> s.quantity <= I64_MAX))
            && (Castable(s) ==> AvailIn(c.ov7, m, k) == Avail(ms.spentBase, k))
            && (k == (t.seller, pair.1) && s.buyerRefund <= I64_MAX && s.quantity <= I64_MAX ==>
                  (AvailIn(c.ov8, m, k) == Avail(ms.gotQuote, k) <==> s.Cost() <= I64_MAX))
            && (Castable(s) ==> AvailIn(c.ov8, m, k) == Avail(ms.gotQuote, k))
  {
    hide ApplyMatchExec, MomentsOf, ChainOf, AvailIn, Avail, DealOf, AsI64, ShiftAvail;
    DealFields(o, pair, t);
    var s := DealOf(o, pair, t);
    SettledAmounts(now, s);
    ChainAvails(m, ov, o, pair, t, k);
    AvailsOfMoments(now, s, k);
    var a0 := AvailIn(ov, m, k);
    SnapshotOfCredit(a0, s.buyerRefund);
    SnapshotOfCredit(a0, s.quantity);
    SnapshotOfCredit(a0, s.Cost());
    SnapshotOfCredit(a0 + s.buyerRefund, s.quantity);
    SnapshotOfCredit(a0 + s.buyerRefund, s.Cost());
    SnapshotOfCredit(a0 + s.quantity, s.Cost());
  }

  lemma AvailsStayTracked(m: Accounts, ov: Overlay, o: Order, pair: Pair, t: Trade, outSeq: nat, now: Accounts)
    requires TracksAvails(ov, m, now) && pair.0 != pair.1
    requires ApplyMatchExec(now, DealOf(o, pair, t)).Done? && Castable(DealOf(o, pair, t))
    ensures TracksAvails(Predict(m, ov, o, pair, t, outSeq).1, m, ApplyMatchExec(now, DealOf(o, pair, t)).accts)
  {
    hide ApplyMatchExec, ChainOf, Predict, AvailIn, Avail, DealOf, MomentsOf, Castable;
    PredictFromChain(m, ov, o, pair, t, outSeq);
    DealFields(o, pair, t);
    RunIsMoments(now, DealOf(o, pair, t));
    forall k: Key
      ensures AvailIn(Predict(m, ov, o, pair, t, outSeq).1, m, k) ==
              Avail(ApplyMatchExec(now, DealOf(o, pair, t)).accts, k)
    {
      KeyExact(m, ov, o, pair, t, now, k);
    }
  }

  // ----- The whole batch -----

  /** What holds at every position of a batch that settles from the accounts `now`. */
  ghost predicate Predicted(now: Accounts, batch: seq<ExecData>, balances: bool) {
    forall i :: 0 <= i < |batch| ==>
      && ApplyExecs(now, batch[..i]).Done?
      && VersionsRight(ApplyExecs(now, batch[..i]).accts, batch[i])
      && (balances ==> BalancesRight(ApplyExecs(now, batch[..i]).accts, batch[i]))
  }

  lemma PredictedCons(now: Accounts, d: ExecData, rest: seq<ExecData>, balances: bool)
    requires ApplyMatchExec(now, d.deal).Done?
    ensures Predicted(now, [d] + rest, balances) <==>
            && VersionsRight(now, d) && (balances ==> BalancesRight(now, d))
            && Predicted(ApplyMatchExec(now, d.deal).accts, rest, balances)
  {
    hide VersionsRight, BalancesRight, ApplyMatchExec;
    var batch, next := [d] + rest, ApplyMatchExec(now, d.deal).accts;
    assert batch[..0] == [] && batch[0] == d;
    forall i | 0 <= i < |rest|
      ensures ApplyExecs(now, batch[..i + 1]) == ApplyExecs(next, rest[..i]) && batch[i + 1] == rest[i]
    {
      assert batch[..i + 1][0] == d && batch[..i + 1][1..] == rest[..i];
    }
    if Predicted(now, batch, balances) {
      forall i | 0 <= i < |rest|
        ensures ApplyExecs(next, rest[..i]).Done? && VersionsRight(ApplyExecs(next, rest[..i]).accts, rest[i])
        ensures balances ==> BalancesRight(ApplyExecs(next, rest[..i]).accts, rest[i])
      {
        assert VersionsRight(ApplyExecs(now, batch[..i + 1]).accts, batch[i + 1]);
      }
    }
    if VersionsRight(now, d) && (balances ==> BalancesRight(now, d)) && Predicted(next, rest, balances) {
      forall i | 0 <= i < |batch|
        ensures ApplyExecs(now, batch[..i]).Done? && VersionsRight(ApplyExecs(now, batch[..i]).accts, batch[i])
        ensures balances ==> BalancesRight(ApplyExecs(now, batch[..i]).accts, batch[i])
      {
        if i > 0 {
          var k := i - 1;
          assert batch[..i] == batch[..k + 1];
          assert VersionsRight(ApplyExecs(next, rest[..k]).accts, rest[k]);
        }
      }
    }
  }

  /** The versions of a batch over an overlay that shows the ledger's are always right; its balances
      are right exactly when the amounts of all its trades are castable. */
  lemma {:induction false} BatchIsPredicted(m: Accounts, ov: Overlay, o: Order, pair: Pair, trades: seq<Trade>,
                                            outSeq: nat, now: Accounts)
    requires pair.0 != pair.1 && TracksVersions(ov, m, now)
    requires ApplyExecs(now, BuildBatch(m, ov, o, pair, trades, outSeq)).Done?
    ensures Predicted(now, BuildBatch(m, ov, o, pair, trades, outSeq), false)
    ensures TracksAvails(ov, m, now) ==>
              (Predicted(now, BuildBatch(m, ov, o, pair, trades, outSeq), true) <==> CastableTrades(o, pair, trades))
    decreases |trades|
  {
    hide Predict, TracksVersions, TracksAvails, VersionsRight, BalancesRight, ApplyMatchExec, DealOf, Castable;
    if trades != [] {
      var t, tail := trades[0], trades[1..];
      var (d, ov') := Predict(m, ov, o, pair, t, outSeq + 1);
      var rest := BuildBatch(m, ov', o, pair, tail, outSeq + 1);
      PredictFromChain(m, ov, o, pair, t, outSeq + 1);
      ExecsCons(now, d, rest);
      var next := ApplyMatchExec(now, d.deal).accts;
      PredictVersions(m, ov, o, pair, t, outSeq + 1, now);
      BatchIsPredicted(m, ov', o, pair, tail, outSeq + 1, next);
      hide Predicted;
      PredictedCons(now, d, rest, false);
      PredictedCons(now, d, rest, true);
      assert CastableTrades(o, pair, trades) <==> Castable(DealOf(o, pair, t)) && CastableTrades(o, pair, tail) by {
        assert forall i :: 0 < i < |trades| ==> trades[i] == tail[i - 1];
        assert forall i :: 0 <= i < |tail| ==> tail[i] == trades[i + 1];
      }
      if TracksAvails(ov, m, now) {
        BalancesExact(m, ov, o, pair, t, outSeq + 1, now);
        if Castable(DealOf(o, pair, t)) {
          AvailsStayTracked(m, ov, o, pair, t, outSeq + 1, now);
        }
      }
    }
  }

  /** Element by element, a batch records its trades under consecutive output numbers. */
  lemma {:induction false} BatchRecordsTheTrades(m: Accounts, ov: Overlay, o: Order, pair: Pair, trades: seq<Trade>,
                                                 outSeq: nat, i: nat)
    requires i < |trades|
    ensures var batch := BuildBatch(m, ov, o, pair, trades, outSeq);
            && |batch| == |trades|
            && var d, t := batch[i], trades[i];
               && d.tradeId == t.tradeId && d.buyOrderId == t.buyOrderId && d.sellOrderId == t.sellOrderId
               && d.matchSeq == t.matchSeq && d.outputSequence == outSeq + i + 1
               && d.deal.buyer == t.buyer && d.deal.seller == t.seller
               && d.deal.price == t.price && d.deal.quantity == t.quantity
    decreases i
  {
    hide ChainOf, VersionIn, AvailIn;
    BatchLength(m, ov, o, pair, trades, outSeq);
    if i > 0 {
      var ov' := Predict(m, ov, o, pair, trades[0], outSeq + 1).1;
      BatchRecordsTheTrades(m, ov', o, pair, trades[1..], outSeq + 1, i - 1);
    }
  }

  lemma {:induction false} BatchLength(m: Accounts, ov: Overlay, o: Order, pair: Pair, trades: seq<Trade>, outSeq: nat)
    ensures |BuildBatch(m, ov, o, pair, trades, outSeq)| == |trades|
    decreases |trades|
  {
    hide Predict;
    if trades != [] {
      BatchLength(m, Predict(m, ov, o, pair, trades[0], outSeq + 1).1, o, pair, trades[1..], outSeq + 1);
    }
  }

  lemma ExecsCons(now: Accounts, d: ExecData, rest: seq<ExecData>)
    ensures ApplyExecs(now, [d] + rest) ==
            if ApplyMatchExec(now, d.deal).Done? then ApplyExecs(ApplyMatchExec(now, d.deal).accts, rest)
            else ApplyMatchExec(now, d.deal)
  {
    assert ([d] + rest)[1..] == rest;
  }

  /** What an accepted order's result consists of. */
  lemma PlacedMeans(x: Exchange, o: Order, ts: nat)
    requires Place(x, o, ts).Placed?
    ensures o.symbol in x.pairs && o.symbol in x.books
    ensures var pair := x.pairs[o.symbol];
            var locked := ApplyTx(x.accts, LockCommand(x.accts, pair, o));
            var a := Add(x.books[o.symbol], o, x.lastId, ts);
            && locked.Done? && a.Added?
            && locked == DoTouch(x.accts, Touch(o.user, LockAsset(pair, o.side), BalOp.Lock(LockAmount(o))))
            && Place(x, o, ts).batch == BuildBatch(locked.accts, NO_OVERLAY, o, pair, a.trades, x.outputSeq)
            && ApplyExecs(locked.accts, Place(x, o, ts).batch).Done?
  {
    hide Add, BuildBatch, ApplyExecs, DoTouch;
  }

  lemma BooksTradeTwoAssets(x: Exchange, symbol: SymbolId)
    requires Sound(x) && symbol in x.books
    ensures symbol in x.pairs && x.pairs[symbol].0 != x.pairs[symbol].1
  {
    assert SoundBook(x.accts, x.books[symbol], x.pairs[symbol]);
  }

  /** For every accepted order and every element of its batch, the four versions are those of the
      ledger after the elements before it, with the touches inside the element counted in settlement
      order. The four balances are the available ones right after each touch, throughout the batch, if
      and only if the cost, refund and quantity of every trade fit a signed integer. */
  lemma PlacedBatchPredictsTheLedger(x: Exchange, o: Order, ts: nat)
    requires Sound(x) && Place(x, o, ts).Placed?
    ensures o.symbol in x.pairs && o.symbol in x.books
    ensures var pair := x.pairs[o.symbol];
            var locked, a := ApplyTx(x.accts, LockCommand(x.accts, pair, o)), Add(x.books[o.symbol], o, x.lastId, ts);
            && locked.Done? && a.Added?
            && Predicted(locked.accts, Place(x, o, ts).batch, false)
            && (Predicted(locked.accts, Place(x, o, ts).batch, true) <==> CastableTrades(o, pair, a.trades))
  {
    hide *;
    PlacedMeans(x, o, ts);
    var pair := x.pairs[o.symbol];
    BooksTradeTwoAssets(x, o.symbol);
    var m := ApplyTx(x.accts, LockCommand(x.accts, pair, o)).accts;
    NothingPredictedYet(m);
    BatchIsPredicted(m, NO_OVERLAY, o, pair, Add(x.books[o.symbol], o, x.lastId, ts).trades, x.outputSeq, m);
  }

  lemma NothingPredictedYet(m: Accounts)
    ensures TracksVersions(NO_OVERLAY, m, m) && TracksAvails(NO_OVERLAY, m, m)
  {
  }

  /** The lock itself is predicted too, in any state: its recorded balance is the one after it, also when it
      fails, and its version when it succeeds. */
  lemma LockIsPredicted(x: Exchange, o: Order)
    requires o.symbol in x.pairs
    ensures var c := LockCommand(x.accts, x.pairs[o.symbol], o);
            var r := ApplyTx(x.accts, c);
            && !r.Panicked? && Avail(r.accts, (c.user, c.asset)) == c.balanceAfter
            && (r.Done? ==> Version(r.accts, (c.user, c.asset)) == c.version)
  {
    var c := LockCommand(x.accts, x.pairs[o.symbol], o);
    TouchReads(x.accts, Touch(c.user, c.asset, BalOp.Lock(c.amount)));
  }
}
