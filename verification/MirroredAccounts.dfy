/** Accounts that agree in every balance and differ at most in entries that hold nothing. */
module MirroredAccounts {
  import opened Sums
  import opened LedgerSpec
  import opened LedgerLaws

  /** `y` has every balance of `m`, and no entry that `m` lacks. */
  ghost predicate Mirrors(y: Accounts, m: Accounts) {
    && (forall u, a :: Get(y, u, a) == Get(m, u, a))
    && (forall u, a :: Has(y, u, a) ==> Has(m, u, a))
  }

  lemma MirrorsItself(m: Accounts)
    ensures Mirrors(m, m)
  {
  }

  // ----- Steps on mirrored accounts -----

  lemma MirrorTouch(y: Accounts, m: Accounts, t: Touch)
    requires Mirrors(y, m)
    ensures DoTouch(y, t).Done? == DoTouch(m, t).Done?
    ensures !DoTouch(y, t).Panicked? && !DoTouch(m, t).Panicked?
    ensures Mirrors(DoTouch(y, t).accts, DoTouch(m, t).accts)
  {
    TouchReads(y, t);
    TouchReads(m, t);
    SameStatus(y, m, t);
    hide Get, Has, DoTouch;
  }

  lemma SameStatus(y: Accounts, m: Accounts, t: Touch)
    requires Get(y, t.user, t.asset) == Get(m, t.user, t.asset)
    ensures DoTouch(y, t).Done? == DoTouch(m, t).Done?
  {
  }

  lemma {:induction false} MirrorTouches(y: Accounts, m: Accounts, ts: seq<Touch>)
    requires Mirrors(y, m)
    ensures RunTouches(y, ts).Done? == RunTouches(m, ts).Done?
    ensures RunTouches(y, ts).Done? ==> Mirrors(RunTouches(y, ts).accts, RunTouches(m, ts).accts)
    decreases |ts|
  {
    hide Mirrors, DoTouch;
    if ts != [] {
      MirrorTouch(y, m, ts[0]);
      if DoTouch(y, ts[0]).Done? {
        MirrorTouches(DoTouch(y, ts[0]).accts, DoTouch(m, ts[0]).accts, ts[1..]);
      }
    }
  }

  lemma MirrorMatchExec(y: Accounts, m: Accounts, s: Settlement)
    requires Mirrors(y, m) && ApplyMatchExec(y, s).Done? && ApplyMatchExec(m, s).Done?
    ensures Mirrors(ApplyMatchExec(y, s).accts, ApplyMatchExec(m, s).accts)
  {
    hide Mirrors, RunTouches, PassesChecks;
    MirrorTouches(y, m, BuyerTouches(s));
    MirrorTouches(RunTouches(y, BuyerTouches(s)).accts, RunTouches(m, BuyerTouches(s)).accts, SellerTouches(s));
  }

  lemma {:induction false} MirrorExecs(y: Accounts, m: Accounts, batch: seq<ExecData>)
    requires Mirrors(y, m) && ApplyExecs(y, batch).Done? && ApplyExecs(m, batch).Done?
    ensures Mirrors(ApplyExecs(y, batch).accts, ApplyExecs(m, batch).accts)
    decreases |batch|
  {
    hide Mirrors, ApplyMatchExec;
    if batch != [] {
      var s := batch[0].deal;
      MirrorMatchExec(y, m, s);
      MirrorExecs(ApplyMatchExec(y, s).accts, ApplyMatchExec(m, s).accts, batch[1..]);
    }
  }

  lemma SupplyOver(m: Accounts, users: set<UserId>, a: AssetId)
    requires m.Keys <= users
    ensures Sum(users, Holdings(m, a)) == Supply(m, a)
    decreases users
  {
    if users != m.Keys {
      var u :| u in users && u !in m.Keys;
      SumPick(users, Holdings(m, a), u);
      SupplyOver(m, users - {u}, a);
    }
  }

  lemma MirroredSupply(y: Accounts, m: Accounts, a: AssetId)
    requires Mirrors(y, m)
    ensures Supply(y, a) == Supply(m, a)
  {
    var users := y.Keys + m.Keys;
    SupplyOver(y, users, a);
    SupplyOver(m, users, a);
    SumSame(users, Holdings(y, a), Holdings(m, a));
  }
}
