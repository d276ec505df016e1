/** Laws of the order book: what a match takes, what every operation keeps, what undoes what. */
module BookLaws {
  import opened Numbers
  import opened BookSpec

  // ----- Quantities -----

  function Depth(s: seq<Order>): nat {
    if s == [] then 0 else s[0].quantity + Depth(s[1..])
  }

  function Taken(fills: seq<Fill>): nat {
    if fills == [] then 0 else fills[0].quantity + Taken(fills[1..])
  }

  /** Quantity resting at prices a taker accepts. */
  function CrossingDepth(side: Side, limit: nat, s: seq<Order>): nat {
    if s == [] then 0 else
    (if Crosses(side, limit, s[0].price) then s[0].quantity else 0) + CrossingDepth(side, limit, s[1..])
  }

  /** Matching conserves quantity on both sides. */
  lemma {:induction false} MatchConserves(side: Side, limit: nat, qty: nat, makers: seq<Order>)
    ensures var r := Match(side, limit, qty, makers);
            && Taken(r.fills) + r.left == qty
            && Depth(r.rest) + Taken(r.fills) == Depth(makers)
    decreases |makers|
  {
    if qty > 0 && makers != [] && Crosses(side, limit, makers[0].price) {
      var m := makers[0];
      var n := Min(qty, m.quantity);
      if n < m.quantity {
        assert [Fill(m, n)][1..] == [];
        assert ([m.(quantity := m.quantity - n)] + makers[1..])[1..] == makers[1..];
      } else {
        MatchConserves(side, limit, qty - n, makers[1..]);
        var r := Match(side, limit, qty - n, makers[1..]);
        assert ([Fill(m, n)] + r.fills)[1..] == r.fills;
      }
    }
  }

  lemma {:induction false} NothingCrosses(side: Side, limit: nat, s: seq<Order>)
    requires Sorted(Opposite(side), s)
    requires s != [] ==> !Crosses(side, limit, s[0].price)
    ensures CrossingDepth(side, limit, s) == 0
    ensures forall i :: 0 <= i < |s| ==> !Crosses(side, limit, s[i].price)
    decreases |s|
  {
    if s != [] {
      if |s| > 1 {
        assert !Better(Opposite(side), s[1].price, s[0].price);
      }
      NothingCrosses(side, limit, s[1..]);
    }
  }

  /** Fills are maximal: exactly the smaller of the order and the opposite depth at crossing prices,
      and when something is left over nothing that crosses remains. */
  lemma {:induction false} MatchIsMaximal(side: Side, limit: nat, qty: nat, makers: seq<Order>)
    requires Sorted(Opposite(side), makers)
    ensures var r := Match(side, limit, qty, makers);
            && Taken(r.fills) == Min(qty, CrossingDepth(side, limit, makers))
            && (r.left > 0 ==> forall i :: 0 <= i < |r.rest| ==> !Crosses(side, limit, r.rest[i].price))
    decreases |makers|
  {
    if qty == 0 {
    } else if makers == [] || !Crosses(side, limit, makers[0].price) {
      NothingCrosses(side, limit, makers);
    } else {
      var m := makers[0];
      var n := Min(qty, m.quantity);
      if n < m.quantity {
        assert [Fill(m, n)][1..] == [];
      } else {
        MatchIsMaximal(side, limit, qty - n, makers[1..]);
        var r := Match(side, limit, qty - n, makers[1..]);
        assert ([Fill(m, n)] + r.fills)[1..] == r.fills;
      }
    }
  }

  /** Price-time priority in closed form, without the recursion of the matcher: the i-th fill is
      against the i-th maker and takes what the order still wants after everything ahead of that
      maker is gone, up to that maker's quantity. */
  ghost predicate ByPriority(side: Side, limit: nat, qty: nat, makers: seq<Order>, fills: seq<Fill>) {
    |fills| <= |makers| &&
    forall i :: 0 <= i < |fills| ==>
      && fills[i].maker == makers[i]
      && Crosses(side, limit, makers[i].price)
      && Depth(makers[..i]) < qty
      && fills[i].quantity == Min(makers[i].quantity, qty - Depth(makers[..i]))
  }

  lemma {:induction false} MatchFollowsPriority(side: Side, limit: nat, qty: nat, makers: seq<Order>)
    ensures ByPriority(side, limit, qty, makers, Match(side, limit, qty, makers).fills)
    decreases |makers|
  {
    if qty > 0 && makers != [] && Crosses(side, limit, makers[0].price) {
      var m := makers[0];
      var n := Min(qty, m.quantity);
      assert makers[..0] == [];
      if n == m.quantity {
        MatchFollowsPriority(side, limit, qty - n, makers[1..]);
        PriorityOfNext(side, limit, qty, makers, Match(side, limit, qty - n, makers[1..]).fills);
      }
    }
  }

  lemma PriorityOfNext(side: Side, limit: nat, qty: nat, makers: seq<Order>, fills: seq<Fill>)
    requires makers != [] && 0 < qty && makers[0].quantity <= qty && Crosses(side, limit, makers[0].price)
    requires ByPriority(side, limit, qty - makers[0].quantity, makers[1..], fills)
    ensures ByPriority(side, limit, qty, makers, [Fill(makers[0], makers[0].quantity)] + fills)
  {
    var all := [Fill(makers[0], makers[0].quantity)] + fills;
    assert makers[..0] == [];
    forall i | 1 <= i < |all|
      ensures all[i] == fills[i - 1] && makers[i] == makers[1..][i - 1]
      ensures Depth(makers[..i]) == makers[0].quantity + Depth(makers[1..][..i - 1])
    {
      assert makers[..i][1..] == makers[1..][..i - 1];
    }
  }

  /** How many makers a list of fills exhausts: all, or all but the last. */
  ghost predicate Suffix(makers: seq<Order>, fills: seq<Fill>, rest: seq<Order>, k: nat) {
    && k <= |makers| && k <= |fills| <= k + 1
    && (forall i :: 0 <= i < k ==> fills[i] == Fill(makers[i], makers[i].quantity))
    && (|fills| == k ==> rest == makers[k..])
    && (|fills| == k + 1 ==>
          && k < |makers| && fills[k].maker == makers[k]
          && 0 < fills[k].quantity < makers[k].quantity
          && rest == [makers[k].(quantity := makers[k].quantity - fills[k].quantity)] + makers[k + 1..])
  }

  /** The orders that stay are the makers behind the fills, the first one possibly reduced. */
  lemma {:induction false} RestIsSuffix(side: Side, limit: nat, qty: nat, makers: seq<Order>) returns (k: nat)
    ensures var r := Match(side, limit, qty, makers);
            && Suffix(makers, r.fills, r.rest, k)
            && (|r.fills| == k + 1 ==> r.left == 0)
            && Exhausted(r.fills) == IdSet(makers[..k])
    decreases |makers|
  {
    k := 0;
    if qty > 0 && makers != [] && Crosses(side, limit, makers[0].price) {
      var m := makers[0];
      var n := Min(qty, m.quantity);
      if n < m.quantity {
        assert [Fill(m, n)][1..] == [];
      } else {
        var j := RestIsSuffix(side, limit, qty - n, makers[1..]);
        k := j + 1;
        hide Suffix, Exhausted, IdSet;
        var r := Match(side, limit, qty - n, makers[1..]);
        SuffixOfNext(makers, r.fills, r.rest, j);
        ExhaustedOfNext(makers, r.fills, j);
      }
    }
  }

  lemma ExhaustedOfNext(makers: seq<Order>, fills: seq<Fill>, j: nat)
    requires makers != [] && j < |makers| && Exhausted(fills) == IdSet(makers[1..][..j])
    ensures Exhausted([Fill(makers[0], makers[0].quantity)] + fills) == IdSet(makers[..j + 1])
  {
    assert ([Fill(makers[0], makers[0].quantity)] + fills)[1..] == fills;
    assert makers[..j + 1][1..] == makers[1..][..j];
  }

  lemma SuffixOfNext(makers: seq<Order>, fills: seq<Fill>, rest: seq<Order>, j: nat)
    requires makers != [] && Suffix(makers[1..], fills, rest, j)
    ensures Suffix(makers, [Fill(makers[0], makers[0].quantity)] + fills, rest, j + 1)
  {
    assert makers[1..][j..] == makers[j + 1..];
    if j < |makers| - 1 {
      assert makers[1..][j + 1..] == makers[j + 2..];
    }
  }

  function IdSet(s: seq<Order>): set<nat> {
    if s == [] then {} else {s[0].id} + IdSet(s[1..])
  }
}
