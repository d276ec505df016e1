/** One balance of one asset: `src/enforced_balance.rs`.

    `ApplyOp` is the specification of the six mutating operations; class `Balance` performs them
    field by field with the early returns of the program. */
module Balances {
  import opened Numbers

  datatype Bal = Bal(avail: nat, frozen: nat, version: nat)

  const ZERO_BAL: Bal := Bal(0, 0, 0)

  datatype BalOp =
    | Deposit(amount: nat)
    | Withdraw(amount: nat)
    | Lock(amount: nat)
    | Unlock(amount: nat)
    | SpendFrozen(amount: nat)
    | RefundFrozen(spend: nat, refund: nat)

  datatype Status = Success | Insufficient | Overflow

  /** The balance an operation leaves behind, also when it returns an error. */
  datatype OpResult = OpResult(bal: Bal, status: Status)

  function Bump(b: Bal): Bal {
    b.(version := WrapAdd(b.version, 1))
  }

  function ApplyOp(b: Bal, op: BalOp): OpResult {
    match op
    case Deposit(n) =>
      if b.avail + n > U64_MAX then OpResult(b, Overflow)
      else OpResult(Bump(b.(avail := b.avail + n)), Success)
    case Withdraw(n) =>
      if b.avail < n then OpResult(b, Insufficient)
      else OpResult(Bump(b.(avail := b.avail - n)), Success)
    case Lock(n) =>
      if b.avail < n then OpResult(b, Insufficient)
      else if b.frozen + n > U64_MAX then OpResult(b.(avail := b.avail - n), Overflow)
      else OpResult(Bump(b.(avail := b.avail - n, frozen := b.frozen + n)), Success)
    case Unlock(n) =>
      if b.frozen < n then OpResult(b, Insufficient)
      else if b.avail + n > U64_MAX then OpResult(b.(frozen := b.frozen - n), Overflow)
      else OpResult(Bump(b.(frozen := b.frozen - n, avail := b.avail + n)), Success)
    case SpendFrozen(n) =>
      if b.frozen < n then OpResult(b, Insufficient)
      else OpResult(Bump(b.(frozen := b.frozen - n)), Success)
    case RefundFrozen(s, r) =>
      if b.frozen < s then OpResult(b, Insufficient)
      else if b.avail + r > U64_MAX then OpResult(b.(frozen := b.frozen - s), Overflow)
      else OpResult(Bump(b.(frozen := b.frozen - s, avail := b.avail + r)), Success)
  }

  /** Change of available plus frozen when the operation succeeds. */
  function NetOf(op: BalOp): int {
    match op
    case Deposit(n) => n
    case Withdraw(n) => 0 as int - n
    case Lock(_) => 0
    case Unlock(_) => 0
    case SpendFrozen(n) => 0 as int - n
    case RefundFrozen(s, r) => r - s
  }

  /** The operations whose second field update can overflow after the first one was stored,
      together with the amount already taken away at that point. */
  predicate LeaksOnError(b: Bal, op: BalOp) {
    match op
    case Lock(n) => 0 < n <= b.avail && b.frozen + n > U64_MAX
    case Unlock(n) => 0 < n <= b.frozen && b.avail + n > U64_MAX
    case RefundFrozen(s, r) => 0 < s <= b.frozen && b.avail + r > U64_MAX
    case _ => false
  }

  /** What every operation keeps: success moves exactly the net amount and counts one version; an
      error leaves the balance untouched exactly when it is not one of the leaking overflows. */
  lemma OpEffect(b: Bal, op: BalOp)
    ensures var r := ApplyOp(b, op);
            && (r.status == Success ==>
                  && r.bal.avail + r.bal.frozen == b.avail + b.frozen + NetOf(op)
                  && r.bal.version == WrapAdd(b.version, 1))
            && (r.status != Success ==> (r.bal == b <==> !LeaksOnError(b, op)))
            && (r.status != Success ==> r.bal.version == b.version)
  {
    match op
    case Deposit(_) =>
    case Withdraw(_) =>
    case Lock(_) =>
    case Unlock(_) =>
    case SpendFrozen(_) =>
    case RefundFrozen(_, _) =>
  }

  /** Exactly when each operation succeeds, and which field it moves. A withdrawal asks for available funds
      and a spending for frozen ones, whatever the other field holds. */
  lemma OpOutcome(b: Bal, op: BalOp)
    ensures var r := ApplyOp(b, op);
            match op
            case Deposit(n) =>
              && (r.status == Success <==> b.avail + n <= U64_MAX) && r.status != Insufficient
              && (r.status == Success ==> r.bal.avail == b.avail + n && r.bal.frozen == b.frozen)
            case Withdraw(n) =>
              && (r.status == Success <==> n <= b.avail) && r.status != Overflow
              && (r.status == Success ==> r.bal.avail == b.avail - n && r.bal.frozen == b.frozen)
            case Lock(n) =>
              && (r.status == Success <==> n <= b.avail && b.frozen + n <= U64_MAX)
              && (r.status == Insufficient <==> n > b.avail)
              && (r.status == Success ==> r.bal.avail == b.avail - n && r.bal.frozen == b.frozen + n)
            case Unlock(n) =>
              && (r.status == Success <==> n <= b.frozen && b.avail + n <= U64_MAX)
              && (r.status == Insufficient <==> n > b.frozen)
              && (r.status == Success ==> r.bal.avail == b.avail + n && r.bal.frozen == b.frozen - n)
            case SpendFrozen(n) =>
              && (r.status == Success <==> n <= b.frozen) && r.status != Overflow
              && (r.status == Success ==> r.bal.avail == b.avail && r.bal.frozen == b.frozen - n)
            case RefundFrozen(s, n) =>
              && (r.status == Success <==> s <= b.frozen && b.avail + n <= U64_MAX)
              && (r.status == Insufficient <==> s > b.frozen)
              && (r.status == Success ==> r.bal.avail == b.avail + n && r.bal.frozen == b.frozen - s)
  {
  }

  /** What a leaking overflow leaves: the first field has moved, the second has not. */
  lemma LeakLeaves(b: Bal, op: BalOp)
    requires LeaksOnError(b, op)
    ensures var r := ApplyOp(b, op);
            && r.status == Overflow && r.bal.version == b.version
            && (op.Lock? ==> r.bal.avail == b.avail - op.amount && r.bal.frozen == b.frozen)
            && (op.Unlock? ==> r.bal.frozen == b.frozen - op.amount && r.bal.avail == b.avail)
            && (op.RefundFrozen? ==> r.bal.frozen == b.frozen - op.spend && r.bal.avail == b.avail)
  {
  }

  /** When available plus frozen fits 64 bits, locking and unlocking are all-or-nothing and fail
      only for lack of funds. */
  lemma FittingBalanceNeverLeaks(b: Bal, op: BalOp)
    requires b.avail + b.frozen <= U64_MAX
    requires op.Lock? || op.Unlock?
    ensures !LeaksOnError(b, op)
    ensures ApplyOp(b, op).status != Overflow
    ensures ApplyOp(b, op).status == Success <==>
            op.amount <= (if op.Lock? then b.avail else b.frozen)
  {
  }

  /** Unlock undoes Lock up to the version counter, which has moved by two. */
  lemma UnlockUndoesLock(b: Bal, n: nat)
    requires b.avail + b.frozen <= U64_MAX
    requires n <= b.avail
    ensures var locked := ApplyOp(b, Lock(n));
            locked.status == Success &&
            ApplyOp(locked.bal, Unlock(n)) ==
            OpResult(b.(version := WrapAdd(b.version, 2)), Success)
  {
    WrapAddTwice(b.version, 1, 1);
  }

  class Balance {
    var avail: nat
    var frozen: nat
    var version: nat

    constructor (b: Bal)
      ensures Value() == b
    {
      avail, frozen, version := b.avail, b.frozen, b.version;
    }

    ghost function Value(): Bal
      reads this
    {
      Bal(avail, frozen, version)
    }

    method Snapshot() returns (b: Bal)
      ensures b == Value()
    {
      b := Bal(avail, frozen, version);
    }

    /** `deposit` (src/enforced_balance.rs:86). */
    method Deposit(amount: nat) returns (status: Status)
      modifies this
      ensures OpResult(Value(), status) == ApplyOp(old(Value()), BalOp.Deposit(amount))
    {
      if avail + amount > U64_MAX {
        return Overflow;
      }
      avail := avail + amount;
      version := WrapAdd(version, 1);
      return Success;
    }

    method Withdraw(amount: nat) returns (status: Status)
      modifies this
      ensures OpResult(Value(), status) == ApplyOp(old(Value()), BalOp.Withdraw(amount))
    {
      if avail < amount {
        return Insufficient;
      }
      avail := avail - amount;
      version := WrapAdd(version, 1);
      return Success;
    }

    /** `lock`: the available side is stored before the frozen side is checked for overflow. */
    method Lock(amount: nat) returns (status: Status)
      modifies this
      ensures OpResult(Value(), status) == ApplyOp(old(Value()), BalOp.Lock(amount))
    {
      if avail < amount {
        return Insufficient;
      }
      avail := avail - amount;
      if frozen + amount > U64_MAX {
        return Overflow;
      }
      frozen := frozen + amount;
      version := WrapAdd(version, 1);
      return Success;
    }

    method Unlock(amount: nat) returns (status: Status)
      modifies this
      ensures OpResult(Value(), status) == ApplyOp(old(Value()), BalOp.Unlock(amount))
    {
      if frozen < amount {
        return Insufficient;
      }
      frozen := frozen - amount;
      if avail + amount > U64_MAX {
        return Overflow;
      }
      avail := avail + amount;
      version := WrapAdd(version, 1);
      return Success;
    }

    method SpendFrozen(amount: nat) returns (status: Status)
      modifies this
      ensures OpResult(Value(), status) == ApplyOp(old(Value()), BalOp.SpendFrozen(amount))
    {
      if frozen < amount {
        return Insufficient;
      }
      frozen := frozen - amount;
      version := WrapAdd(version, 1);
      return Success;
    }

    method RefundFrozen(spend: nat, refund: nat) returns (status: Status)
      modifies this
      ensures OpResult(Value(), status) == ApplyOp(old(Value()), BalOp.RefundFrozen(spend, refund))
    {
      if frozen < spend {
        return Insufficient;
      }
      frozen := frozen - spend;
      if avail + refund > U64_MAX {
        return Overflow;
      }
      avail := avail + refund;
      version := WrapAdd(version, 1);
      return Success;
    }
  }
}
