/** `SnowflakeGen` in `src/fast_ulid.rs`: 44 bits of time, 7 of machine, 13 of sequence. */
module SnowflakeIds {
  import opened Numbers

  const TIME_LIMIT: nat := 0x1000_0000_0000
  const MACHINES: nat := 0x80
  const SEQUENCES: nat := 0x2000

  /** `ZeroSequence` and `RandomSequence`. */
  datatype Strategy = ZeroSequence | RandomSequence

  function NextSequence(current: nat): nat {
    (current + 1) % SEQUENCES
  }

  /** `random` is the 16-bit value drawn by the generator. */
  function ResetSequence(strategy: Strategy, random: nat): nat {
    if strategy == ZeroSequence then 0 else random % SEQUENCES
  }

  /** `from_parts` and the last line of `generate`: time shifted by 20 in 64 bits. */
  function FromParts(time: nat, machine: nat, sequence: nat): nat {
    (time * 0x10_0000) % TWO_64 + (machine % MACHINES) * 0x2000 + sequence % SEQUENCES
  }

  function TimestampMs(id: nat): nat {
    id / 0x10_0000
  }

  function MachineId(id: nat): nat {
    (id / 0x2000) % MACHINES
  }

  function SequenceOf(id: nat): nat {
    id % SEQUENCES
  }

  /** `last_ts` and `sequence`. */
  datatype State = State(lastTs: nat, sequence: nat)

  const START: State := State(0, 0)

  /** One reading of the clock and of the random source. */
  datatype Reading = Reading(clock: nat, random: nat)

  /** The state after one call of `generate`, whatever the clock shows. */
  function Next(strategy: Strategy, s: State, r: Reading): State {
    var now := if r.clock < s.lastTs then s.lastTs else r.clock;
    if now == s.lastTs then
      var q := NextSequence(s.sequence);
      if q == 0 then State(s.lastTs + 1, ResetSequence(strategy, r.random)) else State(now, q)
    else
      State(now, ResetSequence(strategy, r.random))
  }

  function IdOf(machine: nat, s: State): nat {
    FromParts(s.lastTs, machine, s.sequence)
  }

  /** The states after each call of a run. */
  function States(strategy: Strategy, s: State, rs: seq<Reading>): seq<State>
    decreases |rs|
  {
    if rs == [] then [] else
    var s' := Next(strategy, s, rs[0]);
    [s'] + States(strategy, s', rs[1..])
  }

  function Ids(machine: nat, states: seq<State>): seq<nat> {
    seq(|states|, i requires 0 <= i < |states| => IdOf(machine, states[i]))
  }

  // ----- One id -----

  lemma ShiftedTime(time: nat)
    ensures (time * 0x10_0000) % TWO_64 == (time % TIME_LIMIT) * 0x10_0000
  {
    var q, r := time / TIME_LIMIT, time % TIME_LIMIT;
    assert time * 0x10_0000 == q * TWO_64 + r * 0x10_0000;
    ModAddMultiple(r * 0x10_0000, q);
  }

  /** Ids of one machine are ordered like (time modulo 2^44, sequence). */
  lemma IdOrder(machine: nat, t1: nat, q1: nat, t2: nat, q2: nat)
    requires q1 < SEQUENCES && q2 < SEQUENCES
    ensures FromParts(t1, machine, q1) < FromParts(t2, machine, q2) <==>
            t1 % TIME_LIMIT < t2 % TIME_LIMIT || (t1 % TIME_LIMIT == t2 % TIME_LIMIT && q1 < q2)
  {
    ShiftedTime(t1);
    ShiftedTime(t2);
  }

  /** An id decodes to its time, machine and sequence, exactly when the time fits 44 bits. */
  lemma IdDecodes(time: nat, machine: nat, sequence: nat)
    requires machine < MACHINES && sequence < SEQUENCES
    ensures var id := FromParts(time, machine, sequence);
            && id < TWO_64
            && (TimestampMs(id) == time <==> time < TIME_LIMIT)
            && MachineId(id) == machine && SequenceOf(id) == sequence
  {
    ShiftedTime(time);
    var t := time % TIME_LIMIT;
    var id := FromParts(time, machine, sequence);
    assert id == t * 0x10_0000 + machine * 0x2000 + sequence;
    assert id / 0x10_0000 == t;
    assert id / 0x2000 == t * 0x80 + machine;
  }

  /** Every id is put together from its own fields. */
  lemma PartsRoundTrip(id: nat)
    requires id < TWO_64
    ensures FromParts(TimestampMs(id), MachineId(id), SequenceOf(id)) == id
  {
    assert id / 0x10_0000 < TIME_LIMIT;
    ShiftedTime(id / 0x10_0000);
  }

  // ----- Runs -----

  ghost predicate Later(s: State, t: State) {
    s.lastTs < t.lastTs || (s.lastTs == t.lastTs && s.sequence < t.sequence)
  }

  /** Every call moves on, and time runs ahead of the clock by at most one millisecond a call. */
  lemma NextIsLater(strategy: Strategy, s: State, r: Reading)
    requires s.sequence < SEQUENCES
    ensures var t := Next(strategy, s, r);
            && t.sequence < SEQUENCES && Later(s, t)
            && t.lastTs <= (if r.clock > s.lastTs then r.clock else s.lastTs) + 1
  {
  }

  /** The millisecond that the generator is in has no sequence left. */
  predicate UsedUp(s: State, r: Reading) {
    r.clock <= s.lastTs && s.sequence == SEQUENCES - 1
  }

  /** Time follows the clock: it is the larger of the reading and the last time, and one more exactly when
      that millisecond is used up. The sequence starts again on a new millisecond, from 0 or from the
      drawn value, and otherwise counts on. */
  lemma NextFollowsTheClock(strategy: Strategy, s: State, r: Reading)
    requires s.sequence < SEQUENCES
    ensures var t := Next(strategy, s, r);
            && t.lastTs == (if r.clock > s.lastTs then r.clock else s.lastTs) + (if UsedUp(s, r) then 1 else 0)
            && t.sequence == if t.lastTs == s.lastTs then s.sequence + 1
                             else if strategy == ZeroSequence then 0 else r.random % SEQUENCES
  {
  }

  lemma {:induction false} StatesAt(strategy: Strategy, s: State, rs: seq<Reading>, i: nat)
    requires i < |rs|
    ensures |States(strategy, s, rs)| == |rs|
    ensures States(strategy, s, rs)[i] == Next(strategy, if i == 0 then s else States(strategy, s, rs)[i - 1], rs[i])
    decreases |rs|
  {
    hide Next;
    var s' := Next(strategy, s, rs[0]);
    var rest := States(strategy, s', rs[1..]);
    assert States(strategy, s, rs) == [s'] + rest;
    if |rs| > 1 {
      StatesAt(strategy, s', rs[1..], if i == 0 then 0 else i - 1);
      assert rs[1..][if i == 0 then 0 else i - 1] == rs[if i == 0 then 1 else i];
    } else {
      assert rest == [];
    }
  }

  ghost predicate Increasing(states: seq<State>) {
    forall i, j :: 0 <= i < j < |states| ==> Later(states[i], states[j])
  }

  lemma {:induction false} StatesIncrease(strategy: Strategy, s: State, rs: seq<Reading>, limit: nat)
    requires s.sequence < SEQUENCES && s.lastTs <= limit
    requires forall r :: r in rs ==> r.clock <= limit
    ensures var ss := States(strategy, s, rs);
            && |ss| == |rs|
            && (forall i :: 0 <= i < |ss| ==> Later(s, ss[i]) && ss[i].sequence < SEQUENCES
                                               && ss[i].lastTs <= limit + |rs|)
            && Increasing(ss)
    decreases |rs|
  {
    if rs != [] {
      var s' := Next(strategy, s, rs[0]);
      NextIsLater(strategy, s, rs[0]);
      StatesIncrease(strategy, s', rs[1..], limit + 1);
      var ss, rest := States(strategy, s, rs), States(strategy, s', rs[1..]);
      assert ss == [s'] + rest;
      assert forall i :: 0 < i < |ss| ==> ss[i] == rest[i - 1];
    }
  }

  /** For any clock readings, repeated or running backward, and either strategy: ids strictly
      increase and decode to their fields, as long as the largest reading plus the number of calls
      stays under 44 bits. */
  lemma IdsStrictlyIncrease(strategy: Strategy, machine: nat, s: State, rs: seq<Reading>, limit: nat)
    requires machine < MACHINES && s.sequence < SEQUENCES && s.lastTs <= limit
    requires forall r :: r in rs ==> r.clock <= limit
    requires limit + |rs| < TIME_LIMIT
    ensures var states := States(strategy, s, rs);
            var ids := Ids(machine, states);
            && |ids| == |rs| && StrictlyIncreasing(ids)
            && (forall i :: 0 <= i < |ids| ==>
                  ids[i] > IdOf(machine, s) && ids[i] < TWO_64
                  && TimestampMs(ids[i]) == states[i].lastTs && MachineId(ids[i]) == machine
                  && SequenceOf(ids[i]) == states[i].sequence)
  {
    StatesIncrease(strategy, s, rs, limit);
    hide States, FromParts, TimestampMs, MachineId, SequenceOf;
    var states := States(strategy, s, rs);
    var ids := Ids(machine, states);
    forall i, j | 0 <= i < j < |ids| ensures ids[i] < ids[j] {
      assert Later(states[i], states[j]);
      IdOrder(machine, states[i].lastTs, states[i].sequence, states[j].lastTs, states[j].sequence);
      SmallTime(states[i].lastTs);
      SmallTime(states[j].lastTs);
    }
    forall i | 0 <= i < |ids|
      ensures ids[i] > IdOf(machine, s) && ids[i] < TWO_64
      ensures TimestampMs(ids[i]) == states[i].lastTs && MachineId(ids[i]) == machine
      ensures SequenceOf(ids[i]) == states[i].sequence
    {
      IdDecodes(states[i].lastTs, machine, states[i].sequence);
      IdOrder(machine, s.lastTs, s.sequence, states[i].lastTs, states[i].sequence);
      SmallTime(s.lastTs);
      SmallTime(states[i].lastTs);
    }
  }

  /** Read off the ids themselves, over any run: each id carries the larger of its clock reading and the
      time of the id before it, one millisecond more exactly when that id had the last sequence of a
      millisecond the clock has not left; and the sequence counts on within a millisecond and starts again
      on a new one. */
  lemma IdsFollowTheClock(strategy: Strategy, machine: nat, s: State, rs: seq<Reading>, limit: nat, i: nat)
    requires machine < MACHINES && s.sequence < SEQUENCES && s.lastTs <= limit
    requires forall r :: r in rs ==> r.clock <= limit
    requires limit + |rs| < TIME_LIMIT && i < |rs|
    ensures var ids := Ids(machine, States(strategy, s, rs));
            && |ids| == |rs|
            && var past := if i == 0 then s else State(TimestampMs(ids[i - 1]), SequenceOf(ids[i - 1]));
               var time, clock := TimestampMs(ids[i]), rs[i].clock;
               && time >= clock
               && time == (if clock > past.lastTs then clock else past.lastTs) + (if UsedUp(past, rs[i]) then 1 else 0)
               && SequenceOf(ids[i]) == if time == past.lastTs then past.sequence + 1
                                        else if strategy == ZeroSequence then 0 else rs[i].random % SEQUENCES
  {
    hide States, FromParts, TimestampMs, MachineId, SequenceOf, Next, IdOf;
    IdsStrictlyIncrease(strategy, machine, s, rs, limit);
    StatesIncrease(strategy, s, rs, limit);
    StatesAt(strategy, s, rs, i);
    var states := States(strategy, s, rs);
    NextFollowsTheClock(strategy, if i == 0 then s else states[i - 1], rs[i]);
  }

  lemma SmallTime(t: nat)
    requires t < TIME_LIMIT
    ensures t % TIME_LIMIT == t
  {
  }

  /** `SnowflakeGen`, with the clock and the random source as parameters. */
  class SnowflakeGen {
    const machineId: nat
    const strategy: Strategy
    var lastTs: nat
    var sequence: nat

    ghost predicate Valid()
      reads this
    {
      machineId < MACHINES && sequence < SEQUENCES
    }

    ghost function Value(): State
      reads this
    {
      State(lastTs, sequence)
    }

    constructor (machineId: nat, strategy: Strategy)
      ensures Valid() && Value() == START
      ensures this.machineId == machineId % MACHINES && this.strategy == strategy
    {
      this.machineId, this.strategy := machineId % MACHINES, strategy;
      lastTs, sequence := 0, 0;
    }

    method Generate(clock: nat, random: nat) returns (id: nat)
      requires Valid()
      modifies this
      ensures Valid()
      ensures Value() == Next(strategy, old(Value()), Reading(clock, random))
      ensures id == IdOf(machineId, Value())
    {
      var now := clock;
      if now < lastTs {
        now := lastTs;
      }
      if now == lastTs {
        sequence := (sequence + 1) % SEQUENCES;
        if sequence == 0 {
          lastTs := lastTs + 1;
          now := lastTs;
          sequence := ResetSequence(strategy, random);
        }
      } else {
        sequence := ResetSequence(strategy, random);
      }
      lastTs := now;
      id := (now * 0x10_0000) % TWO_64 + machineId * 0x2000 + sequence;
    }
  }
}
