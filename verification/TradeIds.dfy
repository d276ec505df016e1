/** Deterministic trade ids: `FastUlidHalfGen::generate_from_ts` in `src/fast_ulid.rs`. */
module TradeIds {
  import opened Numbers

  /** `timestamp_ms << 16` in 64 bits. */
  function TimestampPart(ts: nat): nat {
    (ts * 65536) % TWO_64
  }

  /** The id issued after `last` at a given time, which also becomes the new `last_val`. */
  function NextId(last: nat, ts: nat): nat {
    if TimestampPart(ts) > last then TimestampPart(ts) else WrapAdd(last, 1)
  }

  /** Ids issued for a list of times, over the whole life of one generator. */
  function IssueAll(last: nat, times: seq<nat>): seq<nat>
    decreases |times|
  {
    if times == [] then [] else
    var id := NextId(last, times[0]);
    [id] + IssueAll(id, times[1..])
  }

  /** Whatever the clock says, the next id is larger exactly when the counter is not at its maximum. */
  lemma NextIdGrows(last: nat, ts: nat)
    requires last <= U64_MAX
    ensures NextId(last, ts) <= U64_MAX
    ensures NextId(last, ts) > last <==> last < U64_MAX
    ensures NextId(last, ts) >= TimestampPart(ts) || last == U64_MAX
  {
  }

  /** The milliseconds and the counter in an id. */
  function TimeIn(id: nat): nat {
    id / 65536
  }

  function CounterIn(id: nat): nat {
    id % 65536
  }

  /** What the next id carries: when the clock shows a later millisecond than the last id, that millisecond
      (as far as 48 bits hold it) with the counter at 0, and otherwise the last id plus 1, from the
      largest number to 0. */
  lemma NextIdDecodes(last: nat, ts: nat)
    requires last <= U64_MAX
    ensures var id, ms := NextId(last, ts), ts % 0x1_0000_0000_0000;
            && (ms > TimeIn(last) ==> TimeIn(id) == ms && CounterIn(id) == 0)
            && (ms <= TimeIn(last) ==> id == if last == U64_MAX then 0 else last + 1)
  {
    var q, ms := ts / 0x1_0000_0000_0000, ts % 0x1_0000_0000_0000;
    assert ts * 65536 == q * TWO_64 + ms * 65536;
    ModAddMultiple(ms * 65536, q);
    assert TimestampPart(ts) == ms * 65536;
  }

  /** Over a whole run with arbitrary times, ids strictly increase exactly when no id but the last
      one is the largest 64-bit number. */
  lemma {:induction false} IdsIncreaseUntilWrap(last: nat, times: seq<nat>)
    requires last < U64_MAX
    ensures var ids := IssueAll(last, times);
            && |ids| == |times|
            && (forall i :: 0 <= i < |ids| ==> ids[i] <= U64_MAX)
            && (StrictlyIncreasing([last] + ids) <==> forall i :: 0 <= i < |ids| - 1 ==> ids[i] < U64_MAX)
    decreases |times|
  {
    var ids := IssueAll(last, times);
    if times != [] {
      NextIdGrows(last, times[0]);
      var id := ids[0];
      var rest := IssueAll(id, times[1..]);
      assert ids == [id] + rest;
      if id < U64_MAX {
        IdsIncreaseUntilWrap(id, times[1..]);
        OneMore(last, id, rest);
        assert forall i :: 0 <= i < |rest| - 1 ==> rest[i] == ids[i + 1];
        assert forall i :: 1 <= i < |ids| - 1 ==> ids[i] == rest[i - 1];
      } else {
        IssueBounds(id, times[1..]);
        if |rest| > 0 {
          assert ids[1] == rest[0] && ids[0] == U64_MAX;
          assert ([last] + ids)[1] == U64_MAX && ([last] + ids)[2] == rest[0];
        } else {
          assert [last] + ids == [last, id];
        }
      }
    }
  }

  /** A condition on the inputs: when the timestamps stay, together with the number of calls, within 64
      bits, every id is larger than all before it. */
  lemma {:induction false} IdsIncreaseWithin(last: nat, times: seq<nat>, limit: nat)
    requires last <= limit && limit + |times| <= U64_MAX
    requires forall ts :: ts in times ==> TimestampPart(ts) <= limit
    ensures var ids := IssueAll(last, times);
            && |ids| == |times| && StrictlyIncreasing([last] + ids)
            && forall i :: 0 <= i < |ids| ==> ids[i] <= limit + |times|
    decreases |times|
  {
    if times != [] {
      var id := NextId(last, times[0]);
      assert times[0] in times;
      NextIdGrows(last, times[0]);
      IdsIncreaseWithin(id, times[1..], limit + 1);
      OneMore(last, id, IssueAll(id, times[1..]));
    }
  }

  lemma OneMore(last: nat, id: nat, rest: seq<nat>)
    requires last < id
    ensures StrictlyIncreasing([last] + ([id] + rest)) <==> StrictlyIncreasing([id] + rest)
  {
    var a, b := [last] + ([id] + rest), [id] + rest;
    if StrictlyIncreasing(a) {
      forall i, j | 0 <= i < j < |b| ensures b[i] < b[j] {
        assert a[i + 1] < a[j + 1];
      }
    }
    if StrictlyIncreasing(b) {
      forall i, j | 0 <= i < j < |a| ensures a[i] < a[j] {
        assert a[j] == b[j - 1];
        if i > 0 {
          assert a[i] == b[i - 1];
        } else if j > 1 {
          assert b[0] < b[j - 1];
        }
      }
    }
  }

  lemma {:induction false} IssueBounds(last: nat, times: seq<nat>)
    requires last <= U64_MAX
    ensures |IssueAll(last, times)| == |times|
    ensures forall i :: 0 <= i < |times| ==> IssueAll(last, times)[i] <= U64_MAX
    decreases |times|
  {
    if times != [] {
      NextIdGrows(last, times[0]);
      IssueBounds(NextId(last, times[0]), times[1..]);
    }
  }

  /** `FastUlidHalfGen`, as far as the matching engine uses it. */
  class FastUlidHalfGen {
    var lastVal: nat

    constructor ()
      ensures lastVal == 0
    {
      lastVal := 0;
    }

    method GenerateFromTs(ts: nat) returns (id: nat)
      modifies this
      ensures id == lastVal == NextId(old(lastVal), ts)
    {
      var tsPart := (ts * 65536) % TWO_64;
      if tsPart > lastVal {
        lastVal := tsPart;
      } else {
        lastVal := WrapAdd(lastVal, 1);
      }
      return lastVal;
    }
  }
}
