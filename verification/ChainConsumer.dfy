/** The consumer of the hash chain: `verify_batch` in `src/bin/settlement_service.rs`. */
module ChainConsumer {
  import opened EngineOutputs

  /** `last_seq` and `last_hash`. */
  datatype ChainState = ChainState(seqNo: nat, hash: nat)

  const CHAIN_START: ChainState := ChainState(0, GENESIS_HASH)

  /** One bundle: the new state, and whether the bundle is accepted. A gap moves the state just
      before the bundle, also when the bundle then turns out to be damaged. */
  function Consume(h: HashFn, s: ChainState, b: Bundle): (ChainState, bool) {
    var expected := s.seqNo + 1;
    if b.outputSeq < expected then (s, false)
    else if b.outputSeq > expected then
      if b.Verify(h) then (ChainState(b.outputSeq, b.hash), true)
      else (ChainState(b.outputSeq - 1, b.prevHash), false)
    else if !b.VerifyPrevHash(s.hash) || !b.Verify(h) then (s, false)
    else (ChainState(b.outputSeq, b.hash), true)
  }

  function StateAfter(h: HashFn, s: ChainState, batch: seq<Bundle>): ChainState
    decreases |batch|
  {
    if batch == [] then s else StateAfter(h, Consume(h, s, batch[0]).0, batch[1..])
  }

  /** The bundles accepted from a batch, in order. */
  function Accepted(h: HashFn, s: ChainState, batch: seq<Bundle>): seq<Bundle>
    decreases |batch|
  {
    if batch == [] then [] else
    var (s', ok) := Consume(h, s, batch[0]);
    (if ok then [batch[0]] else []) + Accepted(h, s', batch[1..])
  }

  /** `verify_batch`, statement by statement. */
  method VerifyBatch(h: HashFn, batch: seq<Bundle>, seq0: nat, hash0: nat)
    returns (verified: seq<Bundle>, lastSeq: nat, lastHash: nat)
    ensures verified == Accepted(h, ChainState(seq0, hash0), batch)
    ensures ChainState(lastSeq, lastHash) == StateAfter(h, ChainState(seq0, hash0), batch)
  {
    verified, lastSeq, lastHash := [], seq0, hash0;
    hide Accepted, StateAfter;
    ghost var s0 := ChainState(seq0, hash0);
    NothingLeft(h);
    var i := 0;
    assert batch[0..] == batch;
    while i < |batch|
      invariant 0 <= i <= |batch|
      invariant Accepted(h, s0, batch) == verified + Accepted(h, ChainState(lastSeq, lastHash), batch[i..])
      invariant StateAfter(h, s0, batch) == StateAfter(h, ChainState(lastSeq, lastHash), batch[i..])
    {
      var output := batch[i];
      NextBundle(h, ChainState(lastSeq, lastHash), batch, i, verified);
      i := i + 1;
      var seqNo := output.outputSeq;
      var expected := lastSeq + 1;
      if seqNo < expected {
        continue;
      }
      if seqNo > expected {
        lastSeq := seqNo - 1;
        lastHash := output.prevHash;
      }
      if seqNo == expected && !output.VerifyPrevHash(lastHash) {
        continue;
      }
      if !output.Verify(h) {
        continue;
      }
      lastHash := output.hash;
      lastSeq := seqNo;
      verified := verified + [output];
    }
    assert batch[i..] == [] && verified + [] == verified;
  }

  lemma NothingLeft(h: HashFn)
    ensures forall s :: Accepted(h, s, []) == [] && StateAfter(h, s, []) == s
  {
  }

  lemma NextBundle(h: HashFn, s: ChainState, batch: seq<Bundle>, i: nat, verified: seq<Bundle>)
    requires i < |batch|
    ensures var (s', ok) := Consume(h, s, batch[i]);
            && StateAfter(h, s, batch[i..]) == StateAfter(h, s', batch[i + 1..])
            && verified + Accepted(h, s, batch[i..]) ==
               (if ok then verified + [batch[i]] else verified) + Accepted(h, s', batch[i + 1..])
  {
    hide *;
    assert batch[i..][0] == batch[i] && batch[i..][1..] == batch[i + 1..];
    ConsumeFirst(h, s, batch[i..]);
    var (s', ok) := Consume(h, s, batch[i]);
    var later := Accepted(h, s', batch[i + 1..]);
    assert ok ==> verified + ([batch[i]] + later) == verified + [batch[i]] + later;
    assert [] + later == later;
  }

  lemma ConsumeFirst(h: HashFn, s: ChainState, batch: seq<Bundle>)
    requires batch != []
    ensures var (s', ok) := Consume(h, s, batch[0]);
            && StateAfter(h, s, batch) == StateAfter(h, s', batch[1..])
            && Accepted(h, s, batch) == (if ok then [batch[0]] else []) + Accepted(h, s', batch[1..])
  {
    hide Consume;
  }

  // ----- Any stream -----

  lemma {:induction false} ConsumeAppend(h: HashFn, s: ChainState, xs: seq<Bundle>, ys: seq<Bundle>)
    ensures StateAfter(h, s, xs + ys) == StateAfter(h, StateAfter(h, s, xs), ys)
    ensures Accepted(h, s, xs + ys) == Accepted(h, s, xs) + Accepted(h, StateAfter(h, s, xs), ys)
    decreases |xs|
  {
    if xs == [] {
      assert xs + ys == ys;
    } else {
      assert (xs + ys)[0] == xs[0] && (xs + ys)[1..] == xs[1..] + ys;
      ConsumeAppend(h, Consume(h, s, xs[0]).0, xs[1..], ys);
    }
  }

  function Concat(batches: seq<seq<Bundle>>): seq<Bundle> {
    if batches == [] then [] else batches[0] + Concat(batches[1..])
  }

  /** A consumer fed batch by batch. */
  function AcceptedInBatches(h: HashFn, s: ChainState, batches: seq<seq<Bundle>>): seq<Bundle>
    decreases |batches|
  {
    if batches == [] then [] else
    Accepted(h, s, batches[0]) + AcceptedInBatches(h, StateAfter(h, s, batches[0]), batches[1..])
  }

  /** How a stream is cut into batches does not matter. */
  lemma {:induction false} BatchCutsDoNotMatter(h: HashFn, s: ChainState, batches: seq<seq<Bundle>>)
    ensures AcceptedInBatches(h, s, batches) == Accepted(h, s, Concat(batches))
    decreases |batches|
  {
    if batches != [] {
      BatchCutsDoNotMatter(h, StateAfter(h, s, batches[0]), batches[1..]);
      ConsumeAppend(h, s, batches[0], Concat(batches[1..]));
    }
  }

  /** What the accepted bundles of any stream have in common: numbers strictly above everything
      before, intact hashes, and a proper chain between neighbours with consecutive numbers. */
  ghost predicate Sequenced(h: HashFn, after: nat, bs: seq<Bundle>) {
    && (forall i :: 0 <= i < |bs| ==> bs[i].Verify(h) && bs[i].outputSeq > after)
    && (forall i, j :: 0 <= i < j < |bs| ==> bs[i].outputSeq < bs[j].outputSeq)
    && (forall i :: 0 < i < |bs| && bs[i].outputSeq == bs[i - 1].outputSeq + 1 ==> bs[i].VerifyChain(bs[i - 1]))
  }

  /** The first accepted bundle continues the state when its number is the next one. */
  ghost predicate Continues(s: ChainState, bs: seq<Bundle>) {
    bs != [] && bs[0].outputSeq == s.seqNo + 1 ==> bs[0].prevHash == s.hash
  }

  lemma {:induction false} AcceptedIsSequenced(h: HashFn, s: ChainState, batch: seq<Bundle>)
    ensures Sequenced(h, s.seqNo, Accepted(h, s, batch))
    ensures Continues(s, Accepted(h, s, batch))
    decreases |batch|
  {
    hide Sequenced;
    if batch != [] {
      var b := batch[0];
      var (s', ok) := Consume(h, s, b);
      var rest := Accepted(h, s', batch[1..]);
      AcceptedIsSequenced(h, s', batch[1..]);
      if ok {
        PrependAccepted(h, s, b, rest);
      } else {
        assert [] + rest == rest;
        RejectedKeeps(h, s, s', rest);
      }
    } else {
      NothingSequenced(h, s.seqNo);
    }
  }

  lemma NothingSequenced(h: HashFn, after: nat)
    ensures Sequenced(h, after, [])
  {
  }

  /** A rejected bundle leaves the state alone or moves it forward. */
  lemma RejectedKeeps(h: HashFn, s: ChainState, s': ChainState, rest: seq<Bundle>)
    requires s' == s || s'.seqNo > s.seqNo
    requires Sequenced(h, s'.seqNo, rest) && Continues(s', rest)
    ensures Sequenced(h, s.seqNo, rest) && Continues(s, rest)
  {
  }

  lemma PrependAccepted(h: HashFn, s: ChainState, b: Bundle, rest: seq<Bundle>)
    requires b.outputSeq > s.seqNo && b.Verify(h)
    requires Sequenced(h, b.outputSeq, rest) && Continues(ChainState(b.outputSeq, b.hash), rest)
    ensures Sequenced(h, s.seqNo, [b] + rest)
  {
    var all := [b] + rest;
    assert forall i :: 0 < i < |all| ==> all[i] == rest[i - 1];
    forall i | 0 < i < |all| && all[i].outputSeq == all[i - 1].outputSeq + 1
      ensures all[i].VerifyChain(all[i - 1])
    {
      if i > 1 {
        assert rest[i - 1].VerifyChain(rest[i - 2]);
      }
    }
  }

  // ----- Each bundle of any stream -----

  /** What becomes of the next bundle after any stream. Its number decides: a known one is ignored; the
      expected one is accepted exactly when it links to the last accepted state and is intact, and ignored
      otherwise; one behind a gap is accepted exactly when it is intact, whatever it links to, and moves the
      state just before itself when it is not. */
  lemma NextInStream(h: HashFn, s0: ChainState, stream: seq<Bundle>, b: Bundle)
    ensures var s, s', all := StateAfter(h, s0, stream), StateAfter(h, s0, stream + [b]), Accepted(h, s0, stream + [b]);
            && (b.outputSeq <= s.seqNo ==> all == Accepted(h, s0, stream) && s' == s)
            && (b.outputSeq == s.seqNo + 1 ==>
                  if b.prevHash == s.hash && b.Verify(h)
                  then all == Accepted(h, s0, stream) + [b] && s' == ChainState(b.outputSeq, b.hash)
                  else all == Accepted(h, s0, stream) && s' == s)
            && (b.outputSeq > s.seqNo + 1 ==>
                  if b.Verify(h)
                  then all == Accepted(h, s0, stream) + [b] && s' == ChainState(b.outputSeq, b.hash)
                  else all == Accepted(h, s0, stream) && s' == ChainState(b.outputSeq - 1, b.prevHash))
  {
    ConsumeAppend(h, s0, stream, [b]);
    assert [b][1..] == [];
    assert Accepted(h, s0, stream) + [] == Accepted(h, s0, stream);
  }

  // ----- Processing again -----

  /** The bundle would neither be accepted nor change the state. */
  ghost predicate Inert(h: HashFn, s: ChainState, b: Bundle) {
    Consume(h, s, b) == (s, false)
  }

  lemma InertOnceSeen(h: HashFn, s: ChainState, b: Bundle)
    ensures Inert(h, Consume(h, s, b).0, b)
  {
  }

  lemma InertStaysInert(h: HashFn, s: ChainState, b: Bundle, c: Bundle)
    requires Inert(h, s, b)
    ensures Inert(h, Consume(h, s, c).0, b)
  {
  }

  lemma {:induction false} InertAfterBatch(h: HashFn, s: ChainState, b: Bundle, batch: seq<Bundle>)
    requires Inert(h, s, b) || b in batch
    ensures Inert(h, StateAfter(h, s, batch), b)
    decreases |batch|
  {
    if batch != [] {
      if Inert(h, s, b) {
        InertStaysInert(h, s, b, batch[0]);
      } else if b == batch[0] {
        InertOnceSeen(h, s, b);
      }
      InertAfterBatch(h, Consume(h, s, batch[0]).0, b, batch[1..]);
    }
  }

  lemma {:induction false} InertBatchDoesNothing(h: HashFn, s: ChainState, batch: seq<Bundle>)
    requires forall b :: b in batch ==> Inert(h, s, b)
    ensures StateAfter(h, s, batch) == s && Accepted(h, s, batch) == []
    decreases |batch|
  {
    if batch != [] {
      assert Inert(h, s, batch[0]);
      InertBatchDoesNothing(h, s, batch[1..]);
    }
  }

  /** Idempotence: processing the same batch a second time, whatever it contains, accepts nothing
      and leaves the chain state as it is. */
  lemma ReprocessingDoesNothing(h: HashFn, s: ChainState, batch: seq<Bundle>)
    ensures var s' := StateAfter(h, s, batch);
            StateAfter(h, s', batch) == s' && Accepted(h, s', batch) == []
  {
    var s' := StateAfter(h, s, batch);
    forall b | b in batch ensures Inert(h, s', b) {
      InertAfterBatch(h, s, b, batch);
    }
    InertBatchDoesNothing(h, s', batch);
  }

  // ----- A produced chain, delivered at least once -----

  /** What a producer emits: intact bundles with increasing numbers, each linked to the one before
      it by hash; numbers may skip. */
  ghost predicate Produced(h: HashFn, from: ChainState, log: seq<Bundle>)
    decreases |log|
  {
    log == [] ||
    (log[0].Verify(h) && log[0].outputSeq > from.seqNo && log[0].prevHash == from.hash
     && Produced(h, ChainState(log[0].outputSeq, log[0].hash), log[1..]))
  }

  /** How far a delivery has got: one more than the largest position delivered. */
  function Reach(d: seq<nat>): nat {
    if d == [] then 0 else
    var r := Reach(d[..|d| - 1]);
    if d[|d| - 1] >= r then d[|d| - 1] + 1 else r
  }

  /** In-order, at-least-once delivery of `n` bundles: positions may be rewound at any time and by
      any distance, but none is skipped. */
  ghost predicate InOrder(d: seq<nat>, n: nat)
    decreases |d|
  {
    d == [] ||
    (d[|d| - 1] < n && d[|d| - 1] <= Reach(d[..|d| - 1]) && InOrder(d[..|d| - 1], n))
  }

  function Deliver(log: seq<Bundle>, d: seq<nat>): seq<Bundle>
    requires forall i :: 0 <= i < |d| ==> d[i] < |log|
  {
    seq(|d|, i requires 0 <= i < |d| => log[d[i]])
  }

  ghost function HeadOf(from: ChainState, log: seq<Bundle>, n: nat): ChainState
    requires n <= |log|
  {
    if n == 0 then from else ChainState(log[n - 1].outputSeq, log[n - 1].hash)
  }

  lemma {:induction false} ProducedFacts(h: HashFn, from: ChainState, log: seq<Bundle>, i: nat)
    requires Produced(h, from, log) && i < |log|
    ensures log[i].Verify(h)
    ensures log[i].outputSeq > HeadOf(from, log, i).seqNo >= from.seqNo
    ensures log[i].prevHash == HeadOf(from, log, i).hash
    decreases |log|
  {
    if i > 0 {
      ProducedFacts(h, ChainState(log[0].outputSeq, log[0].hash), log[1..], i - 1);
    }
  }

  lemma {:induction false} ProducedIncreases(h: HashFn, from: ChainState, log: seq<Bundle>, i: nat, j: nat)
    requires Produced(h, from, log) && i < j < |log|
    ensures log[i].outputSeq < log[j].outputSeq
    decreases j
  {
    ProducedFacts(h, from, log, j);
    if i < j - 1 {
      ProducedIncreases(h, from, log, i, j - 1);
    }
  }

  lemma {:induction false} ReachBounds(d: seq<nat>, n: nat)
    requires InOrder(d, n)
    ensures Reach(d) <= n
    ensures forall i :: 0 <= i < |d| ==> d[i] < Reach(d)
    decreases |d|
  {
    if d != [] {
      ReachBounds(d[..|d| - 1], n);
    }
  }

  /** Exactly once: for every produced chain and every in-order delivery with arbitrary rewinds, the
      consumer accepts precisely the bundles reached, once each and in order. */
  lemma {:induction false} ExactlyOnce(h: HashFn, from: ChainState, log: seq<Bundle>, d: seq<nat>)
    requires Produced(h, from, log) && InOrder(d, |log|)
    ensures Reach(d) <= |log| && forall i :: 0 <= i < |d| ==> d[i] < |log|
    ensures Accepted(h, from, Deliver(log, d)) == log[..Reach(d)]
    ensures StateAfter(h, from, Deliver(log, d)) == HeadOf(from, log, Reach(d))
    decreases |d|
  {
    ReachBounds(d, |log|);
    if d == [] {
      assert log[..0] == [];
    } else {
      var front, i := d[..|d| - 1], d[|d| - 1];
      ReachBounds(front, |log|);
      ExactlyOnce(h, from, log, front);
      assert Deliver(log, d) == Deliver(log, front) + [log[i]];
      ConsumeAppend(h, from, Deliver(log, front), [log[i]]);
      var r := Reach(front);
      NextDelivery(h, from, log, i, r);
      if i == r {
        assert log[..r + 1] == log[..r] + [log[r]];
      } else {
        assert log[..r] + [] == log[..r];
      }
    }
  }

  /** At the head of the chain, the next bundle is accepted and every earlier one is ignored. */
  lemma NextDelivery(h: HashFn, from: ChainState, log: seq<Bundle>, i: nat, r: nat)
    requires Produced(h, from, log) && i <= r <= |log| && i < |log|
    ensures var s := HeadOf(from, log, r);
            && StateAfter(h, s, [log[i]]) == HeadOf(from, log, if i == r then r + 1 else r)
            && Accepted(h, s, [log[i]]) == if i == r then [log[r]] else []
  {
    var s := HeadOf(from, log, r);
    assert [log[i]][1..] == [];
    ProducedFacts(h, from, log, i);
    if i < r {
      if i < r - 1 {
        ProducedIncreases(h, from, log, i, r - 1);
      }
      assert Consume(h, s, log[i]) == (s, false);
    } else {
      assert Consume(h, s, log[i]) == (ChainState(log[i].outputSeq, log[i].hash), true);
    }
  }

  // ----- A produced chain with losses -----

  ghost predicate Ascending(d: seq<nat>) {
    forall i, j :: 0 <= i < j < |d| ==> d[i] < d[j]
  }

  /** Lossy delivery: of a produced chain, with bundles missing anywhere, every one that is delivered is
      accepted, and the state is that of the last one. */
  lemma {:induction false} LossyDelivery(h: HashFn, from: ChainState, log: seq<Bundle>, d: seq<nat>)
    requires Produced(h, from, log) && Ascending(d) && forall i :: 0 <= i < |d| ==> d[i] < |log|
    ensures Accepted(h, from, Deliver(log, d)) == Deliver(log, d)
    ensures StateAfter(h, from, Deliver(log, d)) == HeadOf(from, log, if d == [] then 0 else d[|d| - 1] + 1)
    decreases |d|
  {
    hide Consume, Accepted, StateAfter;
    if d == [] {
      NothingLeft(h);
    } else {
      var front, i := d[..|d| - 1], d[|d| - 1];
      LossyDelivery(h, from, log, front);
      assert Deliver(log, d) == Deliver(log, front) + [log[i]];
      NextInStream(h, from, Deliver(log, front), log[i]);
      ProducedFacts(h, from, log, i);
      var last := if front == [] then 0 else front[|front| - 1] + 1;
      if last < i {
        SkippedIsBetween(h, from, log, last, i);
      }
    }
  }

  /** A bundle after a missing one is more than one number ahead. */
  lemma SkippedIsBetween(h: HashFn, from: ChainState, log: seq<Bundle>, k: nat, i: nat)
    requires Produced(h, from, log) && k < i < |log|
    ensures log[i].outputSeq > HeadOf(from, log, k).seqNo + 1
  {
    ProducedFacts(h, from, log, k);
    ProducedIncreases(h, from, log, k, i);
  }
}
