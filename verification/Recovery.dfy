/** Rebuilding a ledger from a snapshot and the segment files that are left
    (`RollingWal::replay_iter` and the replay loop of `GlobalLedger::new` in `src/ledger.rs`). */
module Recovery {
  import opened Numbers
  import opened Options
  import opened Bytes
  import opened Balances
  import opened LedgerSpec
  import opened WalSpec

  /** A segment file: the sequence number in its name and its bytes. */
  datatype SegmentFile = SegmentFile(start: nat, bytes: seq<byte>)

  /** What was logged into one segment. */
  datatype LoggedSegment = LoggedSegment(start: nat, records: seq<LogRecord>)

  datatype Snapshot = Snapshot(lastSeq: nat, accts: Accounts)

  // ----- Segment lists -----

  ghost function Flatten(log: seq<LoggedSegment>): seq<LogRecord> {
    if log == [] then [] else log[0].records + Flatten(log[1..])
  }

  lemma {:induction false} FlattenAppend(log: seq<LoggedSegment>, more: seq<LoggedSegment>)
    ensures Flatten(log + more) == Flatten(log) + Flatten(more)
    decreases |log|
  {
    if log == [] {
      assert log + more == more;
    } else {
      assert (log + more)[0] == log[0] && (log + more)[1..] == log[1..] + more;
      FlattenAppend(log[1..], more);
    }
  }

  /** Records carry consecutive numbers from `first`, and every segment is named after the number
      its next record was going to get when it was created. */
  ghost predicate Numbered(log: seq<LoggedSegment>, first: nat)
    decreases |log|
  {
    log == [] ||
    (log[0].start == first
     && (forall i :: 0 <= i < |log[0].records| ==> log[0].records[i].seqNo == first + i)
     && Numbered(log[1..], first + |log[0].records|))
  }

  lemma {:induction false} NumberedAppend(log: seq<LoggedSegment>, more: seq<LoggedSegment>, first: nat)
    ensures Numbered(log + more, first) <==>
            Numbered(log, first) && Numbered(more, first + |Flatten(log)|)
    decreases |log|
  {
    if log == [] {
      assert log + more == more;
    } else {
      assert (log + more)[0] == log[0] && (log + more)[1..] == log[1..] + more;
      NumberedAppend(log[1..], more, first + |log[0].records|);
    }
  }

  lemma FlattenOne(s: LoggedSegment)
    ensures Flatten([s]) == s.records
  {
    assert Flatten([s][1..]) == [];
  }

  /** A new empty segment named after the next number keeps the numbering. */
  lemma NumberedRotate(log: seq<LoggedSegment>, first: nat, s: LoggedSegment)
    requires Numbered(log, first)
    requires s.records == [] && s.start == first + |Flatten(log)|
    ensures Numbered(log + [s], first) && Flatten(log + [s]) == Flatten(log)
  {
    NumberedAppend(log, [s], first);
    FlattenAppend(log, [s]);
    FlattenOne(s);
    assert [s][1..] == [];
  }

  /** A record with the next number, written into the last segment, keeps the numbering. */
  lemma NumberedWrite(log: seq<LoggedSegment>, first: nat, s: LoggedSegment, r: LogRecord)
    ensures Flatten(log + [s.(records := s.records + [r])]) == Flatten(log + [s]) + [r]
    ensures Numbered(log + [s], first) && r.seqNo == first + |Flatten(log + [s])|
            ==> Numbered(log + [s.(records := s.records + [r])], first)
  {
    var s' := s.(records := s.records + [r]);
    FlattenAppend(log, [s]);
    FlattenAppend(log, [s']);
    FlattenOne(s);
    FlattenOne(s');
    NumberedAppend(log, [s], first);
    NumberedAppend(log, [s'], first);
    assert [s][1..] == [] && [s'][1..] == [];
  }

  // ----- Replay -----

  /** `partition_point` on files sorted by name, for the predicate start <= min. */
  function PartitionPoint(files: seq<SegmentFile>, min: nat): (n: nat)
    ensures n <= |files|
  {
    if files == [] || files[0].start > min then 0 else 1 + PartitionPoint(files[1..], min)
  }

  /** `saturating_sub(1)` of the partition point. */
  function StartIndex(files: seq<SegmentFile>, min: nat): (n: nat)
    ensures n <= |files|
  {
    var p := PartitionPoint(files, min);
    if p == 0 then 0 else p - 1
  }

  /** One record of the replay loop: skip, refuse a gap, or apply. */
  function ReplayRecord(s: Snapshot, r: LogRecord): Option<Snapshot> {
    if r.seqNo <= s.lastSeq then Some(s)
    else if r.seqNo != s.lastSeq + 1 then None
    else match ApplyTx(s.accts, r.cmd)
         case Done(m) => Some(Snapshot(r.seqNo, m))
         case _ => None
  }

  function ReplayRecords(s: Snapshot, rs: seq<LogRecord>): Option<Snapshot>
    decreases |rs|
  {
    if rs == [] then Some(s) else
    match ReplayRecord(s, rs[0])
    case None => None
    case Some(s') => ReplayRecords(s', rs[1..])
  }

  function ReplayFiles(k: Codec, s: Snapshot, files: seq<SegmentFile>): Option<Snapshot>
    decreases |files|
  {
    if files == [] then Some(s) else
    var c := ReadAll(k, files[0].bytes);
    match ReplayRecords(s, c.records)
    case None => None
    case Some(s') => if c.clean then ReplayFiles(k, s', files[1..]) else None
  }

  /** Replay over a loaded snapshot: the rebuilt state, or None when recovery refuses. */
  function Resume(k: Codec, s: Snapshot, files: seq<SegmentFile>): Option<Snapshot> {
    ReplayFiles(k, s, files[StartIndex(files, s.lastSeq)..])
  }

  /** `find_latest_snapshot`: the first one with the largest number above 0; without any, the empty ledger. */
  function Latest(dir: seq<Snapshot>): Snapshot {
    if dir == [] then Snapshot(0, map[]) else
    var best, last := Latest(dir[..|dir| - 1]), dir[|dir| - 1];
    if last.lastSeq > best.lastSeq then last else best
  }

  /** `GlobalLedger::new`, from the snapshots and the segment files it finds. */
  function Recover(k: Codec, dir: seq<Snapshot>, files: seq<SegmentFile>): Option<Snapshot> {
    Resume(k, Latest(dir), files)
  }

  /** The snapshot that is loaded is the newest one, and a snapshot numbered 0 is never loaded. */
  lemma {:induction false} LatestIsNewest(dir: seq<Snapshot>)
    ensures forall s :: s in dir ==> s.lastSeq <= Latest(dir).lastSeq
    ensures Latest(dir) in dir || Latest(dir) == Snapshot(0, map[])
    ensures Latest(dir).lastSeq == 0 ==> Latest(dir) == Snapshot(0, map[])
    decreases |dir|
  {
    if dir != [] {
      var init, last := dir[..|dir| - 1], dir[|dir| - 1];
      assert dir == init + [last];
      LatestIsNewest(init);
    }
  }

  // ----- Exactness -----

  /** The records of a list of commands numbered from `first`. */
  ghost function Logged(cmds: seq<Cmd>, first: nat): seq<LogRecord> {
    if cmds == [] then [] else [LogRecord(first, cmds[0])] + Logged(cmds[1..], first + 1)
  }

  lemma {:induction false} LoggedLength(cmds: seq<Cmd>, first: nat)
    ensures |Logged(cmds, first)| == |cmds|
    decreases |cmds|
  {
    if cmds != [] {
      LoggedLength(cmds[1..], first + 1);
    }
  }

  lemma {:induction false} LoggedAppend(cmds: seq<Cmd>, more: seq<Cmd>, first: nat)
    ensures Logged(cmds + more, first) == Logged(cmds, first) + Logged(more, first + |cmds|)
    decreases |cmds|
  {
    if cmds == [] {
      assert cmds + more == more;
    } else {
      assert (cmds + more)[0] == cmds[0] && (cmds + more)[1..] == cmds[1..] + more;
      LoggedAppend(cmds[1..], more, first + 1);
    }
  }

  ghost predicate FileHolds(k: Codec, f: SegmentFile, s: LoggedSegment) {
    f.start == s.start && exists pad: nat :: f.bytes == EncodeAll(k, s.records) + Zeros(pad)
  }

  ghost predicate FilesHold(k: Codec, files: seq<SegmentFile>, log: seq<LoggedSegment>) {
    |files| == |log| && forall i :: 0 <= i < |files| ==> FileHolds(k, files[i], log[i])
  }

  ghost predicate AllReadable(k: Codec, rs: seq<LogRecord>) {
    forall r :: r in rs ==> Readable(k, r)
  }

  lemma {:induction false} ReplayRecordsAppend(s: Snapshot, rs: seq<LogRecord>, ts: seq<LogRecord>)
    ensures ReplayRecords(s, rs + ts) ==
            match ReplayRecords(s, rs)
            case None => None
            case Some(s') => ReplayRecords(s', ts)
    decreases |rs|
  {
    if rs == [] {
      assert rs + ts == ts;
    } else {
      assert (rs + ts)[0] == rs[0] && (rs + ts)[1..] == rs[1..] + ts;
      match ReplayRecord(s, rs[0])
      case None =>
      case Some(s') => ReplayRecordsAppend(s', rs[1..], ts);
    }
  }

  /** Replaying intact files is replaying the records logged in them. */
  lemma {:induction false} IntactFilesReplayTheLog(k: Codec, s: Snapshot, files: seq<SegmentFile>,
                                                   log: seq<LoggedSegment>)
    requires k.Lawful() && FilesHold(k, files, log) && AllReadable(k, Flatten(log))
    ensures ReplayFiles(k, s, files) == ReplayRecords(s, Flatten(log))
    decreases |files|
  {
    if files != [] {
      var pad: nat :| files[0].bytes == EncodeAll(k, log[0].records) + Zeros(pad);
      assert forall r :: r in log[0].records ==> r in Flatten(log);
      SegmentRoundTrip(k, log[0].records, pad);
      ReplayRecordsAppend(s, log[0].records, Flatten(log[1..]));
      match ReplayRecords(s, log[0].records)
      case None =>
      case Some(s') => IntactFilesReplayTheLog(k, s', files[1..], log[1..]);
    }
  }

  /** `replay_iter`: the iterators of the segments, one after the other. */
  function ReadFiles(k: Codec, files: seq<SegmentFile>): Contents
    decreases |files|
  {
    if files == [] then Contents([], true) else
    var c := ReadAll(k, files[0].bytes);
    if !c.clean then c else
    var rest := ReadFiles(k, files[1..]);
    Contents(c.records + rest.records, rest.clean)
  }

  /** Round trip across any rotations: intact files give back exactly the list that was logged, and
      then end. */
  lemma {:induction false} SegmentsRoundTrip(k: Codec, files: seq<SegmentFile>, log: seq<LoggedSegment>)
    requires k.Lawful() && FilesHold(k, files, log) && AllReadable(k, Flatten(log))
    ensures ReadFiles(k, files) == Contents(Flatten(log), true)
    decreases |files|
  {
    hide ReadAll, EncodeAll;
    if files != [] {
      var pad: nat :| files[0].bytes == EncodeAll(k, log[0].records) + Zeros(pad);
      assert forall r :: r in log[0].records ==> r in Flatten(log);
      SegmentRoundTrip(k, log[0].records, pad);
      SegmentsRoundTrip(k, files[1..], log[1..]);
    }
  }

  /** Replaying is all or nothing: every file has to be clean, and then it is replaying everything that is
      read from them. */
  lemma {:induction false} ReplayIsAllOrNothing(k: Codec, s: Snapshot, files: seq<SegmentFile>)
    ensures var c := ReadFiles(k, files);
            ReplayFiles(k, s, files) == if c.clean then ReplayRecords(s, c.records) else None
    decreases |files|
  {
    hide ReadAll, ReplayRecords;
    if files == [] {
      NoRecords(s);
    } else {
      var c, rest := ReadAll(k, files[0].bytes), ReadFiles(k, files[1..]);
      ReplayRecordsAppend(s, c.records, rest.records);
      match ReplayRecords(s, c.records)
      case None =>
      case Some(s') => ReplayIsAllOrNothing(k, s', files[1..]);
    }
  }

  lemma NoRecords(s: Snapshot)
    ensures ReplayRecords(s, []) == Some(s)
  {
  }

  lemma {:induction false} OneUncleanFile(k: Codec, files: seq<SegmentFile>, i: nat)
    requires i < |files| && !ReadAll(k, files[i].bytes).clean
    ensures !ReadFiles(k, files).clean
    decreases |files|
  {
    hide ReadAll;
    if i > 0 {
      OneUncleanFile(k, files[1..], i - 1);
    }
  }

  /** A record damaged so that its checksum is no longer the one of its bytes makes recovery refuse, in
      whichever of the files from the start index on it is, and whatever comes before and after it. */
  lemma DamageIsRefused(k: Codec, dir: seq<Snapshot>, files: seq<SegmentFile>, i: nat,
                        rs: seq<LogRecord>, check: nat, payload: seq<byte>, tail: seq<byte>)
    requires k.Lawful() && AllReadable(k, rs)
    requires StartIndex(files, Latest(dir).lastSeq) <= i < |files|
    requires 0 < |payload| <= MAX_RECORD_SIZE && check < U32_LIMIT
    requires check != k.crc(LE(|payload|, 4) + payload)
    requires files[i].bytes == EncodeAll(k, rs) + (Frame(|payload|, check, payload) + tail)
    ensures Recover(k, dir, files) == None
  {
    hide EncodeAll, Frame, ReadFiles, ReplayFiles, ReadRecord, Latest, LE;
    var rest := Frame(|payload|, check, payload) + tail;
    FrameOutcome(k, check, payload, tail);
    assert !ReadAll(k, rest).clean;
    ReadBehind(k, rs, rest);
    var from := StartIndex(files, Latest(dir).lastSeq);
    assert files[from..][i - from] == files[i];
    OneUncleanFile(k, files[from..], i - from);
    ReplayIsAllOrNothing(k, Latest(dir), files[from..]);
  }

  /** Replaying numbered records from a state at or after their predecessor reaches the fold. */
  lemma {:induction false} ReplayNumbered(s: Snapshot, cmds: seq<Cmd>, first: nat)
    requires 0 < first <= s.lastSeq + 1
    requires s.lastSeq + 1 - first <= |cmds|
    ensures var t := ApplyAll(s.accts, cmds[s.lastSeq + 1 - first..]);
            ReplayRecords(s, Logged(cmds, first)) ==
            if t.Done? then Some(Snapshot(first + |cmds| - 1, t.accts)) else None
    decreases |cmds|
  {
    var rs := Logged(cmds, first);
    if cmds != [] {
      assert rs[1..] == Logged(cmds[1..], first + 1);
      var skip := s.lastSeq + 1 - first;
      if skip > 0 {
        ReplayNumbered(s, cmds[1..], first + 1);
        assert cmds[1..][skip - 1..] == cmds[skip..];
      } else {
        assert cmds[0..] == cmds;
        match ApplyTx(s.accts, cmds[0])
        case Done(m) =>
          ReplayNumbered(Snapshot(first, m), cmds[1..], first + 1);
          assert cmds[1..][0..] == cmds[1..];
        case _ =>
      }
    }
  }

  /** A first record beyond the next expected number is refused. */
  lemma GapRefused(s: Snapshot, cmds: seq<Cmd>, first: nat)
    requires cmds != [] && first > s.lastSeq + 1
    ensures ReplayRecords(s, Logged(cmds, first)) == None
  {
  }

  /** Of files in order, replay starts with the last one whose name is not above the snapshot, or with the
      first one if all are. */
  lemma {:induction false} StartIndexIsTheLastCovered(files: seq<SegmentFile>, min: nat)
    requires files != [] && forall i, j :: 0 <= i < j < |files| ==> files[i].start <= files[j].start
    ensures var i := StartIndex(files, min);
            && i < |files| && (i == 0 || files[i].start <= min)
            && forall j :: i < j < |files| ==> files[j].start > min
    decreases |files|
  {
    if files[0].start <= min && |files| > 1 {
      StartIndexIsTheLastCovered(files[1..], min);
      assert forall j :: 1 <= j < |files| ==> files[j] == files[1..][j - 1];
    }
  }

  /** The skipped files hold no record after the snapshot, so the chosen start index is safe. */
  lemma {:induction false} StartIndexSkipsOldRecords(files: seq<SegmentFile>, log: seq<LoggedSegment>,
                                                     first: nat, min: nat)
    requires |files| == |log| && forall i :: 0 <= i < |files| ==> files[i].start == log[i].start
    requires Numbered(log, first)
    ensures var i := StartIndex(files, min);
            && Numbered(log[i..], first + |Flatten(log[..i])|)
            && (i > 0 ==> first + |Flatten(log[..i])| <= min)
    decreases |files|
  {
    var i := StartIndex(files, min);
    if i == 0 {
      assert log[0..] == log && log[..0] == [];
    } else {
      StartIndexSkipsOldRecords(files[1..], log[1..], first + |log[0].records|, min);
      var j := StartIndex(files[1..], min);
      assert i == j + 1;
      assert log[1..][..j] == log[..i][1..] && log[1..][j..] == log[i..];
      assert log[..i][0] == log[0];
      if j == 0 {
        assert log[..i][1..] == [];
        assert PartitionPoint(files[1..], min) > 0;
      }
    }
  }

  lemma {:induction false} FlattenOfNumbered(log: seq<LoggedSegment>, first: nat, cmds: seq<Cmd>, j: nat)
    requires Flatten(log) == Logged(cmds, first) && j <= |log|
    ensures var n := |Flatten(log[..j])|;
            n <= |cmds| && Flatten(log[j..]) == Logged(cmds[n..], first + n)
  {
    hide Flatten, Logged;
    assert log == log[..j] + log[j..];
    FlattenAppend(log[..j], log[j..]);
    var n := |Flatten(log[..j])|;
    assert Flatten(log[j..]) == Flatten(log)[n..];
    LoggedLength(cmds, first);
    assert cmds == cmds[..n] + cmds[n..];
    LoggedAppend(cmds[..n], cmds[n..], first);
    LoggedLength(cmds[..n], first);
  }

  /** The state of a successful run after its first `k` commands. */
  ghost function StateAfter(cmds: seq<Cmd>, k: nat): Snapshot
    requires k <= |cmds| && ApplyAll(map[], cmds).Done?
    ensures ApplyAll(map[], cmds[..k]) == Done(StateAfter(cmds, k).accts)
    ensures ApplyAll(StateAfter(cmds, k).accts, cmds[k..]) == ApplyAll(map[], cmds)
    ensures StateAfter(cmds, k).lastSeq == k
  {
    assert cmds == cmds[..k] + cmds[k..];
    ApplyAllAppend(map[], cmds[..k], cmds[k..]);
    Snapshot(k, ApplyAll(map[], cmds[..k]).accts)
  }

  lemma SuffixIntact(c: Codec, files: seq<SegmentFile>, log: seq<LoggedSegment>, i: nat)
    requires FilesHold(c, files, log) && i <= |log|
    ensures FilesHold(c, files[i..], log[i..])
  {
  }

  lemma SuffixReadable(c: Codec, log: seq<LoggedSegment>, i: nat)
    requires AllReadable(c, Flatten(log)) && i <= |log|
    ensures AllReadable(c, Flatten(log[i..]))
  {
    assert log == log[..i] + log[i..];
    FlattenAppend(log[..i], log[i..]);
    forall r | r in Flatten(log[i..]) ensures Readable(c, r) {
      assert r in Flatten(log);
    }
  }

  /** Replaying the files from the `i`-th on replays the records after the first `n`. */
  lemma TailOfFiles(c: Codec, cmds: seq<Cmd>, snap: Snapshot, files: seq<SegmentFile>,
                    log: seq<LoggedSegment>, first: nat, i: nat) returns (n: nat)
    requires c.Lawful() && FilesHold(c, files, log) && AllReadable(c, Flatten(log))
    requires Flatten(log) == Logged(cmds, first) && i <= |log|
    ensures n == |Flatten(log[..i])| <= |cmds|
    ensures ReplayFiles(c, snap, files[i..]) == ReplayRecords(snap, Logged(cmds[n..], first + n))
  {
    hide *;
    SameStarts(c, files, log);
    SuffixIntact(c, files, log, i);
    SuffixReadable(c, log, i);
    FlattenOfNumbered(log, first, cmds, i);
    n := |Flatten(log[..i])|;
    IntactFilesReplayTheLog(c, snap, files[i..], log[i..]);
  }

  /** Whatever start index is chosen, recovery replays the numbered records from some `from` on,
      and it only skips records the snapshot already covers. */
  lemma RecoverReplaysATail(c: Codec, cmds: seq<Cmd>, snap: Snapshot, files: seq<SegmentFile>,
                            log: seq<LoggedSegment>, first: nat) returns (from: nat)
    requires c.Lawful() && FilesHold(c, files, log) && AllReadable(c, Flatten(log))
    requires Numbered(log, first) && Flatten(log) == Logged(cmds, first)
    ensures first <= from <= first + |cmds|
    ensures from > first ==> from <= snap.lastSeq
    ensures Resume(c, snap, files) == ReplayRecords(snap, Logged(cmds[from - first..], from))
  {
    hide *;
    var i := StartIndex(files, snap.lastSeq);
    SameStarts(c, files, log);
    ResumeFrom(c, snap, files);
    StartIndexSkipsOldRecords(files, log, first, snap.lastSeq);
    FlattenOfNone(log);
    var n := TailOfFiles(c, cmds, snap, files, log, first, i);
    from := first + n;
  }

  lemma SameStarts(c: Codec, files: seq<SegmentFile>, log: seq<LoggedSegment>)
    requires FilesHold(c, files, log)
    ensures |files| == |log| && forall i :: 0 <= i < |files| ==> files[i].start == log[i].start
  {
  }

  lemma ResumeFrom(c: Codec, snap: Snapshot, files: seq<SegmentFile>)
    ensures Resume(c, snap, files) == ReplayFiles(c, snap, files[StartIndex(files, snap.lastSeq)..])
  {
  }

  lemma FlattenOfNone(log: seq<LoggedSegment>)
    ensures |Flatten(log[..0])| == 0
  {
  }

  /** The state of recovery from a snapshot after `k` of `cmds` with the accounts `m`: the rest of the
      commands on top of them. */
  ghost function RestOn(cmds: seq<Cmd>, k: nat, m: Accounts): Option<Snapshot>
    requires k <= |cmds|
  {
    var t := ApplyAll(m, cmds[k..]);
    if t.Done? then Some(Snapshot(|cmds|, t.accts)) else None
  }

  /** Records numbered from `from`, replayed over a snapshot after `k` commands, apply the rest. */
  lemma ReplayOverSnapshot(cmds: seq<Cmd>, k: nat, m: Accounts, from: nat)
    requires k <= |cmds| && 1 <= from <= k + 1
    ensures ReplayRecords(Snapshot(k, m), Logged(cmds[from - 1..], from)) == RestOn(cmds, k, m)
  {
    hide ReplayRecords, ApplyAll, Logged;
    var tail := cmds[from - 1..];
    ReplayNumbered(Snapshot(k, m), tail, from);
    assert tail[k + 1 - from..] == cmds[k..];
  }

  /** Recovery from a snapshot after `k` commands and intact segments from number `first` on. */
  lemma RecoverFromSegments(c: Codec, cmds: seq<Cmd>, k: nat, m: Accounts, files: seq<SegmentFile>,
                            log: seq<LoggedSegment>, first: nat)
    requires c.Lawful() && k <= |cmds| && 1 <= first <= |cmds| + 1
    requires FilesHold(c, files, log) && AllReadable(c, Flatten(log))
    requires Numbered(log, first) && Flatten(log) == Logged(cmds[first - 1..], first)
    requires Flatten(log) != [] || k == |cmds|
    ensures Resume(c, Snapshot(k, m), files) == if first <= k + 1 then RestOn(cmds, k, m) else None
  {
    hide Resume, ReplayRecords, ApplyAll, Numbered, AllReadable, FilesHold, RestOn;
    var snap := Snapshot(k, m);
    var from := RecoverReplaysATail(c, cmds[first - 1..], snap, files, log, first);
    assert cmds[first - 1..][from - first..] == cmds[from - 1..];
    if first <= k + 1 {
      ReplayOverSnapshot(cmds, k, m, from);
    } else {
      GapRefused(snap, cmds[from - 1..], from);
    }
  }

  lemma FlattenNothing(log: seq<LoggedSegment>, j: nat)
    requires j == |log|
    ensures Flatten(log[j..]) == []
  {
  }

  /** The segments from the `j`-th on hold the records after the first `n`. */
  lemma KeptSegments(c: Codec, cmds: seq<Cmd>, log: seq<LoggedSegment>, j: nat) returns (n: nat)
    requires Numbered(log, 1) && Flatten(log) == Logged(cmds, 1) && AllReadable(c, Flatten(log)) && j <= |log|
    ensures n <= |cmds| && Numbered(log[j..], n + 1) && Flatten(log[j..]) == Logged(cmds[n..], n + 1)
    ensures AllReadable(c, Flatten(log[j..]))
    ensures if j < |log| then log[j].start == n + 1 else n == |cmds|
  {
    n := |Flatten(log[..j])|;
    SuffixReadable(c, log, j);
    assert log == log[..j] + log[j..];
    NumberedAppend(log[..j], log[j..], 1);
    FlattenOfNumbered(log, 1, cmds, j);
    hide AllReadable, Flatten, Logged;
    if j < |log| {
      assert log[j..][0] == log[j];
    } else {
      assert log[..j] == log;
      LoggedLength(cmds, 1);
    }
  }

  /** Resuming from any snapshot and any suffix `log[j..]` of the segments that keeps the newest records
      applies exactly the commands the snapshot does not cover, or refuses, and refuses whenever the kept
      segments do not reach back to the snapshot. */
  lemma ResumingAppliesTheRest(c: Codec, cmds: seq<Cmd>, k: nat, m: Accounts, log: seq<LoggedSegment>, j: nat,
                               files: seq<SegmentFile>)
    requires c.Lawful() && k <= |cmds| && j <= |log|
    requires Numbered(log, 1) && Flatten(log) == Logged(cmds, 1) && AllReadable(c, Flatten(log))
    requires FilesHold(c, files, log[j..])
    requires Flatten(log[j..]) != [] || k == |cmds|
    ensures Resume(c, Snapshot(k, m), files) ==
            if j == |log| || log[j].start <= k + 1 then RestOn(cmds, k, m) else None
  {
    hide *;
    var n := KeptSegments(c, cmds, log, j);
    if j == |log| {
      FlattenNothing(log, j);
    }
    RecoverFromSegments(c, cmds, k, m, files, log[j..], n + 1);
  }

  /** Recovery with any snapshots and any such suffix of the segments: it applies to the newest snapshot
      exactly the commands that this one does not cover, or refuses. */
  lemma RecoveryAppliesTheRest(c: Codec, cmds: seq<Cmd>, dir: seq<Snapshot>, log: seq<LoggedSegment>, j: nat,
                               files: seq<SegmentFile>)
    requires c.Lawful() && Latest(dir).lastSeq <= |cmds| && j <= |log|
    requires Numbered(log, 1) && Flatten(log) == Logged(cmds, 1) && AllReadable(c, Flatten(log))
    requires FilesHold(c, files, log[j..])
    requires Flatten(log[j..]) != [] || Latest(dir).lastSeq == |cmds|
    ensures var s := Latest(dir);
            Recover(c, dir, files) ==
            if j == |log| || log[j].start <= s.lastSeq + 1 then RestOn(cmds, s.lastSeq, s.accts) else None
  {
    hide Resume, Numbered, Flatten, Logged, AllReadable, FilesHold, RestOn, Latest;
    var s := Latest(dir);
    assert s == Snapshot(s.lastSeq, s.accts);
    ResumingAppliesTheRest(c, cmds, s.lastSeq, s.accts, log, j, files);
  }

  /** Recovery is exact or refuses. For any run of successful commands, any snapshots of states of it, and
      any such suffix of the segments: rebuilding gives the fold of the whole run exactly when the kept
      segments reach back to the newest snapshot, and an error otherwise. It never gives another state. */
  lemma RecoveryExactOrRefuses(c: Codec, cmds: seq<Cmd>, dir: seq<Snapshot>, log: seq<LoggedSegment>, j: nat,
                               files: seq<SegmentFile>)
    requires c.Lawful() && j <= |log| && ApplyAll(map[], cmds).Done?
    requires forall s :: s in dir ==> s.lastSeq <= |cmds| && s == StateAfter(cmds, s.lastSeq)
    requires Numbered(log, 1) && Flatten(log) == Logged(cmds, 1) && AllReadable(c, Flatten(log))
    requires FilesHold(c, files, log[j..])
    requires Flatten(log[j..]) != [] || Latest(dir).lastSeq == |cmds|
    ensures Recover(c, dir, files) ==
            if j == |log| || log[j].start <= Latest(dir).lastSeq + 1 then Some(StateAfter(cmds, |cmds|)) else None
  {
    hide ApplyTx, ApplyAll, Recover, Numbered, Flatten, AllReadable, FilesHold, Logged, StateAfter, Latest;
    LatestIsNewest(dir);
    NothingApplied(cmds);
    var s := Latest(dir);
    RecoveryAppliesTheRest(c, cmds, dir, log, j, files);
    assert s == StateAfter(cmds, s.lastSeq);
    assert cmds[..|cmds|] == cmds;
  }

  lemma NothingApplied(cmds: seq<Cmd>)
    requires ApplyAll(map[], cmds).Done?
    ensures StateAfter(cmds, 0) == Snapshot(0, map[])
  {
    hide ApplyTx;
    assert cmds[..0] == [];
  }

  // ----- Logs in which numbers repeat -----

  /** Segments in the order of their names, none named below a record of an earlier one. Numbers may
      repeat. */
  ghost predicate Ordered(log: seq<LoggedSegment>) {
    forall i, j :: 0 <= i < j < |log| ==>
      log[i].start <= log[j].start && forall r :: r in log[i].records ==> r.seqNo <= log[j].start
  }

  lemma {:induction false} SkipOld(s: Snapshot, past: seq<LogRecord>, rest: seq<LogRecord>)
    requires forall r :: r in past ==> r.seqNo <= s.lastSeq
    ensures ReplayRecords(s, past + rest) == ReplayRecords(s, rest)
    decreases |past|
  {
    if past == [] {
      assert past + rest == rest;
    } else {
      assert (past + rest)[0] == past[0] && (past + rest)[1..] == past[1..] + rest;
      SkipOld(s, past[1..], rest);
    }
  }

  /** Neither a name nor a record is above `n`. */
  ghost predicate Below(log: seq<LoggedSegment>, n: nat) {
    forall i :: 0 <= i < |log| ==> log[i].start <= n && forall r :: r in log[i].records ==> r.seqNo <= n
  }

  lemma OrderedRotate(log: seq<LoggedSegment>, n: nat)
    ensures Ordered(log) && Below(log, n) ==>
              Ordered(log + [LoggedSegment(n, [])]) && Below(log + [LoggedSegment(n, [])], n)
  {
  }

  lemma OrderedWrite(log: seq<LoggedSegment>, s: LoggedSegment, r: LogRecord)
    ensures var grown := log + [s.(records := s.records + [r])];
            Ordered(log + [s]) && Below(log + [s], r.seqNo) ==> Ordered(grown) && Below(grown, r.seqNo)
  {
    var was, grown := log + [s], log + [s.(records := s.records + [r])];
    if Ordered(was) && Below(was, r.seqNo) {
      assert forall i :: 0 <= i < |log| ==> grown[i] == was[i] && grown[|log|].start == was[|log|].start;
      assert forall t :: t in grown[|log|].records ==> t == r || t in was[|log|].records;
    }
  }

  lemma {:induction false} PartitionedByName(files: seq<SegmentFile>, min: nat)
    ensures forall i :: 0 <= i < PartitionPoint(files, min) ==> files[i].start <= min
    decreases |files|
  {
    if files != [] && files[0].start <= min {
      PartitionedByName(files[1..], min);
    }
  }

  lemma {:induction false} InSomeSegment(log: seq<LoggedSegment>, r: LogRecord) returns (i: nat)
    requires r in Flatten(log)
    ensures i < |log| && r in log[i].records
    decreases |log|
  {
    if r in log[0].records {
      i := 0;
    } else {
      var k := InSomeSegment(log[1..], r);
      i := k + 1;
    }
  }

  /** Resuming from a snapshot over ordered segments replays all their records, whichever start index is
      chosen. */
  lemma ResumingReplaysTheLog(c: Codec, s: Snapshot, files: seq<SegmentFile>, log: seq<LoggedSegment>)
    requires c.Lawful() && FilesHold(c, files, log) && AllReadable(c, Flatten(log)) && Ordered(log)
    ensures Resume(c, s, files) == ReplayRecords(s, Flatten(log))
  {
    hide *;
    var i := StartIndex(files, s.lastSeq);
    ResumeFrom(c, s, files);
    SameStarts(c, files, log);
    SuffixIntact(c, files, log, i);
    SuffixReadable(c, log, i);
    IntactFilesReplayTheLog(c, s, files[i..], log[i..]);
    assert log == log[..i] + log[i..];
    FlattenAppend(log[..i], log[i..]);
    SkippedAreCovered(files, log, s.lastSeq);
    SkipOld(s, Flatten(log[..i]), Flatten(log[i..]));
  }

  lemma SkippedAreCovered(files: seq<SegmentFile>, log: seq<LoggedSegment>, min: nat)
    requires |files| == |log| && forall i :: 0 <= i < |files| ==> files[i].start == log[i].start
    requires Ordered(log)
    ensures forall r :: r in Flatten(log[..StartIndex(files, min)]) ==> r.seqNo <= min
  {
    hide Flatten, PartitionPoint;
    var i := StartIndex(files, min);
    PartitionedByName(files, min);
    forall r | r in Flatten(log[..i]) ensures r.seqNo <= min {
      var k := InSomeSegment(log[..i], r);
      assert log[..i][k] == log[k] && log[k].start <= log[i].start;
    }
  }

  /** A command that was logged but failed (the log is written before the command is validated)
      makes every later recovery from a snapshot of the run before it refuse. */
  lemma FailedCommandPoisonsTheLog(cmds: seq<Cmd>, k: nat, bad: Cmd, later: seq<LogRecord>)
    requires k <= |cmds| && ApplyAll(map[], cmds).Done?
    requires !ApplyTx(ApplyAll(map[], cmds).accts, bad).Done?
    ensures ReplayRecords(StateAfter(cmds, k),
                          Logged(cmds, 1) + [LogRecord(|cmds| + 1, bad)] + later) == None
  {
    var rest := [LogRecord(|cmds| + 1, bad)] + later;
    assert Logged(cmds, 1) + [LogRecord(|cmds| + 1, bad)] + later == Logged(cmds, 1) + rest;
    ReplayNumbered(StateAfter(cmds, k), cmds, 1);
    ReplayRecordsAppend(StateAfter(cmds, k), Logged(cmds, 1), rest);
  }

  lemma TwoCommands(m: Accounts, c: Cmd, d: Cmd)
    requires ApplyTx(m, c).Done?
    ensures ApplyAll(m, [c, d]) == ApplyTx(ApplyTx(m, c).accts, d)
  {
    hide ApplyTx;
    assert [c, d][1..] == [d] && [d][1..] == [];
    assert ApplyAll(ApplyTx(m, c).accts, [d]) == ApplyTx(ApplyTx(m, c).accts, d);
  }

  /** Transfers of asset 7 for a user who holds `n` available of it, at version `v`. */
  lemma TransferOfSeven(n: nat, v: nat, c: Cmd)
    requires (c.Deposit? || c.Withdraw?) && c.user == 1 && c.asset == 7
    requires n + c.amount <= U64_MAX && v < U64_MAX
    ensures ApplyTx(map[1 := map[7 := Bal(n, 0, v)]], c) ==
            if c.Deposit? then Done(map[1 := map[7 := Bal(n + c.amount, 0, v + 1)]])
            else if c.amount <= n then Done(map[1 := map[7 := Bal(n - c.amount, 0, v + 1)]])
            else Failed(map[1 := map[7 := Bal(n, 0, v)]])
  {
    var m: Accounts := map[1 := map[7 := Bal(n, 0, v)]];
    var b := ApplyOp(Bal(n, 0, v), TransferOp(c)).bal;
    assert AccountOf(m, 1) == map[7 := Bal(n, 0, v)] && Get(m, 1, 7) == Bal(n, 0, v);
    assert TouchAccount(m[1], 7, TransferOp(c)) == map[7 := b];
    assert m[1 := map[7 := b]] == map[1 := map[7 := b]];
    assert v + 1 == WrapAdd(v, 1);
  }

  /** Why the runs above must consist of successful commands: a tree that failed half-way keeps
      its first half, so after a snapshot of that state the logged tree can succeed on replay and
      recovery silently reaches a state the ledger never had. Here a deposit succeeded under number 1,
      the tree was refused, and the snapshot was taken then. */
  lemma HalfFailedBatchCanBeReplayed() returns (first: Cmd, bad: Cmd, m: Accounts, after: Accounts, rebuilt: Accounts)
    ensures ApplyTx(map[], first) == Done(m) && ApplyTx(m, bad) == Failed(after)
    ensures Latest([Snapshot(1, after)]) == Snapshot(1, after)
    ensures ReplayRecords(Snapshot(1, after), [LogRecord(1, first), LogRecord(2, bad)]) == Some(Snapshot(2, rebuilt))
    ensures rebuilt != m && rebuilt != after
  {
    hide *;
    FirstDeposit();
    first, bad, m, after, rebuilt := HalfFailedTree();
    OnlySnapshot(after);
    SkipOld(Snapshot(1, after), [LogRecord(1, first)], [LogRecord(2, bad)]);
    assert [LogRecord(1, first)] + [LogRecord(2, bad)] == [LogRecord(1, first), LogRecord(2, bad)];
    OneRecord(Snapshot(1, after), LogRecord(2, bad));
    NextRecordApplied(Snapshot(1, after), bad);
  }

  lemma HalfFailedTree() returns (first: Cmd, bad: Cmd, m: Accounts, after: Accounts, rebuilt: Accounts)
    ensures first == Cmd.Deposit(1, 7, 1, 0, 0) && m == map[1 := map[7 := Bal(1, 0, 1)]]
    ensures ApplyTx(m, bad) == Failed(after) && ApplyTx(after, bad) == Done(rebuilt)
    ensures rebuilt != m && rebuilt != after
  {
    hide ApplyTx, ApplyAll;
    var into, out := Cmd.Deposit(1, 7, 5, 0, 0), Cmd.Withdraw(1, 7, 8, 0, 0);
    first, bad := Cmd.Deposit(1, 7, 1, 0, 0), Batch([into, out]);
    m, after := map[1 := map[7 := Bal(1, 0, 1)]], map[1 := map[7 := Bal(6, 0, 2)]];
    rebuilt := map[1 := map[7 := Bal(3, 0, 4)]];
    TransferOfSeven(1, 1, into);
    TransferOfSeven(6, 2, out);
    TransferOfSeven(6, 2, into);
    TransferOfSeven(11, 3, out);
    TwoCommands(m, into, out);
    TwoCommands(after, into, out);
    assert rebuilt[1][7] != after[1][7] && rebuilt[1][7] != m[1][7];
    BatchIsAll(m, [into, out]);
    BatchIsAll(after, [into, out]);
  }

  lemma OnlySnapshot(m: Accounts)
    ensures Latest([Snapshot(1, m)]) == Snapshot(1, m)
  {
    assert [Snapshot(1, m)][..0] == [];
  }

  lemma NextRecordApplied(s: Snapshot, c: Cmd)
    ensures ReplayRecord(s, LogRecord(s.lastSeq + 1, c)) ==
            if ApplyTx(s.accts, c).Done? then Some(Snapshot(s.lastSeq + 1, ApplyTx(s.accts, c).accts)) else None
  {
    hide ApplyTx;
  }

  lemma FirstDeposit()
    ensures ApplyTx(map[], Cmd.Deposit(1, 7, 1, 0, 0)) == Done(map[1 := map[7 := Bal(1, 0, 1)]])
  {
    assert TouchAccount(map[], 7, BalOp.Deposit(1)) == map[7 := Bal(1, 0, 1)];
  }

  lemma OneRecord(s: Snapshot, r: LogRecord)
    ensures ReplayRecords(s, [r]) == ReplayRecord(s, r)
  {
    hide ReplayRecord;
    assert [r][1..] == [];
  }

  lemma BatchIsAll(m: Accounts, cs: seq<Cmd>)
    ensures ApplyTx(m, Batch(cs)) == ApplyAll(m, cs)
  {
  }
}
