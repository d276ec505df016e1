/** The write-ahead log: one memory-mapped segment and the rolling sequence of segments. */
module Wal {
  import opened Numbers
  import opened Bytes
  import opened LedgerSpec
  import opened WalSpec
  import opened Recovery

  class WalSegment {
    const codec: Codec
    const start: nat
    const mmap: array<byte>
    var cursor: nat
    ghost var records: seq<LogRecord>

    /** The buffer holds the encoded records, then the zeros of a fresh file. */
    ghost predicate Valid()
      reads this, mmap
    {
      && cursor <= mmap.Length
      && mmap[..cursor] == EncodeAll(codec, records)
      && mmap[cursor..] == Zeros(mmap.Length - cursor)
    }

    /** `create`: the file is extended to its full size with zero bytes. */
    constructor (codec: Codec, start: nat, size: nat)
      ensures Valid() && fresh(mmap)
      ensures this.codec == codec && this.start == start && mmap.Length == size
      ensures cursor == 0 && records == []
    {
      this.codec, this.start := codec, start;
      mmap := new byte[size](_ => 0);
      cursor, records := 0, [];
    }

    /** `copy_from_slice` at the cursor, then advance it. */
    method Put(bytes: seq<byte>)
      requires cursor + |bytes| <= mmap.Length
      modifies this`cursor, mmap
      ensures cursor == old(cursor) + |bytes|
      ensures mmap[..cursor] == old(mmap[..cursor]) + bytes
      ensures mmap[cursor..] == old(mmap[cursor..])[|bytes|..]
      ensures old(mmap[cursor..]) == Zeros(old(mmap.Length - cursor)) ==>
                mmap[cursor..] == Zeros(mmap.Length - cursor)
    {
      forall i | 0 <= i < |bytes| {
        mmap[cursor + i] := bytes[i];
      }
      cursor := cursor + |bytes|;
    }

    /** `append`: refused when the record does not fit, otherwise written field by field. */
    method Append(seqNo: nat, cmd: Cmd) returns (ok: bool)
      requires Valid()
      modifies this, mmap
      ensures Valid()
      ensures ok <==> old(cursor) + RecordSize(codec, cmd) <= mmap.Length
      ensures records == if ok then old(records) + [LogRecord(seqNo, cmd)] else old(records)
      ensures cursor == if ok then old(cursor) + RecordSize(codec, cmd) else old(cursor)
      ensures !ok ==> mmap[..] == old(mmap[..])
    {
      var cmdBytes := codec.ser(cmd);
      var dataLen := 8 + |cmdBytes|;
      if cursor + 8 + dataLen > mmap.Length {
        return false;
      }
      WriteFields(seqNo, cmd, cmdBytes);
      ghost var r := LogRecord(seqNo, cmd);
      EncodeSnoc(codec, records, r);
      hide LE, EncodeAll, Encode;
      records := records + [r];
      return true;
    }

    /** The four fields of a record, in file order. */
    method WriteFields(seqNo: nat, cmd: Cmd, cmdBytes: seq<byte>)
      requires cmdBytes == codec.ser(cmd)
      requires cursor + RecordSize(codec, cmd) <= mmap.Length
      requires mmap[cursor..] == Zeros(mmap.Length - cursor)
      modifies this`cursor, mmap
      ensures cursor == old(cursor) + RecordSize(codec, cmd)
      ensures mmap[..cursor] == old(mmap[..cursor]) + Encode(codec, LogRecord(seqNo, cmd))
      ensures mmap[cursor..] == Zeros(mmap.Length - cursor)
    {
      var lenBytes, seqBytes := LE(8 + |cmdBytes|, 4), LE(seqNo, 8);
      var crcBytes := LE(codec.crc(lenBytes + (seqBytes + cmdBytes)), 4);
      hide LE, Encode;
      ghost var before := mmap[..cursor];
      Put(lenBytes);
      Put(crcBytes);
      Put(seqBytes);
      Put(cmdBytes);
      FieldsAreRecord(codec, LogRecord(seqNo, cmd), before);
    }

    ghost function Log(): LoggedSegment
      reads this
    {
      LoggedSegment(start, records)
    }

    method File() returns (f: SegmentFile)
      requires Valid()
      ensures f == SegmentFile(start, mmap[..])
      ensures FileHolds(codec, f, Log())
    {
      f := SegmentFile(start, mmap[..]);
      assert f.bytes == mmap[..cursor] + mmap[cursor..];
      assert f.bytes == EncodeAll(codec, records) + Zeros(mmap.Length - cursor);
    }
  }

  /** The four fields in a row are the record. */
  lemma FieldsAreRecord(k: Codec, r: LogRecord, before: seq<byte>)
    ensures var len := LE(8 + |k.ser(r.cmd)|, 4);
            var body := LE(r.seqNo, 8) + k.ser(r.cmd);
            before + len + LE(k.crc(len + body), 4) + LE(r.seqNo, 8) + k.ser(r.cmd) == before + Encode(k, r)
  {
    assert |LE(r.seqNo, 8)| == 8;
    hide LE;
    var len := LE(8 + |k.ser(r.cmd)|, 4);
    var body := LE(r.seqNo, 8) + k.ser(r.cmd);
    assert Encode(k, r) == len + LE(k.crc(len + body), 4) + body;
  }

  lemma EncodeSnoc(k: Codec, rs: seq<LogRecord>, r: LogRecord)
    ensures EncodeAll(k, rs + [r]) == EncodeAll(k, rs) + Encode(k, r)
  {
    assert (rs + [r])[..|rs + [r]| - 1] == rs;
  }

  /** The log with a record at the end of its last segment. */
  ghost function Extended(log: seq<LoggedSegment>, r: LogRecord): seq<LoggedSegment>
    requires log != []
  {
    var n := |log| - 1;
    log[n := LoggedSegment(log[n].start, log[n].records + [r])]
  }

  lemma ExtendedNew(log: seq<LoggedSegment>, start: nat, r: LogRecord)
    ensures Extended(log + [LoggedSegment(start, [])], r) == log + [LoggedSegment(start, [r])]
  {
    assert [] + [r] == [r];
  }

  /** `RollingWal`: closed files and the segment being written. */
  class RollingWal {
    const codec: Codec
    const segmentSize: nat
    var closed: seq<SegmentFile>
    var current: WalSegment
    ghost const first: nat
    /** What has been logged, segment by segment. */
    ghost var log: seq<LoggedSegment>
    ghost var Repr: set<object>

    ghost predicate Valid()
      reads this, Repr
    {
      && this in Repr && current in Repr && current.mmap in Repr
      && current.Valid() && current.codec == codec && current.mmap.Length == segmentSize
      && |log| == |closed| + 1 && log[|closed|] == current.Log()
      && FilesHold(codec, closed, log[..|closed|])
    }

    ghost function Records(): seq<LogRecord>
      reads this
    {
      Flatten(log)
    }

    /** Records are numbered from `first` on, and segments are named after their first record. */
    ghost predicate InOrder()
      reads this
    {
      Numbered(log, first)
    }

    /** Segments are in the order of their names, and nothing has a number above `n`. */
    ghost predicate OrderedUpTo(n: nat)
      reads this
    {
      Ordered(log) && Below(log, n)
    }

    constructor (codec: Codec, startSeq: nat, segmentSize: nat)
      ensures Valid() && fresh(Repr) && OrderedUpTo(startSeq)
      ensures this.codec == codec && this.segmentSize == segmentSize
      ensures log == [LoggedSegment(startSeq, [])] && InOrder() && first == startSeq
    {
      first := startSeq;
      this.codec, this.segmentSize := codec, segmentSize;
      closed := [];
      var segment := new WalSegment(codec, startSeq, segmentSize);
      current := segment;
      log := [segment.Log()];
      Repr := {this, segment, segment.mmap};
    }

    /** The segment files on disk, oldest first. */
    method Files() returns (files: seq<SegmentFile>)
      requires Valid()
      ensures FilesHold(codec, files, log)
    {
      var last := current.File();
      files := closed + [last];
    }

    /** `rotate`: the current file is closed as it stands and an empty one is started. */
    method Rotate(nextSeq: nat)
      requires Valid()
      modifies this
      ensures Valid() && fresh(Repr - old(Repr)) && current.cursor == 0
      ensures log == old(log) + [LoggedSegment(nextSeq, [])]
      ensures Records() == old(Records())
      ensures old(InOrder()) && nextSeq == first + |old(Records())| ==> InOrder()
      ensures old(OrderedUpTo(nextSeq)) ==> OrderedUpTo(nextSeq)
    {
      hide Ordered, Below, Numbered, Flatten, WalSegment.Valid;
      ghost var s := LoggedSegment(nextSeq, []);
      OrderedRotate(log, nextSeq);
      FlattenAppend(log, [s]);
      FlattenOne(s);
      if InOrder() && nextSeq == first + |Records()| {
        NumberedRotate(log, first, s);
      }
      var file := current.File();
      closed := closed + [file];
      current := new WalSegment(codec, nextSeq, segmentSize);
      log := log + [s];
      Repr := Repr + {current, current.mmap};
    }

    /** Writing into the current segment, without rolling. */
    method Write(seqNo: nat, cmd: Cmd) returns (ok: bool)
      requires Valid()
      modifies Repr
      ensures Valid() && Repr == old(Repr)
      ensures ok <==> old(current.cursor) + RecordSize(codec, cmd) <= segmentSize
      ensures ok ==> Records() == old(Records()) + [LogRecord(seqNo, cmd)]
      ensures ok ==> log == Extended(old(log), LogRecord(seqNo, cmd))
      ensures ok && old(InOrder()) && seqNo == first + |old(Records())| ==> InOrder()
      ensures old(OrderedUpTo(seqNo)) ==> OrderedUpTo(seqNo)
      ensures !ok ==> log == old(log)
    {
      hide Ordered, Below, Numbered, Flatten, RecordSize;
      ghost var front := log[..|closed|];
      assert log == front + [current.Log()];
      NumberedWrite(front, first, current.Log(), LogRecord(seqNo, cmd));
      OrderedWrite(front, current.Log(), LogRecord(seqNo, cmd));
      ok := current.Append(seqNo, cmd);
      log := front + [current.Log()];
    }

    /** `append`: rolls when the clock says so (at any time) and again when the segment is full. It
        fails exactly for a record larger than a whole segment, and then logs nothing. The record goes
        to the end of the last segment, if that has room for it, or to a new one named after it. Either
        way segments stay named after the number of their first record. */
    method Append(seqNo: nat, cmd: Cmd) returns (ok: bool)
      requires Valid()
      modifies Repr
      ensures Valid() && fresh(Repr - old(Repr))
      ensures ok <==> RecordSize(codec, cmd) <= segmentSize
      ensures Records() == if ok then old(Records()) + [LogRecord(seqNo, cmd)] else old(Records())
      ensures ok ==>
                var r := LogRecord(seqNo, cmd);
                || log == old(log) + [LoggedSegment(seqNo, [r])]
                || (log == Extended(old(log), r) && old(current.cursor) + RecordSize(codec, cmd) <= segmentSize)
      ensures old(InOrder()) && seqNo == first + |old(Records())| ==> InOrder()
      ensures old(OrderedUpTo(seqNo)) ==> OrderedUpTo(seqNo)
    {
      hide Ordered, Below, Numbered, Flatten, Extended, RecordSize, WalSegment.Valid;
      ExtendedNew(log, seqNo, LogRecord(seqNo, cmd));
      var timeTrigger: bool := *;
      if timeTrigger {
        Rotate(seqNo);
      }
      ok := Write(seqNo, cmd);
      if !ok {
        Rotate(seqNo);
        ok := Write(seqNo, cmd);
      }
    }
  }
}
