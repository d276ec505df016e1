/** The byte format of a ledger WAL segment and what its iterator reads back
    (`WalSegment::append` and `WalIterator::next` in `src/ledger.rs`). */
module WalSpec {
  import opened Numbers
  import opened Options
  import opened Bytes
  import opened LedgerSpec

  const MAX_RECORD_SIZE: nat := 10 * 1024 * 1024

  /** bincode and CRC-32 are not modelled: any encoding with a left inverse and any checksum. */
  datatype Codec = Codec(ser: Cmd -> seq<byte>, de: seq<byte> -> Option<Cmd>, crc: seq<byte> -> nat)
  {
    ghost predicate Lawful() {
      && (forall c :: de(ser(c)) == Some(c))
      && (forall b :: crc(b) < U32_LIMIT)
    }
  }

  datatype LogRecord = LogRecord(seqNo: nat, cmd: Cmd)

  function RecordSize(k: Codec, c: Cmd): nat {
    16 + |k.ser(c)|
  }

  /** [len: u32][crc: u32][seq: u64][command], where len counts the sequence number too. */
  function Encode(k: Codec, r: LogRecord): seq<byte> {
    var body := LE(r.seqNo, 8) + k.ser(r.cmd);
    LE(|body|, 4) + LE(k.crc(LE(|body|, 4) + body), 4) + body
  }

  function EncodeAll(k: Codec, rs: seq<LogRecord>): seq<byte> {
    if rs == [] then [] else EncodeAll(k, rs[..|rs| - 1]) + Encode(k, rs[|rs| - 1])
  }

  /** One call of the iterator on the unread bytes of a segment. */
  datatype Read = End | Bad | Crash | Item(rec: LogRecord, consumed: nat)

  function ReadRecord(k: Codec, rest: seq<byte>): (r: Read)
    ensures r.Item? ==> 0 < r.consumed <= |rest|
  {
    if |rest| < 4 then End else
    var len := FromLE(rest[..4]);
    if len > MAX_RECORD_SIZE then Bad
    else if len == 0 then End
    else if |rest| < 8 || |rest| < 8 + len then Bad
    else if k.crc(rest[..4] + rest[8..8 + len]) != FromLE(rest[4..8]) then Bad
    else if len < 8 then Crash
    else match k.de(rest[16..8 + len])
         case None => Bad
         case Some(c) => Item(LogRecord(FromLE(rest[8..16]), c), 8 + len)
  }

  /** Everything a segment yields until it ends; `clean` says it ended without an error. */
  datatype Contents = Contents(records: seq<LogRecord>, clean: bool)

  function ReadAll(k: Codec, rest: seq<byte>): Contents
    decreases |rest|
  {
    match ReadRecord(k, rest)
    case Item(r, n) =>
      var tail := ReadAll(k, rest[n..]);
      Contents([r] + tail.records, tail.clean)
    case End => Contents([], true)
    case _ => Contents([], false)
  }

  /** The limits within which the reader takes back what the writer wrote. */
  predicate Readable(k: Codec, r: LogRecord) {
    r.seqNo < TWO_64 && 8 + |k.ser(r.cmd)| <= MAX_RECORD_SIZE
  }

  lemma Powers()
    ensures Pow256(4) == U32_LIMIT && Pow256(8) == TWO_64
  {
    assert Pow256(2) == 65536;
    assert Pow256(4) == 65536 * 65536;
    assert Pow256(6) == 65536 * Pow256(4);
    assert Pow256(8) == 65536 * Pow256(6);
  }

  /** The iterator takes the first record back, whatever follows it. */
  lemma ReadEncoded(k: Codec, r: LogRecord, tail: seq<byte>)
    requires k.Lawful() && Readable(k, r)
    ensures ReadRecord(k, Encode(k, r) + tail) == Item(r, |Encode(k, r)|)
  {
    var body := LE(r.seqNo, 8) + k.ser(r.cmd);
    var len, crc := LE(|body|, 4), LE(k.crc(LE(|body|, 4) + body), 4);
    var rest := Encode(k, r) + tail;
    Powers();
    LERoundTrip(|body|, 4);
    LERoundTrip(k.crc(len + body), 4);
    LERoundTrip(r.seqNo, 8);
    assert rest == len + crc + body + tail;
    assert rest[..4] == len && rest[4..8] == crc && rest[8..8 + |body|] == body;
    assert rest[8..16] == LE(r.seqNo, 8) && rest[16..8 + |body|] == k.ser(r.cmd);
  }

  // ----- The layout of a record, and what becomes of damaged ones -----

  /** Where the writer puts what: the length of what follows the checksum, the checksum over that
      and the length, the sequence number and the command; numbers with their low byte first. */
  lemma RecordLayout(k: Codec, r: LogRecord, i: nat)
    requires k.Lawful() && Readable(k, r)
    ensures var e, length := Encode(k, r), 8 + |k.ser(r.cmd)|;
            && |e| == 8 + length && e[16..] == k.ser(r.cmd)
            && (i < 4 ==> e[i] == (length / Pow256(i)) % 256)
            && (i < 4 ==> e[4 + i] == (k.crc(e[..4] + e[8..]) / Pow256(i)) % 256)
            && (i < 8 ==> e[8 + i] == (r.seqNo / Pow256(i)) % 256)
  {
    hide LE, Pow256;
    var e, body := Encode(k, r), LE(r.seqNo, 8) + k.ser(r.cmd);
    var check := k.crc(LE(|body|, 4) + body);
    assert e[..4] == LE(|body|, 4) && e[8..] == body && e[4..8] == LE(check, 4);
    assert e[16..] == k.ser(r.cmd);
    if i < 4 {
      LEDigits(|body|, 4, i);
      LEDigits(check, 4, i);
      assert e[i] == e[..4][i] && e[4 + i] == e[4..8][i];
    }
    if i < 8 {
      LEDigits(r.seqNo, 8, i);
      assert e[8 + i] == body[i];
    }
  }

  /** A length, a checksum and a payload that need not belong together. */
  function Frame(length: nat, check: nat, payload: seq<byte>): seq<byte> {
    LE(length, 4) + LE(check, 4) + payload
  }

  lemma FrameParts(check: nat, payload: seq<byte>, tail: seq<byte>)
    requires |payload| <= MAX_RECORD_SIZE && check < U32_LIMIT
    ensures var rest := Frame(|payload|, check, payload) + tail;
            && 8 + |payload| <= |rest|
            && rest[..4] == LE(|payload|, 4) && FromLE(rest[..4]) == |payload|
            && FromLE(rest[4..8]) == check && rest[8..8 + |payload|] == payload
  {
    var len, crc := LE(|payload|, 4), LE(check, 4);
    var rest := Frame(|payload|, check, payload) + tail;
    Powers();
    LERoundTrip(|payload|, 4);
    LERoundTrip(check, 4);
    hide LE, FromLE, Pow256, Frame;
    assert rest == len + crc + payload + tail by { FrameIs(|payload|, check, payload); }
    assert rest[..4] == len && rest[4..8] == crc && rest[8..8 + |payload|] == payload;
  }

  lemma FrameIs(length: nat, check: nat, payload: seq<byte>)
    ensures Frame(length, check, payload) == LE(length, 4) + LE(check, 4) + payload
  {
  }

  /** The reader in terms of the parts of a frame. */
  lemma ReadFrame(k: Codec, rest: seq<byte>, n: nat)
    requires 0 < n <= MAX_RECORD_SIZE && 8 + n <= |rest| && FromLE(rest[..4]) == n
    ensures ReadRecord(k, rest) ==
            if k.crc(rest[..4] + rest[8..8 + n]) != FromLE(rest[4..8]) then Bad
            else if n < 8 then Crash
            else if k.de(rest[16..8 + n]).None? then Bad
            else Item(LogRecord(FromLE(rest[8..16]), k.de(rest[16..8 + n]).value), 8 + n)
  {
  }

  lemma SubPayload(rest: seq<byte>, n: nat)
    requires 8 <= n && 8 + n <= |rest|
    ensures rest[8..16] == rest[8..8 + n][..8] && rest[16..8 + n] == rest[8..8 + n][8..]
  {
  }

  /** What the iterator makes of any frame. The stored checksum has to be the one of the stored
      length and payload, and then a payload too short for a sequence number is a crash. */
  lemma FrameOutcome(k: Codec, check: nat, payload: seq<byte>, tail: seq<byte>)
    requires 0 < |payload| <= MAX_RECORD_SIZE && check < U32_LIMIT
    ensures var r := ReadRecord(k, Frame(|payload|, check, payload) + tail);
            var right := check == k.crc(LE(|payload|, 4) + payload);
            && (r.Crash? <==> right && |payload| < 8)
            && (r.Item? <==> right && |payload| >= 8 && k.de(payload[8..]).Some?)
            && (r.Bad? <==> !right || (|payload| >= 8 && k.de(payload[8..]).None?))
            && (r.Item? ==>
                  && r.consumed == 8 + |payload|
                  && LE(r.rec.seqNo, 8) == payload[..8]
                  && k.de(payload[8..]) == Some(r.rec.cmd))
  {
    hide *;
    var rest := Frame(|payload|, check, payload) + tail;
    FrameParts(check, payload, tail);
    ReadFrame(k, rest, |payload|);
    if |payload| >= 8 {
      SubPayload(rest, |payload|);
      LEOfFromLE(payload[..8]);
    }
  }

  /** A frame that breaks off is an error, except inside its length: that is taken for the end. */
  lemma TornFrame(k: Codec, check: nat, payload: seq<byte>, n: nat)
    requires 0 < |payload| <= MAX_RECORD_SIZE && n < 8 + |payload|
    ensures ReadRecord(k, Frame(|payload|, check, payload)[..n]) == if n < 4 then End else Bad
  {
    Powers();
    LERoundTrip(|payload|, 4);
    hide LE, FromLE, Pow256;
    if n >= 4 {
      assert Frame(|payload|, check, payload)[..n][..4] == LE(|payload|, 4);
    }
  }

  /** A stored length of 0 ends the segment, one above the limit is an error, whatever follows. */
  lemma LengthOutcome(k: Codec, length: nat, rest: seq<byte>)
    requires length < U32_LIMIT
    ensures var r := ReadRecord(k, LE(length, 4) + rest);
            && (length == 0 ==> r == End)
            && (length > MAX_RECORD_SIZE ==> r == Bad)
  {
    Powers();
    LERoundTrip(length, 4);
    hide LE, FromLE, Pow256;
    assert (LE(length, 4) + rest)[..4] == LE(length, 4);
  }

  lemma ZerosEnd(k: Codec, n: nat)
    ensures ReadRecord(k, Zeros(n)) == End
  {
    if n >= 4 {
      var z := Zeros(n)[..4];
      assert z == [0, 0, 0, 0];
      assert FromLE([0]) == 0 && [0 as byte, 0][1..] == [0];
      assert [0 as byte, 0, 0][1..] == [0, 0] && [0 as byte, 0, 0, 0][1..] == [0, 0, 0];
      assert FromLE([0, 0]) == 0;
      assert FromLE([0, 0, 0]) == 0;
      assert FromLE(z) == 0;
    }
  }

  lemma {:induction false} EncodeAllCons(k: Codec, r: LogRecord, rs: seq<LogRecord>)
    ensures EncodeAll(k, [r] + rs) == Encode(k, r) + EncodeAll(k, rs)
    decreases |rs|
  {
    var all := [r] + rs;
    if rs == [] {
      assert all[..0] == [];
    } else {
      var front, last := rs[..|rs| - 1], rs[|rs| - 1];
      assert all[..|all| - 1] == [r] + front && all[|all| - 1] == last;
      EncodeAllCons(k, r, front);
    }
  }

  lemma ReadAllFirst(k: Codec, r: LogRecord, tail: seq<byte>)
    requires k.Lawful() && Readable(k, r)
    ensures var c := ReadAll(k, tail);
            ReadAll(k, Encode(k, r) + tail) == Contents([r] + c.records, c.clean)
  {
    ReadEncoded(k, r, tail);
    hide Encode, ReadRecord, Readable;
    assert (Encode(k, r) + tail)[|Encode(k, r)|..] == tail;
  }

  /** Behind any list of readable records the reader goes on with what follows them. */
  lemma {:induction false} ReadBehind(k: Codec, rs: seq<LogRecord>, rest: seq<byte>)
    requires k.Lawful()
    requires forall r :: r in rs ==> Readable(k, r)
    ensures var c := ReadAll(k, rest);
            ReadAll(k, EncodeAll(k, rs) + rest) == Contents(rs + c.records, c.clean)
    decreases |rs|
  {
    hide Encode, ReadAll, Readable;
    if rs == [] {
      assert EncodeAll(k, rs) + rest == rest && rs + ReadAll(k, rest).records == ReadAll(k, rest).records;
    } else {
      var r, later := rs[0], EncodeAll(k, rs[1..]);
      assert rs == [r] + rs[1..];
      EncodeAllCons(k, r, rs[1..]);
      assert Encode(k, r) + later + rest == Encode(k, r) + (later + rest);
      ReadAllFirst(k, r, later + rest);
      ReadBehind(k, rs[1..], rest);
    }
  }

  /** Round trip: a segment file holding any list of readable records, followed by the zero bytes
      it was created with, reads back as exactly that list and then ends cleanly. */
  lemma SegmentRoundTrip(k: Codec, rs: seq<LogRecord>, pad: nat)
    requires k.Lawful()
    requires forall r :: r in rs ==> Readable(k, r)
    ensures ReadAll(k, EncodeAll(k, rs) + Zeros(pad)) == Contents(rs, true)
  {
    hide EncodeAll, ReadRecord, Readable, Zeros;
    ZerosEnd(k, pad);
    ReadBehind(k, rs, Zeros(pad));
  }

  /** The limit is exact: the first record above it makes the reader give up there, although the
      writer accepts any record that fits the segment. */
  lemma OversizedRecordIsUnreadable(k: Codec, r: LogRecord, tail: seq<byte>)
    requires MAX_RECORD_SIZE < 8 + |k.ser(r.cmd)| < U32_LIMIT
    ensures ReadRecord(k, Encode(k, r) + tail) == Bad
  {
    var body := LE(r.seqNo, 8) + k.ser(r.cmd);
    Powers();
    LERoundTrip(|body|, 4);
    assert (Encode(k, r) + tail)[..4] == LE(|body|, 4);
  }
}
