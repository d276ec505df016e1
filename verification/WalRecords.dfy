/** The versioned record stream of `src/common_utils.rs`:
    [version: 1][length: 3][crc: 4][data], big-endian, the checksum over header and data. */
module WalRecords {
  import opened Numbers
  import opened Bytes

  const HEADER_SIZE: nat := 8
  const MAX_LEN: nat := 0xFF_FFFF

  /** CRC32 over several slices is CRC32 over their concatenation; any 32-bit function. */
  type Crc = f: seq<byte> -> nat | forall s :: f(s) < U32_LIMIT witness _ => 0

  datatype Record = Record(version: byte, data: seq<byte>)

  /** `pack_verlen`. */
  function PackVerlen(version: byte, length: nat): (v: nat)
    ensures v < U32_LIMIT
  {
    version * 0x100_0000 + length % 0x100_0000
  }

  /** `unpack_verlen`. */
  function UnpackVerlen(verlen: nat): (byte, nat)
    requires verlen < U32_LIMIT
  {
    (verlen / 0x100_0000, verlen % 0x100_0000)
  }

  /** `wal_record_serialize_v`; longer data fails its assertion. */
  function Serialize(crc: Crc, r: Record): (s: seq<byte>)
    requires |r.data| <= MAX_LEN
    ensures |s| == HEADER_SIZE + |r.data|
  {
    var verlen := BE(PackVerlen(r.version, |r.data|), 4);
    verlen + BE(crc(verlen + r.data), 4) + r.data
  }

  datatype Result =
    | Ok(record: Record, consumed: nat)
    | TooShort
    | ZeroLength
    | CrcMismatch(stored: nat, computed: nat)

  /** `wal_record_deserialize_v`. Its test for a length above 24 bits can never succeed. */
  function Deserialize(crc: Crc, buf: seq<byte>): (r: Result)
    ensures r.Ok? ==> HEADER_SIZE < r.consumed <= |buf|
  {
    if |buf| < HEADER_SIZE then TooShort else
    assert FromBE(buf[..4]) < U32_LIMIT by { FourBytes(buf[..4]); }
    var (version, length) := UnpackVerlen(FromBE(buf[..4]));
    if length == 0 then ZeroLength
    else if |buf| < HEADER_SIZE + length then TooShort
    else
      var data := buf[8..HEADER_SIZE + length];
      var stored, computed := FromBE(buf[4..8]), crc(buf[..4] + data);
      if computed != stored then CrcMismatch(stored, computed)
      else Ok(Record(version, data), HEADER_SIZE + length)
  }

  lemma FourBytes(s: seq<byte>)
    requires |s| == 4
    ensures FromBE(s) < U32_LIMIT && BE(FromBE(s), 4) == s
  {
    BEOfFromBE(s);
    assert Pow256(2) == 0x1_0000 && Pow256(4) == U32_LIMIT;
  }

  lemma BEOfWord(n: nat)
    requires n < U32_LIMIT
    ensures FromBE(BE(n, 4)) == n
  {
    assert Pow256(2) == 0x1_0000 && Pow256(4) == U32_LIMIT;
    BERoundTrip(n, 4);
  }

  // ----- The header -----

  lemma HeaderRoundTrip(version: byte, length: nat)
    ensures UnpackVerlen(PackVerlen(version, length)) == (version, length) <==> length <= MAX_LEN
    ensures forall v: nat :: v < U32_LIMIT ==> PackVerlen(UnpackVerlen(v).0, UnpackVerlen(v).1) == v
  {
  }

  /** The version is the first byte of the header, the length the other three. */
  lemma HeaderLayout(version: byte, length: nat)
    requires length <= MAX_LEN
    ensures BE(PackVerlen(version, length), 4) == [version] + BE(length, 3)
  {
    hide BE;
    assert Pow256(1) == 256 && Pow256(3) == 0x100_0000;
    LowDigits(version, length, 3);
  }

  lemma {:induction false} LowDigits(version: byte, length: nat, k: nat)
    requires length < Pow256(k)
    ensures BE(version * Pow256(k) + length, k + 1) == [version] + BE(length, k)
    decreases k
  {
    var n := version * Pow256(k) + length;
    if k == 0 {
      assert BE(version / 256, 0) == [];
    } else {
      LowDigits(version, length / 256, k - 1);
      PullOut(version, Pow256(k - 1), length);
      assert BE(length, k) == BE(length / 256, k - 1) + [length % 256];
    }
  }

  lemma PullOut(v: nat, p: nat, length: nat)
    ensures (v * (256 * p) + length) / 256 == v * p + length / 256
    ensures (v * (256 * p) + length) % 256 == length % 256
  {
    var q := v * p;
    assert v * (256 * p) == 256 * q;
  }

  /** Where the writer puts what: version, length, the checksum over both and the data, the data; numbers with
      their high byte first. */
  lemma RecordLayout(crc: Crc, r: Record, i: nat)
    requires |r.data| <= MAX_LEN
    ensures var s := Serialize(crc, r);
            && s[0] == r.version && s[8..] == r.data
            && (i < 3 ==> s[3 - i] == (|r.data| / Pow256(i)) % 256)
            && (i < 4 ==> s[7 - i] == (crc(s[..4] + r.data) / Pow256(i)) % 256)
  {
    HeaderLayout(r.version, |r.data|);
    hide BE, Pow256, PackVerlen;
    var s, header := Serialize(crc, r), [r.version] + BE(|r.data|, 3);
    assert s[..4] == header && s[4..8] == BE(crc(header + r.data), 4) && s[8..] == r.data;
    if i < 3 {
      BEDigits(|r.data|, 3, i);
      assert s[3 - i] == s[..4][3 - i];
    }
    if i < 4 {
      BEDigits(crc(header + r.data), 4, i);
      assert s[7 - i] == s[4..8][3 - i];
    }
  }

  // ----- One record -----

  /** Behind a record, whatever follows it, the reader finds exactly that record. */
  lemma RecordRoundTrip(crc: Crc, r: Record, tail: seq<byte>)
    requires 0 < |r.data| <= MAX_LEN
    ensures Deserialize(crc, Serialize(crc, r) + tail) == Ok(r, HEADER_SIZE + |r.data|)
  {
    var verlen := BE(PackVerlen(r.version, |r.data|), 4);
    var check := BE(crc(verlen + r.data), 4);
    var buf := Serialize(crc, r) + tail;
    BEOfWord(PackVerlen(r.version, |r.data|));
    BEOfWord(crc(verlen + r.data));
    HeaderRoundTrip(r.version, |r.data|);
    hide BE, FromBE, PackVerlen, UnpackVerlen;
    assert buf[..4] == verlen && buf[4..8] == check;
    assert buf[8..HEADER_SIZE + |r.data|] == r.data;
  }

  /** Canonical form: the bytes of a record that was read are the ones the writer would write. */
  lemma ReadIsCanonical(crc: Crc, buf: seq<byte>)
    requires Deserialize(crc, buf).Ok?
    ensures var r := Deserialize(crc, buf);
            && 0 < |r.record.data| <= MAX_LEN
            && r.consumed == HEADER_SIZE + |r.record.data|
            && buf[..r.consumed] == Serialize(crc, r.record)
  {
    var r := Deserialize(crc, buf);
    FourBytes(buf[..4]);
    FourBytes(buf[4..8]);
    HeaderRoundTrip(r.record.version, |r.record.data|);
    hide BE, FromBE;
    assert buf[..r.consumed] == buf[..4] + buf[4..8] + buf[8..r.consumed];
  }

  /** A record that was cut off anywhere is recognised as too short. */
  lemma TruncatedIsTooShort(crc: Crc, r: Record, n: nat)
    requires 0 < |r.data| <= MAX_LEN && n < HEADER_SIZE + |r.data|
    ensures Deserialize(crc, Serialize(crc, r)[..n]) == TooShort
  {
    if n >= HEADER_SIZE {
      BEOfWord(PackVerlen(r.version, |r.data|));
      HeaderRoundTrip(r.version, |r.data|);
      hide BE, FromBE, PackVerlen, UnpackVerlen;
      assert Serialize(crc, r)[..n][..4] == BE(PackVerlen(r.version, |r.data|), 4);
    }
  }

  /** Whatever checksum is stored, header and data are taken if and only if it is the right one;
      otherwise both checksums are reported. */
  lemma ChecksumDecides(crc: Crc, r: Record, stored: nat, tail: seq<byte>)
    requires 0 < |r.data| <= MAX_LEN && stored < U32_LIMIT
    ensures var header := [r.version] + BE(|r.data|, 3);
            var computed := crc(header + r.data);
            Deserialize(crc, header + BE(stored, 4) + r.data + tail) ==
            if stored == computed then Ok(r, HEADER_SIZE + |r.data|) else CrcMismatch(stored, computed)
  {
    var header := [r.version] + BE(|r.data|, 3);
    var buf := header + BE(stored, 4) + r.data + tail;
    HeaderLayout(r.version, |r.data|);
    BEOfWord(PackVerlen(r.version, |r.data|));
    BEOfWord(stored);
    HeaderRoundTrip(r.version, |r.data|);
    hide BE, FromBE, PackVerlen, UnpackVerlen;
    assert buf[..4] == header && buf[4..8] == BE(stored, 4) && buf[8..HEADER_SIZE + |r.data|] == r.data;
  }

  /** Empty data is written but never read back. */
  lemma EmptyIsRefused(crc: Crc, version: byte, tail: seq<byte>)
    ensures Deserialize(crc, Serialize(crc, Record(version, [])) + tail) == ZeroLength
  {
    BEOfWord(PackVerlen(version, 0));
    HeaderRoundTrip(version, 0);
    hide BE, FromBE, PackVerlen, UnpackVerlen;
    assert (Serialize(crc, Record(version, [])) + tail)[..4] == BE(PackVerlen(version, 0), 4);
  }

  // ----- Streams -----

  ghost predicate Writable(rs: seq<Record>) {
    forall i :: 0 <= i < |rs| ==> 0 < |rs[i].data| <= MAX_LEN
  }

  function SerializeAll(crc: Crc, rs: seq<Record>): seq<byte>
    requires forall i :: 0 <= i < |rs| ==> |rs[i].data| <= MAX_LEN
  {
    if rs == [] then [] else Serialize(crc, rs[0]) + SerializeAll(crc, rs[1..])
  }

  /** What reading record after record yields: the records, the unread rest, and why it stopped. */
  datatype Read = Read(records: seq<Record>, rest: seq<byte>, stop: Result)

  function ReadAll(crc: Crc, buf: seq<byte>): Read
    decreases |buf|
  {
    var r := Deserialize(crc, buf);
    if !r.Ok? then Read([], buf, r) else
    var more := ReadAll(crc, buf[r.consumed..]);
    Read([r.record] + more.records, more.rest, more.stop)
  }

  /** For every list of records with non-empty data of at most 2^24 - 1 bytes, followed by anything
      the reader does not take for a record: reading the stream gives the same list and leaves
      exactly what follows it. */
  lemma {:induction false} StreamRoundTrip(crc: Crc, rs: seq<Record>, tail: seq<byte>)
    requires Writable(rs) && !Deserialize(crc, tail).Ok?
    ensures ReadAll(crc, SerializeAll(crc, rs) + tail) == Read(rs, tail, Deserialize(crc, tail))
    decreases |rs|
  {
    hide Deserialize, Serialize, SerializeAll, ReadAll;
    ReadFirst(crc, SerializeAll(crc, rs) + tail);
    SerializeFirst(crc, rs, tail);
    if rs != [] {
      var later := SerializeAll(crc, rs[1..]) + tail;
      RecordRoundTrip(crc, rs[0], later);
      StreamRoundTrip(crc, rs[1..], tail);
      assert (Serialize(crc, rs[0]) + later)[|Serialize(crc, rs[0])|..] == later;
      assert rs == [rs[0]] + rs[1..];
    }
  }

  lemma ReadFirst(crc: Crc, buf: seq<byte>)
    ensures var r := Deserialize(crc, buf);
            ReadAll(crc, buf) ==
            if !r.Ok? then Read([], buf, r)
            else var more := ReadAll(crc, buf[r.consumed..]);
                 Read([r.record] + more.records, more.rest, more.stop)
  {
    hide Deserialize;
  }

  lemma SerializeFirst(crc: Crc, rs: seq<Record>, tail: seq<byte>)
    requires Writable(rs)
    ensures rs == [] ==> SerializeAll(crc, rs) + tail == tail
    ensures rs != [] ==>
              SerializeAll(crc, rs) + tail == Serialize(crc, rs[0]) + (SerializeAll(crc, rs[1..]) + tail)
  {
    hide Serialize;
  }

  /** In particular a whole stream is consumed to the last byte. */
  lemma WholeStreamIsConsumed(crc: Crc, rs: seq<Record>)
    requires Writable(rs)
    ensures ReadAll(crc, SerializeAll(crc, rs)) == Read(rs, [], TooShort)
  {
    hide SerializeAll, ReadAll;
    StreamRoundTrip(crc, rs, []);
    assert SerializeAll(crc, rs) + [] == SerializeAll(crc, rs);
  }

  /** A stream that breaks off inside a record gives all records before it. */
  lemma TornStream(crc: Crc, rs: seq<Record>, torn: Record, n: nat)
    requires Writable(rs) && 0 < |torn.data| <= MAX_LEN && n < HEADER_SIZE + |torn.data|
    ensures var tail := Serialize(crc, torn)[..n];
            ReadAll(crc, SerializeAll(crc, rs) + tail) == Read(rs, tail, TooShort)
  {
    hide SerializeAll, ReadAll, Deserialize, Serialize;
    TruncatedIsTooShort(crc, torn, n);
    StreamRoundTrip(crc, rs, Serialize(crc, torn)[..n]);
  }
}
