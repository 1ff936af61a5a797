/**
 The two-phase commit log on disk: framed records inside segment files.

 The payload serializer and the checksum are library code, so they are parameters. What is proved
 holds for every serializer that reads back what it wrote and for every checksum function at all.
 */
module WalRecord {
  import opened Common
  import opened Bytes

  type Txn = nat
  type u32 = x: int | 0 <= x < 0x1_0000_0000

  datatype CheckpointEntry = CheckpointEntry(txn: Txn, user: string, database: string, decided: bool)

  datatype Record =
    | Begin(txn: Txn, user: string, database: string)
    | Committing(txn: Txn)
    | End(txn: Txn)
    | Checkpoint(active: seq<CheckpointEntry>)

  datatype Error = RecordTooLarge(size: nat) | EmptyRecord | Crc(expected: u32, actual: u32) | InvalidTag(tag: byte) | Decode

  datatype Serde = Serde(ser: Record -> seq<byte>, de: (byte, seq<byte>) -> Option<Record>, crc: seq<byte> -> u32)

  datatype Decoded = NeedMore | Decoded(record: Record, consumed: nat) | Corrupt(error: Error)

  const HEADER_BYTES := 8

  function Tag(r: Record): byte {
    match r
    case Begin(_, _, _) => 1
    case Committing(_) => 2
    case End(_) => 3
    case Checkpoint(_) => 4
  }

  function Body(c: Serde, r: Record): (body: seq<byte>)
    ensures |body| >= 1
  {
    [Tag(r)] + c.ser(r)
  }

  function EncodeRecord(c: Serde, r: Record): Result<seq<byte>, Error> {
    var body := Body(c, r);
    if |body| >= 0x1_0000_0000 then Err(RecordTooLarge(|body|))
    else Ok(PutLE(|body|, 4) + PutLE(c.crc(body), 4) + body)
  }

  function DecodeRecord(c: Serde, buf: seq<byte>): (d: Decoded)
    ensures d.Decoded? ==> HEADER_BYTES < d.consumed <= |buf|
  {
    if |buf| < HEADER_BYTES then NeedMore
    else
      var bodyLen := GetLE(buf[0..4]);
      if bodyLen == 0 then Corrupt(EmptyRecord)
      else
        var total := HEADER_BYTES + bodyLen;
        if |buf| < total then NeedMore
        else
          GetLEBound(buf[4..8]);
          var expected: u32 := GetLE(buf[4..8]);
          var body := buf[8..total];
          var actual := c.crc(body);
          if actual != expected then Corrupt(Crc(expected, actual))
          else if !(1 <= body[0] <= 4) then Corrupt(InvalidTag(body[0]))
          else match c.de(body[0], body[1..])
            case Some(r) => Decoded(r, total)
            case None => Corrupt(Error.Decode)
  }

  lemma GetLEBound(bs: seq<byte>)
    requires |bs| == 4
    ensures GetLE(bs) < 0x1_0000_0000
  {
    assert GetLE(bs) == bs[0] + 256 * GetLE(bs[1..]);
    assert GetLE(bs[1..]) == bs[1] + 256 * GetLE(bs[1..][1..]);
    assert GetLE(bs[1..][1..]) == bs[2] + 256 * GetLE(bs[1..][1..][1..]);
    assert GetLE(bs[1..][1..][1..]) == bs[3] + 256 * GetLE(bs[1..][1..][1..][1..]);
  }

  /** The record can be framed and the serializer reads its payload back. */
  predicate Storable(c: Serde, r: Record) {
    EncodeRecord(c, r).Ok? && c.de(Tag(r), c.ser(r)) == Some(r)
  }

  function Encoded(c: Serde, r: Record): (bs: seq<byte>)
    requires Storable(c, r)
    ensures |bs| > HEADER_BYTES
  {
    EncodeRecord(c, r).value
  }

  lemma FrameLayout(c: Serde, r: Record, rest: seq<byte>)
    requires Storable(c, r)
    ensures var e := Encoded(c, r);
            var body := Body(c, r);
            && |e| == 8 + |body|
            && (e + rest)[0..4] == PutLE(|body|, 4)
            && (e + rest)[4..8] == PutLE(c.crc(body), 4)
            && (e + rest)[8..8 + |body|] == body
            && GetLE(PutLE(|body|, 4)) == |body|
            && GetLE(PutLE(c.crc(body), 4)) == c.crc(body)
  {
    assert Pow256(4) == 0x1_0000_0000;
    GetPutLE(|Body(c, r)|, 4);
    GetPutLE(c.crc(Body(c, r)), 4);
  }

  /** A framed record is read back whole, whatever follows it. */
  lemma DecodeEncoded(c: Serde, r: Record, rest: seq<byte>)
    requires Storable(c, r)
    ensures DecodeRecord(c, Encoded(c, r) + rest) == Decoded(r, |Encoded(c, r)|)
  {
    FrameLayout(c, r, rest);
    assert Body(c, r)[1..] == c.ser(r);
  }

  /** Every proper prefix of a frame asks for more bytes and is never mistaken for a record or an error. */
  lemma DecodeTruncated(c: Serde, r: Record, k: nat)
    requires Storable(c, r) && k < |Encoded(c, r)|
    ensures DecodeRecord(c, Encoded(c, r)[..k]) == NeedMore
  {
    var e := Encoded(c, r);
    FrameLayout(c, r, []);
    assert e + [] == e;
    if k >= 8 {
      assert e[..k][0..4] == e[0..4];
    }
  }

  /** More bytes never change an answer already given: chunk boundaries do not matter. */
  lemma DecodeExtend(c: Serde, buf: seq<byte>, more: seq<byte>)
    requires DecodeRecord(c, buf) != NeedMore
    ensures DecodeRecord(c, buf + more) == DecodeRecord(c, buf)
  {
    assert (buf + more)[0..4] == buf[0..4] && (buf + more)[4..8] == buf[4..8];
    var total := 8 + GetLE(buf[0..4]);
    if total <= |buf| {
      assert (buf + more)[8..total] == buf[8..total];
    }
  }

  // ---- whole segments ----------------------------------------------------

  /** How a segment's record stream ends. */
  datatype Ending = CleanEnd | TornTail | Broken(error: Error)

  /** What a reader gets out of a record stream: the records, how it ended, the last good offset. */
  datatype Scan = Scan(records: seq<Record>, ending: Ending, good: nat)

  function ScanStream(c: Serde, buf: seq<byte>): (s: Scan)
    ensures s.good <= |buf|
    decreases |buf|
  {
    var d := DecodeRecord(c, buf);
    if d.NeedMore? then Scan([], if buf == [] then CleanEnd else TornTail, 0)
    else if d.Corrupt? then Scan([], Broken(d.error), 0)
    else
      var s := ScanStream(c, buf[d.consumed..]);
      Scan([d.record] + s.records, s.ending, d.consumed + s.good)
  }

  predicate AllStorable(c: Serde, rs: seq<Record>) {
    forall i :: 0 <= i < |rs| ==> Storable(c, rs[i])
  }

  function EncodeAll(c: Serde, rs: seq<Record>): seq<byte>
    requires AllStorable(c, rs)
  {
    if rs == [] then [] else Encoded(c, rs[0]) + EncodeAll(c, rs[1..])
  }

  /** How many of the records lie wholly inside the first `k` bytes of the stream. */
  function Whole(c: Serde, rs: seq<Record>, k: nat): (m: nat)
    requires AllStorable(c, rs)
    ensures m <= |rs|
  {
    if rs == [] || k < |Encoded(c, rs[0])| then 0 else 1 + Whole(c, rs[1..], k - |Encoded(c, rs[0])|)
  }

  /**
   A crash may cut the stream at any byte. What is read back is exactly the records that were
   written whole, the rest is reported as a torn tail (never as corruption), and the last good
   offset is where those records end, so truncating there leaves a clean stream.
   */
  lemma {:induction false} ScanTruncatedStream(c: Serde, rs: seq<Record>, k: nat)
    requires AllStorable(c, rs) && k <= |EncodeAll(c, rs)|
    ensures var m := Whole(c, rs, k);
            var kept := EncodeAll(c, rs[..m]);
            && |kept| <= k && kept == EncodeAll(c, rs)[..|kept|]
            && ScanStream(c, EncodeAll(c, rs)[..k])
               == Scan(rs[..m], if k == |kept| then CleanEnd else TornTail, |kept|)
  {
    hide Storable, Encoded, ScanStream;
    ScanEmpty(c);
    var all := EncodeAll(c, rs);
    if rs != [] {
      var first, tail := Encoded(c, rs[0]), EncodeAll(c, rs[1..]);
      var n := |first|;
      if k < n {
        assert all[..k] == first[..k];
        ScanTorn(c, rs[0], k);
      } else {
        var m := Whole(c, rs, k);
        ScanTruncatedStream(c, rs[1..], k - n);
        assert all[..k] == first + tail[..k - n];
        ScanFirst(c, rs[0], tail[..k - n]);
        assert rs[..m] == [rs[0]] + rs[1..][..m - 1];
        assert rs[..m][1..] == rs[1..][..m - 1];
      }
    }
  }

  lemma ScanTorn(c: Serde, r: Record, k: nat)
    requires Storable(c, r) && k < |Encoded(c, r)|
    ensures ScanStream(c, Encoded(c, r)[..k]) == Scan([], if k == 0 then CleanEnd else TornTail, 0)
  {
    hide DecodeRecord, Encoded;
    DecodeTruncated(c, r, k);
  }

  lemma ScanFirst(c: Serde, r: Record, rest: seq<byte>)
    requires Storable(c, r)
    ensures var s := ScanStream(c, rest);
            ScanStream(c, Encoded(c, r) + rest) == Scan([r] + s.records, s.ending, |Encoded(c, r)| + s.good)
  {
    hide DecodeRecord, Encoded;
    DecodeEncoded(c, r, rest);
    assert (Encoded(c, r) + rest)[|Encoded(c, r)|..] == rest;
  }

  lemma ScanEmpty(c: Serde)
    ensures ScanStream(c, []) == Scan([], CleanEnd, 0)
  {
  }

  lemma {:induction false} EncodeAllAppend(c: Serde, rs: seq<Record>, ss: seq<Record>)
    requires AllStorable(c, rs) && AllStorable(c, ss)
    ensures AllStorable(c, rs + ss) && EncodeAll(c, rs + ss) == EncodeAll(c, rs) + EncodeAll(c, ss)
  {
    hide Storable, Encoded;
    if rs == [] {
      assert rs + ss == ss && [] + EncodeAll(c, ss) == EncodeAll(c, ss);
    } else {
      EncodeAllAppend(c, rs[1..], ss);
      assert (rs + ss)[1..] == rs[1..] + ss && (rs + ss)[0] == rs[0];
    }
  }

  /** Records that are there are read, and then whatever follows them. */
  lemma {:induction false} ScanBehind(c: Serde, before: seq<Record>, rest: seq<byte>)
    requires AllStorable(c, before)
    ensures var s := ScanStream(c, rest);
            ScanStream(c, EncodeAll(c, before) + rest) == Scan(before + s.records, s.ending, |EncodeAll(c, before)| + s.good)
  {
    hide Storable, Encoded, ScanStream;
    var s := ScanStream(c, rest);
    if before == [] {
      assert [] + rest == rest && before + s.records == s.records;
    } else {
      ScanBehind(c, before[1..], rest);
      var tail := EncodeAll(c, before[1..]) + rest;
      assert EncodeAll(c, before) + rest == Encoded(c, before[0]) + tail;
      ScanFirst(c, before[0], tail);
      assert [before[0]] + (before[1..] + s.records) == before + s.records;
    }
  }

  /**
   A batch written behind records that are already there and cut at any byte: what is read back is
   the old records and the batch's whole ones, and the tail is torn exactly when the cut falls
   inside a record.
   */
  lemma ScanCutBatch(c: Serde, before: seq<Record>, rs: seq<Record>, k: nat)
    requires AllStorable(c, before) && AllStorable(c, rs) && k <= |EncodeAll(c, rs)|
    ensures var m := Whole(c, rs, k);
            var kept := |EncodeAll(c, rs[..m])|;
            && kept <= k && (k < |EncodeAll(c, rs)| ==> m < |rs|) && (kept < k ==> m < |rs|)
            && ScanStream(c, EncodeAll(c, before) + EncodeAll(c, rs)[..k])
               == Scan(before + rs[..m], if kept == k then CleanEnd else TornTail, |EncodeAll(c, before)| + kept)
  {
    hide Storable, EncodeAll, ScanStream, Whole;
    var m := Whole(c, rs, k);
    ScanTruncatedStream(c, rs, k);
    if m == |rs| { assert rs[..m] == rs; }
    ScanBehind(c, before, EncodeAll(c, rs)[..k]);
  }

  /** Every such outcome is possible: any number of whole records, with or without a torn one behind them. */
  lemma {:induction false} CutReached(c: Serde, rs: seq<Record>, m: nat, torn: bool)
    requires AllStorable(c, rs) && m <= |rs| && (torn ==> m < |rs|)
    ensures var k := |EncodeAll(c, rs[..m])| + if torn then 1 else 0;
            k <= |EncodeAll(c, rs)| && Whole(c, rs, k) == m
  {
    if m == 0 {
      assert rs[..0] == [];
    } else {
      CutReached(c, rs[1..], m - 1, torn);
      assert rs[..m][1..] == rs[1..][..m - 1];
    }
  }

  /** Records followed by bytes that do not pass for one: the records are read, and the bytes decide the ending. */
  lemma ScanThenStop(c: Serde, rs: seq<Record>, rest: seq<byte>)
    requires AllStorable(c, rs) && ScanStream(c, rest).records == []
    ensures ScanStream(c, EncodeAll(c, rs) + rest) == Scan(rs, ScanStream(c, rest).ending, |EncodeAll(c, rs)|)
  {
    hide Storable, EncodeAll, ScanStream;
    StopsAtOnce(c, rest);
    ScanBehind(c, rs, rest);
    assert rs + [] == rs;
  }

  lemma StopsAtOnce(c: Serde, rest: seq<byte>)
    requires ScanStream(c, rest).records == []
    ensures ScanStream(c, rest).good == 0
  {
    hide DecodeRecord;
  }

  /** A length that runs past the end of the file is indistinguishable from a record torn by a crash. */
  lemma LongLengthReadsTorn(c: Serde, r: Record, length: nat, frame: seq<byte>)
    requires Storable(c, r) && |Body(c, r)| < length < 0x1_0000_0000
    requires frame == PutLE(length, 4) + Encoded(c, r)[4..]
    ensures ScanStream(c, frame) == Scan([], TornTail, 0)
  {
    assert Pow256(4) == 0x1_0000_0000;
    GetPutLE(length, 4);
    assert frame[0..4] == PutLE(length, 4);
    FrameLayout(c, r, []);
    assert Encoded(c, r) + [] == Encoded(c, r);
    assert DecodeRecord(c, frame) == NeedMore;
  }

  // ---- the streaming reader ----------------------------------------------

  const SEGMENT_HEADER := 16
  const READ_CHUNK := 65536

  datatype Next = Item(record: Record) | Eof | Torn(offset: nat, unconsumed: nat) | Bad(error: Error)

  /** Iterates the records of a segment file, reading it in chunks of arbitrary size. */
  class SegmentReader {
    const c: Serde
    /** The file's bytes after the segment header. */
    const file: seq<byte>
    var pos: nat
    var buf: seq<byte>
    var lastGoodOffset: nat
    var nextLsn: nat
    var done: bool

    predicate Valid()
      reads this
    {
      && SEGMENT_HEADER <= lastGoodOffset
      && lastGoodOffset - SEGMENT_HEADER <= pos <= |file|
      && buf == file[lastGoodOffset - SEGMENT_HEADER..pos]
    }

    /** The bytes not yet decoded. */
    function Rest(): seq<byte>
      requires Valid()
      reads this
    {
      file[lastGoodOffset - SEGMENT_HEADER..]
    }

    /** How many bytes of the stream were decoded. */
    function Good(): nat
      requires Valid()
      reads this
    {
      lastGoodOffset - SEGMENT_HEADER
    }

    constructor (c: Serde, file: seq<byte>, startLsn: nat)
      ensures Valid() && !done && Rest() == file && nextLsn == startLsn
      ensures this.c == c && this.file == file && lastGoodOffset == SEGMENT_HEADER
    {
      this.c, this.file := c, file;
      pos, buf, lastGoodOffset, nextLsn, done := 0, [], SEGMENT_HEADER, startLsn, false;
    }

    /** Read up to READ_CHUNK bytes; zero bytes only at the end of the file. */
    method ReadChunk() returns (more: bool)
      requires Valid()
      modifies this
      ensures Valid() && lastGoodOffset == old(lastGoodOffset) && nextLsn == old(nextLsn) && done == old(done)
      ensures more <==> old(pos) < |file|
      ensures more ==> pos > old(pos)
      ensures !more ==> pos == old(pos) && pos == |file|
    {
      assert pos < |file| ==> 1 <= READ_CHUNK && pos + 1 <= |file|;
      var n: nat :| n <= READ_CHUNK && pos + n <= |file| && (n == 0 <==> pos == |file|);
      buf := buf + file[pos..pos + n];
      pos := pos + n;
      more := n > 0;
    }

    method ReadNext() returns (r: Next)
      requires Valid()
      modifies this
      ensures Valid()
      ensures old(done) ==> r == Eof && done && Rest() == old(Rest()) && nextLsn == old(nextLsn)
      ensures !old(done) ==>
                var d := DecodeRecord(c, old(Rest()));
                if d.Decoded? then
                  && r == Item(d.record) && !done && Rest() == old(Rest())[d.consumed..]
                  && lastGoodOffset == old(lastGoodOffset) + d.consumed && nextLsn == old(nextLsn) + 1
                else
                  && done && lastGoodOffset == old(lastGoodOffset) && nextLsn == old(nextLsn)
                  && r == if d.Corrupt? then Bad(d.error)
                          else if old(Rest()) == [] then Eof
                          else Torn(lastGoodOffset, |old(Rest())|)
    {
      hide DecodeRecord;
      if done {
        return Eof;
      }
      ghost var rest := Rest();
      var d := DecodeRecord(c, buf);
      while d == NeedMore
        invariant Valid() && !done && Rest() == rest && d == DecodeRecord(c, buf)
        invariant lastGoodOffset == old(lastGoodOffset) && nextLsn == old(nextLsn)
        decreases |file| - pos, d == NeedMore
      {
        var more := ReadChunk();
        if !more {
          done := true;
          assert buf == rest;
          return if buf == [] then Eof else Torn(lastGoodOffset, |buf|);
        }
        d := DecodeRecord(c, buf);
      }
      assert rest == buf + file[pos..];
      DecodeExtend(c, buf, file[pos..]);
      if d.Corrupt? {
        done := true;
        return Bad(d.error);
      }
      buf := buf[d.consumed..];
      lastGoodOffset := lastGoodOffset + d.consumed;
      nextLsn := nextLsn + 1;
      return Item(d.record);
    }
  }

  /** A scan with records already read in front of it. */
  function Preceded(records: seq<Record>, good: nat, t: Scan): Scan {
    Scan(records + t.records, t.ending, good + t.good)
  }

  lemma PrecededByNothing(t: Scan)
    ensures Preceded([], 0, t) == t
  {
    assert [] + t.records == t.records;
  }

  lemma ScanStep(c: Serde, buf: seq<byte>, records: seq<Record>, good: nat)
    ensures var d, whole := DecodeRecord(c, buf), Preceded(records, good, ScanStream(c, buf));
            && (d.NeedMore? ==> whole == Scan(records, if buf == [] then CleanEnd else TornTail, good))
            && (d.Corrupt? ==> whole == Scan(records, Broken(d.error), good))
            && (d.Decoded? ==>
                  whole == Preceded(records + [d.record], good + d.consumed, ScanStream(c, buf[d.consumed..])))
  {
    hide DecodeRecord;
    var d := DecodeRecord(c, buf);
    if d.Decoded? {
      var t := ScanStream(c, buf[d.consumed..]);
      assert records + ([d.record] + t.records) == records + [d.record] + t.records;
    } else {
      assert records + [] == records;
    }
  }

  /** Reading a whole segment record by record, in chunks, gives the scan of its bytes. */
  method ReadAll(c: Serde, file: seq<byte>) returns (s: Scan)
    ensures s == ScanStream(c, file)
  {
    hide DecodeRecord, ScanStream, Preceded;
    PrecededByNothing(ScanStream(c, file));
    var reader := new SegmentReader(c, file, 0);
    var records: seq<Record> := [];
    while true
      invariant reader.Valid() && !reader.done && reader.c == c && reader.file == file
      invariant ScanStream(c, file) == Preceded(records, reader.Good(), ScanStream(c, reader.Rest()))
      decreases |reader.Rest()|
    {
      ScanStep(c, reader.Rest(), records, reader.Good());
      var n := reader.ReadNext();
      match n {
        case Item(r) => records := records + [r];
        case Eof => return Scan(records, CleanEnd, reader.Good());
        case Torn(_, _) => return Scan(records, TornTail, reader.Good());
        case Bad(e) => return Scan(records, Broken(e), reader.Good());
      }
    }
  }
}
