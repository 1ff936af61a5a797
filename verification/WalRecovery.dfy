/** Recovery: replay every segment, quarantine the corrupt ones, hand in-flight transactions back. */
module WalRecovery {
  import opened Common
  import opened Bytes
  import opened WalRecord
  import opened WalLog

  datatype Phase = Phase1 | Phase2 | Rollback

  const MAGIC: seq<byte> := [0x50, 0x47, 0x32, 0x57]

  /** A `<start>.wal` file. */
  datatype SegmentFile = SegmentFile(start: nat, bytes: seq<byte>)

  function Load(c: Serde, f: SegmentFile): Segment {
    if |f.bytes| < SEGMENT_HEADER || f.bytes[..4] != MAGIC then Segment(f.start, false, [], CleanEnd)
    else
      var s := ScanStream(c, f.bytes[SEGMENT_HEADER..]);
      Segment(f.start, true, s.records, s.ending)
  }

  function LoadAll(c: Serde, fs: seq<SegmentFile>): (disk: seq<Segment>)
    ensures |disk| == |fs|
    ensures forall i :: 0 <= i < |fs| ==> disk[i] == Load(c, fs[i])
  {
    seq(|fs|, i requires 0 <= i < |fs| => Load(c, fs[i]))
  }

  /** A segment recovery leaves in place. */
  predicate Intact(s: Segment) {
    s.header && s.ending.CleanEnd?
  }

  /** A last segment recovery goes on writing to: a torn tail is normal there. */
  predicate Writable(s: Segment) {
    s.header && !s.ending.Broken?
  }

  /** Some segment is quarantined. */
  predicate Corrupted(disk: seq<Segment>) {
    || (exists i :: 0 <= i < |disk| - 1 && !Intact(disk[i]))
    || (|disk| > 0 && !Writable(disk[|disk| - 1]))
  }

  /** The LSN after the last record read; 0 if no segment could be opened. */
  function NextLsn(disk: seq<Segment>): nat {
    if disk == [] then 0
    else if disk[|disk| - 1].header then disk[|disk| - 1].start + |disk[|disk| - 1].records|
    else NextLsn(disk[..|disk| - 1])
  }

  function Survivors(disk: seq<Segment>): seq<Segment> {
    if disk == [] then []
    else Survivors(disk[..|disk| - 1]) + if Intact(disk[|disk| - 1]) then [disk[|disk| - 1]] else []
  }

  /** The segments a recovery leaves on disk. */
  function After(disk: seq<Segment>): (left: seq<Segment>)
    ensures |left| > 0
  {
    if disk == [] then [Segment(0, true, [], CleanEnd)]
    else
      var last := disk[|disk| - 1];
      Survivors(disk[..|disk| - 1])
      + [if Writable(last) then last.(ending := CleanEnd) else Segment(NextLsn(disk), true, [], CleanEnd)]
  }

  /** The transactions handed back to the manager, with the phase each is driven to completion from. */
  function Restored(w: Table, corruption: bool): (p: map<Txn, Phase>)
    ensures forall t :: t in p <==> t in w && (w[t].decided || !corruption)
    ensures forall t :: t in p ==> p[t] == if w[t].decided then Phase2 else Phase1
  {
    map t | t in w && (w[t].decided || !corruption) :: if w[t].decided then Phase2 else Phase1
  }

  function RestoredSnapshot(w: Table, corruption: bool): Table {
    map t | t in w && (w[t].decided || !corruption) :: w[t]
  }

  datatype Recovered = Recovered(files: seq<SegmentFile>, snapshot: Table, phases: map<Txn, Phase>, nextLsn: nat)

  datatype RecoverError = SegmentExists(start: nat)

  // ---- the procedure -------------------------------------------------------

  method Restore(w: Table, corruption: bool) returns (snapshot: Table, phases: map<Txn, Phase>)
    ensures snapshot == RestoredSnapshot(w, corruption) && phases == Restored(w, corruption)
  {
    snapshot, phases := map[], map[];
    var todo := w.Keys;
    while todo != {}
      invariant todo <= w.Keys
      invariant snapshot == map t | t in w && t !in todo && (w[t].decided || !corruption) :: w[t]
      invariant phases == map t | t in w && t !in todo && (w[t].decided || !corruption) :: if w[t].decided then Phase2 else Phase1
      decreases |todo|
    {
      var t :| t in todo;
      todo := todo - {t};
      if w[t].decided || !corruption {
        snapshot := snapshot[t := w[t]];
        phases := phases[t := if w[t].decided then Phase2 else Phase1];
      }
    }
  }

  method Drain(working: Table, rs: seq<Record>) returns (w: Table)
    ensures w == Replay(working, rs)
  {
    w := working;
    for i := 0 to |rs|
      invariant w == Replay(working, rs[..i])
    {
      w := ApplyInPlace(w, rs[i]);
      assert rs[..i + 1][..i] == rs[..i];
    }
    assert rs[..|rs|] == rs;
  }

  /** Open a segment and read it to its end; `good` is the file offset where its records end. */
  method ReadSegment(c: Serde, f: SegmentFile) returns (s: Segment, good: nat)
    ensures s == Load(c, f)
    ensures s.header ==> good <= |f.bytes| && Load(c, SegmentFile(f.start, f.bytes[..good])) == s.(ending := CleanEnd)
  {
    if |f.bytes| < SEGMENT_HEADER || f.bytes[..4] != MAGIC {
      return Segment(f.start, false, [], CleanEnd), 0;
    }
    var scan := ReadAll(c, f.bytes[SEGMENT_HEADER..]);
    TruncateIsClean(c, f);
    return Segment(f.start, true, scan.records, scan.ending), SEGMENT_HEADER + scan.good;
  }

  lemma LoadAllAppend(c: Serde, fs: seq<SegmentFile>, f: SegmentFile)
    ensures LoadAll(c, fs + [f]) == LoadAll(c, fs) + [Load(c, f)]
    ensures (LoadAll(c, fs) + [Load(c, f)])[..|fs|] == LoadAll(c, fs)
  {
  }

  /** Replay the segments before the last one, setting the corrupt ones aside. */
  method DrainPrior(c: Serde, files: seq<SegmentFile>)
    returns (working: Table, corruption: bool, next: nat, kept: seq<SegmentFile>)
    ensures var disk := LoadAll(c, files);
            && working == ReplayDisk(disk) && next == NextLsn(disk)
            && LoadAll(c, kept) == Survivors(disk)
            && (corruption <==> exists i :: 0 <= i < |disk| && !Intact(disk[i]))
  {
    hide Load, Replay, LoadAll;
    working, corruption, next, kept := map[], false, 0, [];
    LoadAllNone(c);
    ReplayNone();
    ghost var disk := [];
    for i := 0 to |files|
      invariant disk == LoadAll(c, files[..i])
      invariant working == ReplayDisk(disk) && next == NextLsn(disk)
      invariant LoadAll(c, kept) == Survivors(disk)
      invariant corruption <==> exists j :: 0 <= j < |disk| && !Intact(disk[j])
    {
      var s, _ := ReadSegment(c, files[i]);
      ghost var before := disk;
      LoadAllAppend(c, files[..i], files[i]);
      assert files[..i + 1] == files[..i] + [files[i]];
      disk := disk + [s];
      assert disk[..i] == before;
      ReplayAppend(map[], Flatten(before), s.records);
      if !s.header {
        corruption := true;
        assert !Intact(disk[i]) && Load(c, files[i]).records == [] by { NoHeaderNoRecords(c, files[i]); }
      } else {
        working := Drain(working, s.records);
        next := s.start + |s.records|;
        if s.ending.CleanEnd? {
          LoadAllAppend(c, kept, files[i]);
          kept := kept + [files[i]];
        } else {
          corruption := true;
          assert !Intact(disk[i]);
        }
      }
    }
    assert files[..|files|] == files;
  }

  lemma LoadAllNone(c: Serde)
    ensures LoadAll(c, []) == []
  {
  }

  lemma NoHeaderNoRecords(c: Serde, f: SegmentFile)
    requires !Load(c, f).header
    ensures Load(c, f).records == []
  {
  }

  /** Replay the last segment; it stays writable, cut at its last good offset, unless it is corrupt. */
  method DrainLast(c: Serde, f: SegmentFile, working: Table, next: nat)
    returns (w: Table, n: nat, writable: Option<SegmentFile>)
    ensures var s := Load(c, f);
            && w == Replay(working, s.records)
            && n == (if s.header then s.start + |s.records| else next)
            && (writable.Some? <==> Writable(s))
            && (writable.Some? ==> Load(c, writable.value) == s.(ending := CleanEnd))
  {
    hide Load;
    var s, good := ReadSegment(c, f);
    if !s.header {
      NoHeaderNoRecords(c, f);
      return working, next, None;
    }
    w := Drain(working, s.records);
    n := s.start + |s.records|;
    writable := if s.ending.Broken? then None else Some(SegmentFile(f.start, f.bytes[..good]));
  }

  predicate StartTaken(disk: seq<Segment>, n: nat) {
    exists i :: 0 <= i < |disk| && disk[i].start == n
  }

  /** Recovery needs a new segment, and a surviving one already has its name. */
  predicate NameTaken(disk: seq<Segment>) {
    disk != [] && !Writable(disk[|disk| - 1]) && StartTaken(Survivors(disk[..|disk| - 1]), NextLsn(disk))
  }

  /** Create an empty segment next to the kept ones; a file of that name must not exist. */
  method CreateSegment(c: Serde, kept: seq<SegmentFile>, start: nat) returns (f: Option<SegmentFile>)
    ensures f == None <==> StartTaken(LoadAll(c, kept), start)
    ensures f.Some? ==> Load(c, f.value) == Segment(start, true, [], CleanEnd)
  {
    var disk := LoadAll(c, kept);
    if exists i :: 0 <= i < |disk| && disk[i].start == start {
      return None;
    }
    var header: seq<byte> := MAGIC + seq(12, _ => 0);
    EmptySegment(c, start, header);
    return Some(SegmentFile(start, header));
  }

  method RecoverTransactions(c: Serde, files: seq<SegmentFile>) returns (r: Result<Recovered, RecoverError>)
    ensures var disk := LoadAll(c, files);
            match r
            case Ok(v) =>
              && v.phases == Restored(ReplayDisk(disk), Corrupted(disk))
              && v.snapshot == RestoredSnapshot(ReplayDisk(disk), Corrupted(disk))
              && LoadAll(c, v.files) == After(disk) && v.nextLsn == NextLsn(disk)
            case Err(SegmentExists(n)) => NameTaken(disk) && n == NextLsn(disk)
    ensures r.Err? <==> NameTaken(LoadAll(c, files))
  {
    hide Load;
    var f: Option<SegmentFile>;
    if files == [] {
      f := CreateSegment(c, [], 0);
      LoadAllAppend(c, [], f.value);
      assert [] + [f.value] == [f.value];
      return Ok(Recovered([f.value], map[], map[], 0));
    }
    ghost var disk := LoadAll(c, files);
    var n := |files| - 1;
    var working, corruption, next, kept := DrainPrior(c, files[..n]);
    assert LoadAll(c, files[..n]) == disk[..n];
    working, next, f := DrainLast(c, files[n], working, next);
    ReplayAppend(map[], Flatten(disk[..n]), disk[n].records);
    corruption := corruption || f.None?;
    CorruptedSplit(disk);
    var snapshot, phases := Restore(working, corruption);
    if f == None {
      f := CreateSegment(c, kept, next);
      if f == None {
        return Err(SegmentExists(next));
      }
    }
    LoadAllAppend(c, kept, f.value);
    return Ok(Recovered(kept + [f.value], snapshot, phases, next));
  }

  lemma CorruptedSplit(disk: seq<Segment>)
    requires disk != []
    ensures var n := |disk| - 1;
            Corrupted(disk) <==> (exists i :: 0 <= i < |disk[..n]| && !Intact(disk[..n][i])) || !Writable(disk[n])
  {
    var n := |disk| - 1;
    if i :| 0 <= i < n && !Intact(disk[i]) {
      assert !Intact(disk[..n][i]);
    }
  }

  lemma EmptySegment(c: Serde, start: nat, header: seq<byte>)
    requires header == MAGIC + seq(12, _ => 0)
    ensures Load(c, SegmentFile(start, header)) == Segment(start, true, [], CleanEnd)
  {
    assert header[SEGMENT_HEADER..] == [];
    assert header[..4] == MAGIC;
    ScanEmpty(c);
  }

  lemma DecodeShrink(c: Serde, buf: seq<byte>, m: nat)
    requires DecodeRecord(c, buf).Decoded? && DecodeRecord(c, buf).consumed <= m <= |buf|
    ensures DecodeRecord(c, buf[..m]) == DecodeRecord(c, buf)
  {
    var total := DecodeRecord(c, buf).consumed;
    assert buf[..m][0..4] == buf[0..4] && buf[..m][4..8] == buf[4..8] && buf[..m][8..total] == buf[8..total];
  }

  lemma {:induction false} ScanGoodPrefix(c: Serde, buf: seq<byte>)
    ensures var s := ScanStream(c, buf);
            ScanStream(c, buf[..s.good]) == Scan(s.records, CleanEnd, s.good)
    decreases |buf|
  {
    hide DecodeRecord;
    var s := ScanStream(c, buf);
    match DecodeRecord(c, buf) {
      case Decoded(r, n) =>
        ScanGoodPrefix(c, buf[n..]);
        DecodeShrink(c, buf, s.good);
        assert buf[..s.good][n..] == buf[n..][..s.good - n];
      case _ =>
        assert buf[..0] == [];
        ScanEmpty(c);
    }
  }

  /** Cutting the file at the last good offset leaves the same records and a clean end. */
  lemma TruncateIsClean(c: Serde, f: SegmentFile)
    requires Load(c, f).header
    ensures var good := ScanStream(c, f.bytes[SEGMENT_HEADER..]).good;
            Load(c, SegmentFile(f.start, f.bytes[..SEGMENT_HEADER + good])) == Load(c, f).(ending := CleanEnd)
  {
    var body := f.bytes[SEGMENT_HEADER..];
    var good := ScanStream(c, body).good;
    ScanGoodPrefix(c, body);
    var cut := f.bytes[..SEGMENT_HEADER + good];
    assert cut[SEGMENT_HEADER..] == body[..good] && cut[..4] == f.bytes[..4];
  }

  /** A segment file whose last batch was cut at any byte, as recovery reads it. */
  lemma LoadCut(c: Serde, start: nat, header: seq<byte>, before: seq<Record>, rs: seq<Record>, k: nat)
    requires |header| == SEGMENT_HEADER && header[..4] == MAGIC
    requires AllStorable(c, before) && AllStorable(c, rs) && k <= |EncodeAll(c, rs)|
    ensures var m := Whole(c, rs, k);
            && m <= |rs| && |EncodeAll(c, rs[..m])| <= k && (|EncodeAll(c, rs[..m])| < k ==> m < |rs|)
            && Load(c, SegmentFile(start, header + EncodeAll(c, before) + EncodeAll(c, rs)[..k]))
               == Segment(start, true, before + rs[..m], if |EncodeAll(c, rs[..m])| < k then TornTail else CleanEnd)
  {
    var body := EncodeAll(c, before) + EncodeAll(c, rs)[..k];
    var bytes := header + EncodeAll(c, before) + EncodeAll(c, rs)[..k];
    assert bytes[SEGMENT_HEADER..] == body && bytes[..4] == header[..4];
    ScanCutBatch(c, before, rs, k);
  }

  // ---- what recovery guarantees ----------------------------------------------

  lemma {:induction false} SurvivorsIntact(disk: seq<Segment>)
    ensures forall i :: 0 <= i < |Survivors(disk)| ==> Intact(Survivors(disk)[i])
    ensures (forall i :: 0 <= i < |disk| ==> Intact(disk[i])) ==> Survivors(disk) == disk
  {
    if disk != [] {
      SurvivorsIntact(disk[..|disk| - 1]);
      assert disk == disk[..|disk| - 1] + [disk[|disk| - 1]];
    }
  }

  /** No segment left behind is corrupt, so the next recovery cannot know that one ever was. */
  lemma CorruptionIsForgotten(disk: seq<Segment>)
    ensures !Corrupted(After(disk))
  {
    if disk != [] { SurvivorsIntact(disk[..|disk| - 1]); }
  }

  /**
   A logged transaction goes missing from a recovery exactly when it is undecided and the recovery
   leaves fewer files in place than it found.
   */
  lemma SkippedIff(disk: seq<Segment>, t: Txn)
    requires t in ReplayDisk(disk)
    ensures t !in Restored(ReplayDisk(disk), Corrupted(disk)) <==>
            && Undecided(ReplayDisk(disk), t)
            && |Survivors(disk[..|disk| - 1])| + (if Writable(disk[|disk| - 1]) then 1 else 0) < |disk|
  {
    SurvivorsCount(disk[..|disk| - 1]);
    CorruptedSplit(disk);
  }

  lemma {:induction false} SurvivorsCount(disk: seq<Segment>)
    ensures |Survivors(disk)| <= |disk|
    ensures |Survivors(disk)| == |disk| <==> forall i :: 0 <= i < |disk| ==> Intact(disk[i])
  {
    if disk != [] {
      var front := disk[..|disk| - 1];
      SurvivorsCount(front);
      assert forall i :: 0 <= i < |front| ==> front[i] == disk[i];
    }
  }

  /** The disk a recovery leaves replays, without corruption, to the same table. */
  lemma CleanRecovery(disk: seq<Segment>)
    requires !Corrupted(disk)
    ensures ReplayDisk(After(disk)) == ReplayDisk(disk)
    ensures RestoredSnapshot(ReplayDisk(disk), Corrupted(disk)) == ReplayDisk(disk)
    ensures Contiguous(disk) ==> Contiguous(After(disk))
  {
    if disk != [] {
      var n := |disk| - 1;
      SurvivorsIntact(disk[..n]);
      assert After(disk)[..n] == disk[..n];
    } else {
      assert After(disk)[..0] == [];
    }
  }

  /** What the recovery after the next one hands back, if nothing is logged in between. */
  function Again(disk: seq<Segment>): map<Txn, Phase> {
    Restored(ReplayDisk(After(disk)), Corrupted(After(disk)))
  }

  /**
   Recovery can be interrupted and repeated exactly when nothing is corrupt, or when the segments
   that stay carry every decision and nothing that is still undecided.
   */
  lemma RecoveryRepeatable(disk: seq<Segment>)
    ensures Again(disk) == Restored(ReplayDisk(disk), Corrupted(disk)) <==>
            || !Corrupted(disk)
            || forall t :: (t in ReplayDisk(After(disk)) <==> Decided(ReplayDisk(disk), t)) && !Undecided(ReplayDisk(After(disk)), t)
  {
    CorruptionIsForgotten(disk);
    hide ReplayDisk, After;
    var w, w' := ReplayDisk(disk), ReplayDisk(After(disk));
    var first := Restored(w, Corrupted(disk));
    if !Corrupted(disk) {
      CleanRecovery(disk);
    } else {
      if Again(disk) == first {
        forall t
          ensures (t in w' <==> Decided(w, t)) && !Undecided(w', t)
        {
          assert t in Again(disk) <==> t in first;
        }
      }
      if forall t :: (t in w' <==> Decided(w, t)) && !Undecided(w', t) {
        forall t
          ensures t in Again(disk) <==> t in first
          ensures t in first ==> Again(disk)[t] == first[t]
        {
          assert !Undecided(w', t) && (t in w' <==> Decided(w, t));
        }
      }
    }
  }

  /** Handed back as committing now, and as one to roll back by the very next recovery. */
  predicate Inverts(disk: seq<Segment>, t: Txn) {
    var now := Restored(ReplayDisk(disk), Corrupted(disk));
    t in now && now[t] == Phase2 && t in Again(disk) && Again(disk)[t] == Phase1
  }

  /** The decisions a recovery inverts are those of the whole log that the surviving segments do not have. */
  lemma InvertsIff(disk: seq<Segment>, t: Txn)
    ensures Inverts(disk, t) <==> Decided(ReplayDisk(disk), t) && Undecided(ReplayDisk(After(disk)), t)
    ensures Inverts(disk, t) ==> Corrupted(disk)
  {
    CorruptionIsForgotten(disk);
    hide ReplayDisk, After;
    if !Corrupted(disk) { CleanRecovery(disk); }
  }

  /** There are such disks: the commit record sits in a segment that is quarantined. */
  lemma QuarantineInvertsDecision(disk: seq<Segment>, t: Txn, e: Error)
    requires disk == [
      Segment(0, true, [Begin(t, "u", "d")], CleanEnd),
      Segment(1, true, [Committing(t)], Broken(e)),
      Segment(2, true, [], CleanEnd)]
    ensures Restored(ReplayDisk(disk), Corrupted(disk)) == map[t := Phase2] && Again(disk) == map[t := Phase1]
    ensures Inverts(disk, t)
  {
    var a, b, z := disk[0], disk[1], disk[2];
    QuarantinedReplay(disk, a, b, z, t);
    QuarantinedSurvivors(disk, a, b, z);
    CorruptionIsForgotten(disk);
    hide ReplayDisk, After;
    assert !Intact(disk[1]);
  }

  lemma QuarantinedReplay(disk: seq<Segment>, a: Segment, b: Segment, z: Segment, t: Txn)
    requires disk == [a, b, z] && a.records == [Begin(t, "u", "d")] && b.records == [Committing(t)] && z.records == []
    ensures ReplayDisk(disk) == map[t := Entry("u", "d", true)]
    ensures ReplayDisk([a, z]) == map[t := Entry("u", "d", false)]
  {
    var begin := [Begin(t, "u", "d")];
    assert disk[..2] == [a, b] && [a, b][..1] == [a] == [a, z][..1] && [a][..0] == [];
    assert Flatten([a]) == begin;
    assert Flatten([a, b]) == begin + [Committing(t)] == Flatten(disk);
    assert Flatten([a, z]) == begin;
    assert Flatten(disk)[..1] == begin && begin[..0] == [];
    assert Replay(map[], begin) == map[t := Entry("u", "d", false)];
  }

  lemma QuarantinedSurvivors(disk: seq<Segment>, a: Segment, b: Segment, z: Segment)
    requires disk == [a, b, z] && Intact(a) && !Intact(b) && Intact(z)
    ensures After(disk) == [a, z]
  {
    assert disk[..2] == [a, b] && [a, b][..1] == [a] && [a][..0] == [];
    assert Survivors([a]) == [a] && Survivors([a, b]) == [a];
  }
}
