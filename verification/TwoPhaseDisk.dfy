/** The log's files under the protocol: what each step does to their order, their names and what they replay to. */
module TwoPhaseDisk {
  import opened Bytes
  import opened WalRecord
  import opened WalLog
  import opened WalRecovery
  import opened WalHistory
  import opened TwoPhase

  /** What recoveries read from a disk: the next one, the one after it, and record by record. */
  datatype View = View(d: Table, e: Table, log: seq<Record>)

  function See(disk: seq<Segment>): View {
    View(ReplayDisk(disk), Reread(disk), Flatten(disk))
  }

  /** Names ascend and the next one is free; without a header nothing is read; what is written to is whole. */
  predicate FilesInv(disk: seq<Segment>, writing: bool) {
    && Increasing(disk) && !NameTaken(disk)
    && (forall i :: 0 <= i < |disk| ==> disk[i].header || (!writing && disk[i].records == []))
    && (writing ==> disk != [] && Intact(disk[|disk| - 1]))
  }

  /** Whatever garbage collection at `lsn` may still delete, a later segment makes irrelevant. */
  predicate Covered(disk: seq<Segment>, lsn: nat) {
    || (forall m :: 1 <= m < |disk| ==> disk[m].start > lsn)
    || exists j :: 0 <= j < |disk| && CoveredBy(disk, lsn, j)
  }

  predicate CoveredBy(disk: seq<Segment>, lsn: nat, j: int) {
    0 <= j < |disk| && HasCheckpoint(disk[j]) && forall m :: j < m < |disk| ==> disk[m].start > lsn
  }

  predicate GcInv(disk: seq<Segment>, lsns: set<nat>) {
    lsns == {} || (disk != [] && forall lsn :: lsn in lsns ==> lsn < EndLsn(disk) && Covered(disk, lsn))
  }

  // ---- what recoveries read ------------------------------------------------------------

  lemma AfterView(disk: seq<Segment>)
    ensures var left := After(disk);
            See(left) == View(Reread(disk), Reread(disk), Flatten(left)) && SubLog(Flatten(left), Flatten(disk))
  {
    CorruptionIsForgotten(disk);
    AfterSubLog(disk);
    hide ReplayDisk, After, Flatten;
    CleanRecovery(After(disk));
  }

  /** Every table comes out of the log's records. */
  lemma ViewRecords(disk: seq<Segment>, t: Txn)
    ensures var v := See(disk);
            && (t in v.d || t in v.e ==> Mentioned(v.log, t))
            && (Decided(v.d, t) || Decided(v.e, t) ==> HasDecision(v.log, t))
            && (Ordered(v.log, t) && Undecided(v.d, t) ==> !HasDecision(v.log, t))
            && (!Corrupted(disk) ==> v.d == v.e)
  {
    hide Replay, Flatten, After, Corrupted;
    var v, left := See(disk), Flatten(After(disk));
    ReplayedHasRecord(v.log, t);
    ReplayedHasRecord(left, t);
    AfterSubLog(disk);
    SubLogKeeps(left, v.log, t);
    if Ordered(v.log, t) && Undecided(v.d, t) { UndecidedHasNoDecision(v.log, t); }
    if !Corrupted(disk) { CleanRecovery(disk); }
  }

  lemma AppendToReplay(disk: seq<Segment>, r: Record)
    requires disk != []
    ensures Flatten(AppendTo(disk, r)) == Flatten(disk) + [r]
    ensures ReplayDisk(AppendTo(disk, r)) == Apply(ReplayDisk(disk), r)
  {
    var n := |disk| - 1;
    var disk' := AppendTo(disk, r);
    assert disk'[..n] == disk[..n];
    assert Flatten(disk') == Flatten(disk) + [r];
    ReplaySnoc(map[], Flatten(disk), r);
  }

  lemma AfterOpen(disk: seq<Segment>)
    requires disk != [] && Intact(disk[|disk| - 1])
    ensures After(disk) == Survivors(disk[..|disk| - 1]) + [disk[|disk| - 1]] == Survivors(disk)
  {
    assert disk[|disk| - 1].(ending := CleanEnd) == disk[|disk| - 1];
  }

  lemma AppendToView(disk: seq<Segment>, r: Record)
    requires disk != [] && Intact(disk[|disk| - 1])
    ensures See(AppendTo(disk, r)) == View(Apply(ReplayDisk(disk), r), Apply(Reread(disk), r), Flatten(disk) + [r])
  {
    var n, disk' := |disk| - 1, AppendTo(disk, r);
    AppendToReplay(disk, r);
    AfterOpen(disk);
    AfterOpen(disk');
    var kept := Survivors(disk[..n]);
    assert disk'[..n] == disk[..n];
    assert After(disk') == AppendTo(After(disk), r) by {
      assert After(disk)[..|kept|] == kept;
    }
    hide After, ReplayDisk, Flatten, Survivors;
    AppendToReplay(After(disk), r);
  }

  /** An empty segment behind an intact one changes nothing that is read. */
  lemma AddSegmentView(disk: seq<Segment>, x: Segment)
    requires disk != [] && Intact(disk[|disk| - 1]) && x.records == []
    ensures See(disk + [x]) == See(disk)
  {
    var disk' := disk + [x];
    var n := |disk|;
    assert disk'[..n] == disk;
    AfterOpen(disk);
    var y := After(disk')[|After(disk')| - 1];
    assert After(disk') == Survivors(disk) + [y] && y.records == [];
    hide After, Survivors;
    FlattenSnoc(disk, x);
    FlattenSnoc(Survivors(disk), y);
    assert Flatten(disk) + [] == Flatten(disk) && Flatten(Survivors(disk)) + [] == Flatten(Survivors(disk));
  }

  lemma TornLog(disk: seq<Segment>)
    requires disk != []
    ensures Flatten(TornLast(disk)) == Flatten(disk)
  {
    var n := |disk| - 1;
    assert TornLast(disk)[..n] == disk[..n];
  }

  lemma TornView(disk: seq<Segment>)
    requires disk != [] && Intact(disk[|disk| - 1])
    ensures See(TornLast(disk)) == See(disk)
  {
    var n := |disk| - 1;
    TornLog(disk);
    assert TornLast(disk)[..n] == disk[..n];
    assert TornLast(disk)[n].(ending := CleanEnd) == disk[n];
  }

  lemma AddEmptyLog(disk: seq<Segment>, x: Segment)
    requires x.records == []
    ensures Flatten(disk + [x]) == Flatten(disk)
  {
    FlattenSnoc(disk, x);
    assert Flatten(disk) + [] == Flatten(disk);
  }

  // ---- lost files and records --------------------------------------------------------------

  lemma {:induction false} SubLogMiddle(a: seq<Record>, b: seq<Record>, b': seq<Record>, c: seq<Record>)
    requires SubLog(b', b)
    ensures SubLog(a + b' + c, a + b + c)
  {
    SubLogSelf(a);
    SubLogSelf(c);
    SubLogAppend(a, a, b', b);
    SubLogAppend(a + b', a + b, c, c);
  }

  lemma FlattenMiddle(xs: seq<Segment>, x: Segment, ys: seq<Segment>)
    ensures Flatten(xs + [x] + ys) == Flatten(xs) + x.records + Flatten(ys)
    ensures Flatten(xs + ys) == Flatten(xs) + [] + Flatten(ys)
  {
    FlattenSnoc(xs, x);
    FlattenAppend(xs + [x], ys);
    FlattenAppend(xs, ys);
    assert Flatten(xs) + [] == Flatten(xs);
  }

  lemma WithoutLog(disk: seq<Segment>, i: nat)
    requires i < |disk|
    ensures SubLog(Flatten(Without(disk, i)), Flatten(disk))
  {
    hide SubLog, Flatten;
    var xs, x, ys := disk[..i], disk[i], disk[i + 1..];
    assert disk == xs + [x] + ys;
    FlattenMiddle(xs, x, ys);
    NothingSubLog(x.records);
    SubLogMiddle(Flatten(xs), x.records, [], Flatten(ys));
  }

  lemma NothingSubLog(rs: seq<Record>)
    ensures SubLog([], rs)
  {
  }

  lemma RottenLog(x: Segment, rot: Rot)
    requires rot.Cut? ==> rot.keep <= |x.records|
    ensures SubLog(Rotten(x, rot).records, x.records)
  {
    hide SubLog;
    match rot {
      case NoHeader => NothingSubLog(x.records);
      case Cut(keep, _) => SubLogPrefix(x.records, keep);
    }
  }

  lemma DamagedLog(disk: seq<Segment>, i: nat, rot: Rot)
    requires i < |disk| && (rot.Cut? ==> rot.keep <= |disk[i].records|)
    ensures SubLog(Flatten(Damaged(disk, i, rot)), Flatten(disk))
  {
    hide SubLog, Flatten, Rotten;
    var xs, ys, x := disk[..i], disk[i + 1..], Rotten(disk[i], rot);
    assert disk == xs + [disk[i]] + ys && Damaged(disk, i, rot) == xs + [x] + ys;
    FlattenMiddle(xs, disk[i], ys);
    FlattenMiddle(xs, x, ys);
    RottenLog(disk[i], rot);
    SubLogMiddle(Flatten(xs), disk[i].records, x.records, Flatten(ys));
  }

  lemma SiftedLog(disk: seq<Segment>, k: nat)
    requires k <= |disk|
    ensures SubLog(Flatten(Sifted(disk, k)), Flatten(disk))
  {
    hide SubLog, Survivors, Flatten;
    assert disk == disk[..k] + disk[k..];
    FlattenAppend(disk[..k], disk[k..]);
    FlattenAppend(Survivors(disk[..k]), disk[k..]);
    SurvivorsSubLog(disk[..k]);
    SubLogSelf(Flatten(disk[k..]));
    SubLogAppend(Flatten(Survivors(disk[..k])), Flatten(disk[..k]), Flatten(disk[k..]), Flatten(disk[k..]));
  }

  // ---- names and order -----------------------------------------------------------------------

  /** Every survivor is one of the segments, so its name is at most the last one's. */
  lemma {:induction false} SurvivorsOf(disk: seq<Segment>)
    ensures forall x :: x in Survivors(disk) ==> x in disk && Intact(x)
    ensures Increasing(disk) ==> Increasing(Survivors(disk))
  {
    if disk != [] {
      var front, last := disk[..|disk| - 1], disk[|disk| - 1];
      SurvivorsOf(front);
      var kept := Survivors(front);
      if Increasing(disk) {
        assert Increasing(front);
        forall i | 0 <= i < |kept|
          ensures kept[i].start < last.start
        {
          assert kept[i] in kept && kept[i] in front;
          var j :| 0 <= j < |front| && front[j] == kept[i];
          assert disk[j].start < disk[|disk| - 1].start;
        }
      }
    }
  }

  lemma IncreasingSnoc(disk: seq<Segment>, x: Segment)
    requires Increasing(disk) && forall i :: 0 <= i < |disk| ==> disk[i].start < x.start
    ensures Increasing(disk + [x])
  {
  }

  lemma IncreasingBound(disk: seq<Segment>, x: Segment)
    requires Increasing(disk) && disk != [] && x in disk
    ensures x.start <= disk[|disk| - 1].start
  {
  }

  /** A last segment with a header leaves the next name free. */
  lemma HeaderNameFree(disk: seq<Segment>)
    requires disk != [] && Increasing(disk) && disk[|disk| - 1].header
    ensures !NameTaken(disk)
  {
    var n := |disk| - 1;
    SurvivorsOf(disk[..n]);
    var kept := Survivors(disk[..n]);
    forall i | 0 <= i < |kept|
      ensures kept[i].start < disk[n].start
    {
      assert kept[i] in kept && kept[i] in disk[..n];
    }
  }

  lemma AppendToFiles(disk: seq<Segment>, r: Record)
    requires FilesInv(disk, true)
    ensures FilesInv(AppendTo(disk, r), true)
  {
    var disk' := AppendTo(disk, r);
    assert forall i :: 0 <= i < |disk| ==> disk'[i].start == disk[i].start && disk'[i].header == disk[i].header;
    HeaderNameFree(disk');
  }

  /** A new segment behind closed ones, writable or without its header. */
  lemma AddSegmentFiles(disk: seq<Segment>, x: Segment)
    requires disk != [] && Increasing(disk) && x.start > disk[|disk| - 1].start && !NameTaken(disk + [x])
    requires forall i :: 0 <= i < |disk| ==> disk[i].header
    requires x.records == [] && x.ending.CleanEnd?
    ensures FilesInv(disk + [x], x.header)
  {
    hide NameTaken;
    IncreasingSnoc(disk, x);
  }

  lemma HalfLastFiles(disk: seq<Segment>)
    requires FilesInv(disk, true) && disk[|disk| - 1].records == [] && !NameTaken(HalfLast(disk))
    ensures FilesInv(HalfLast(disk), false)
  {
    hide NameTaken;
    var disk' := HalfLast(disk);
    assert forall i :: 0 <= i < |disk| ==> disk'[i].start == disk[i].start && disk'[i].records == disk[i].records;
  }

  lemma AfterHalf(disk: seq<Segment>) returns (x: Segment)
    requires disk != []
    ensures After(HalfLast(disk)) == Survivors(disk[..|disk| - 1]) + [x] && x.records == []
  {
    var n, half := |disk| - 1, HalfLast(disk);
    assert half[..n] == disk[..n];
    x := Segment(NextLsn(half), true, [], CleanEnd);
  }

  lemma HalfLastView(disk: seq<Segment>)
    requires disk != [] && Intact(disk[|disk| - 1]) && disk[|disk| - 1].records == []
    ensures See(HalfLast(disk)) == See(disk)
  {
    hide After, Survivors, Replay, Flatten;
    var n, half := |disk| - 1, HalfLast(disk);
    var x := AfterHalf(disk);
    AfterOpen(disk);
    var front, kept := disk[..n], Survivors(disk[..n]);
    assert disk == front + [disk[n]] && half == front + [half[n]];
    AddEmptyLog(front, disk[n]);
    AddEmptyLog(front, half[n]);
    AddEmptyLog(kept, disk[n]);
    AddEmptyLog(kept, x);
  }

  lemma AfterFiles(disk: seq<Segment>)
    requires FilesInv(disk, false)
    ensures FilesInv(After(disk), true)
  {
    if disk == [] { return; }
    var n := |disk| - 1;
    var kept, left := Survivors(disk[..n]), After(disk);
    SurvivorsOf(disk[..n]);
    var x := left[|kept|];
    forall i | 0 <= i < |kept|
      ensures kept[i].start < x.start && kept[i].header
    {
      assert kept[i] in kept && kept[i] in disk[..n];
      AfterName(disk, kept[i]);
    }
    IncreasingSnoc(kept, x);
    HeaderNameFree(left);
  }

  /** No survivor is named beyond where reading ended. */
  lemma {:induction false} SurvivorsBelowNext(disk: seq<Segment>, y: Segment)
    requires Increasing(disk) && y in Survivors(disk)
    ensures y.start <= NextLsn(disk)
  {
    var front, last := disk[..|disk| - 1], disk[|disk| - 1];
    SurvivorsOf(disk);
    if last.header {
      IncreasingBound(disk, y);
    } else {
      SurvivorsBelowNext(front, y);
    }
  }

  lemma AfterName(disk: seq<Segment>, y: Segment)
    requires FilesInv(disk, false) && disk != [] && y in Survivors(disk[..|disk| - 1])
    ensures y.start < After(disk)[|After(disk)| - 1].start
  {
    var n := |disk| - 1;
    var front, last := disk[..n], disk[n];
    SurvivorsOf(front);
    assert y in front && y.start < last.start;
    if !last.header {
      SurvivorsBelowNext(front, y);
      var kept := Survivors(front);
      var i :| 0 <= i < |kept| && kept[i] == y;
      assert y.start != NextLsn(disk);
    }
  }

  lemma DamagedFiles(disk: seq<Segment>, i: nat, rot: Rot)
    requires FilesInv(disk, false) && i < |disk| && (rot.Cut? ==> disk[i].header && rot.keep <= |disk[i].records|)
    requires !NameTaken(Damaged(disk, i, rot))
    ensures FilesInv(Damaged(disk, i, rot), false)
  {
    hide NameTaken;
    var disk' := Damaged(disk, i, rot);
    assert forall j :: 0 <= j < |disk| ==> disk'[j].start == disk[j].start;
  }

  lemma SiftedFiles(disk: seq<Segment>, k: nat)
    requires FilesInv(disk, false) && k <= |disk| && !NameTaken(Sifted(disk, k))
    ensures FilesInv(Sifted(disk, k), false)
  {
    hide NameTaken;
    var kept, rest, left := Survivors(disk[..k]), disk[k..], Sifted(disk, k);
    assert Increasing(disk[..k]);
    SurvivorsOf(disk[..k]);
    forall i, j | 0 <= i < |kept| && 0 <= j < |rest|
      ensures kept[i].start < rest[j].start
    {
      assert kept[i] in kept && kept[i] in disk[..k];
      assert rest[j] == disk[k + j];
    }
    assert Increasing(left) by {
      forall i, j | 0 <= i < j < |left|
        ensures left[i].start < left[j].start
      {
        if i >= |kept| { assert left[i] == disk[k + i - |kept|] && left[j] == disk[k + j - |kept|]; }
      }
    }
    forall i | 0 <= i < |left|
      ensures left[i].header || left[i].records == []
    {
      if i < |kept| {
        assert kept[i] in kept;
      } else {
        assert left[i] == disk[k + i - |kept|];
      }
    }
  }

  // ---- garbage collection --------------------------------------------------------------------

  lemma AppendToGc(disk: seq<Segment>, r: Record, lsns: set<nat>)
    requires disk != [] && GcInv(disk, lsns)
    ensures GcInv(AppendTo(disk, r), if r.Checkpoint? then lsns + {EndLsn(disk)} else lsns)
  {
    var disk', n := AppendTo(disk, r), |disk| - 1;
    assert forall i :: 0 <= i < |disk| ==> disk'[i].start == disk[i].start && disk[i].records <= disk'[i].records;
    forall lsn | lsn in lsns
      ensures lsn < EndLsn(disk') && Covered(disk', lsn)
    {
      assert Covered(disk, lsn);
      if j :| 0 <= j < |disk| && CoveredBy(disk, lsn, j) {
        var i :| 0 <= i < |disk[j].records| && disk[j].records[i].Checkpoint?;
        assert disk'[j].records[i].Checkpoint?;
        assert CoveredBy(disk', lsn, j);
      }
    }
    if r.Checkpoint? {
      assert disk'[n].records[|disk[n].records|] == r;
      assert CoveredBy(disk', EndLsn(disk), n);
    }
  }

  lemma AddSegmentGc(disk: seq<Segment>, x: Segment, lsns: set<nat>)
    requires disk != [] && GcInv(disk, lsns) && forall lsn :: lsn in lsns ==> lsn < x.start
    ensures GcInv(disk + [x], lsns)
  {
    var disk' := disk + [x];
    forall lsn | lsn in lsns
      ensures lsn < EndLsn(disk') && Covered(disk', lsn)
    {
      assert Covered(disk, lsn);
      if j :| 0 <= j < |disk| && CoveredBy(disk, lsn, j) {
        assert CoveredBy(disk', lsn, j);
      }
    }
  }

  lemma DeleteGc(disk: seq<Segment>, i: nat, lsn: nat, lsns: set<nat>)
    requires disk != [] && GcInv(disk, lsns) && lsn in lsns && Deletable(disk, i, lsn)
    ensures GcInv(Without(disk, i), lsns)
    ensures exists j :: i < j < |disk| && HasCheckpoint(disk[j])
  {
    var left := Without(disk, i);
    var m :| i < m < |disk| && disk[m].start <= lsn;
    assert Covered(disk, lsn);
    var c :| 0 <= c < |disk| && CoveredBy(disk, lsn, c);
    assert disk[m].start <= lsn;
    assert left[|left| - 1] == disk[|disk| - 1];
    forall l | l in lsns
      ensures l < EndLsn(left) && Covered(left, l)
    {
      assert l < EndLsn(disk) && Covered(disk, l);
      if j :| 0 <= j < |disk| && CoveredBy(disk, l, j) {
        CoveredWithout(disk, i, l, j, c);
      }
    }
  }

  lemma CoveredWithout(disk: seq<Segment>, i: nat, lsn: nat, j: nat, c: nat)
    requires CoveredBy(disk, lsn, j) && i < c < |disk| && HasCheckpoint(disk[c])
    ensures Covered(Without(disk, i), lsn)
  {
    var left, k := Without(disk, i), if j == i then c - 1 else if j < i then j else j - 1;
    assert HasCheckpoint(left[k]);
    forall m | k < m < |left|
      ensures left[m].start > lsn
    {
      assert left[m] == disk[if m < i then m else m + 1];
    }
    assert CoveredBy(left, lsn, k);
  }

  /** Deleting one file behind a checkpoint. */
  lemma DeleteFiles(disk: seq<Segment>, writing: bool, i: nat, j: nat)
    requires FilesInv(disk, writing) && i < j < |disk| && HasCheckpoint(disk[j])
    ensures FilesInv(Without(disk, i), writing) && ReplayDisk(Without(disk, i)) == ReplayDisk(disk)
  {
    var left, ys := Without(disk, i), disk[i + 1..];
    assert !NameTaken(left) by { DeleteNameFree(disk, i, j); }
    hide NameTaken, ReplayDisk;
    assert left[|left| - 1] == disk[|disk| - 1];
    assert forall k :: 0 <= k < |left| ==> left[k] == disk[if k < i then k else k + 1];
    assert disk == disk[..i + 1] + ys && left == disk[..i] + ys;
    assert ys[j - i - 1] == disk[j];
    CheckpointSegmentForgets(disk[..i], disk[..i + 1], ys, j - i - 1);
  }

  lemma {:induction false} NextLsnWithout(disk: seq<Segment>, i: nat, j: nat)
    requires i < j < |disk| && disk[j].header
    ensures NextLsn(Without(disk, i)) == NextLsn(disk)
  {
    var left := Without(disk, i);
    assert left[|left| - 1] == disk[|disk| - 1];
    if !disk[|disk| - 1].header {
      var front := disk[..|disk| - 1];
      NextLsnWithout(front, i, j);
      assert left[..|left| - 1] == Without(front, i);
    }
  }

  lemma SurvivorsWithout(disk: seq<Segment>, i: nat, y: Segment)
    requires i < |disk| && y in Survivors(Without(disk, i))
    ensures y in Survivors(disk)
  {
    hide Survivors;
    var left := Without(disk, i);
    SurvivorsOf(left);
    var m :| 0 <= m < |left| && left[m] == y;
    SurvivorsHas(disk, if m < i then m else m + 1);
  }

  lemma DeleteNameFree(disk: seq<Segment>, i: nat, j: nat)
    requires !NameTaken(disk) && i < j < |disk| && disk[j].header
    ensures !NameTaken(Without(disk, i))
  {
    hide Survivors, NextLsn;
    var left, n := Without(disk, i), |disk| - 1;
    NextLsnWithout(disk, i, j);
    assert left[|left| - 1] == disk[n];
    var front := disk[..n];
    assert left[..|left| - 1] == Without(front, i);
    var kept', kept := Survivors(Without(front, i)), Survivors(front);
    if !Writable(disk[n]) {
      forall k | 0 <= k < |kept'|
        ensures kept'[k].start != NextLsn(disk)
      {
        SurvivorsWithout(front, i, kept'[k]);
        var l :| 0 <= l < |kept| && kept[l] == kept'[k];
      }
    }
  }

  lemma {:induction false} SurvivorsHas(disk: seq<Segment>, m: nat)
    requires m < |disk| && Intact(disk[m])
    ensures disk[m] in Survivors(disk)
  {
    if m < |disk| - 1 {
      SurvivorsHas(disk[..|disk| - 1], m);
      assert disk[..|disk| - 1][m] == disk[m];
    }
  }

  // ---- the byte level -------------------------------------------------------------------------

  lemma {:induction false} WriteAllLast(s: State, rs: seq<Record>)
    requires |rs| <= |s.channel| && s.disk != []
    ensures var disk, n := WriteAll(s, rs).disk, |s.disk| - 1;
            && |disk| == n + 1 && disk[..n] == s.disk[..n]
            && disk[n] == s.disk[n].(records := s.disk[n].records + rs)
  {
    if rs == [] {
      assert s.disk[|s.disk| - 1].records + [] == s.disk[|s.disk| - 1].records;
    } else {
      var m := |rs| - 1;
      WriteAllLast(s, rs[..m]);
      assert rs == rs[..m] + [rs[m]];
      var last := s.disk[|s.disk| - 1].records;
      assert last + rs == last + rs[..m] + [rs[m]];
    }
  }

  /**
   The process dies while it writes the batch `all`, and the file ends at any byte of it: recovery
   reads the disk that some `Crash` step leaves.
   */
  lemma CrashIsACut(c: Serde, header: seq<byte>, s: State, all: seq<Record>, k: nat)
    requires CanWrite(s, all) && Intact(s.disk[|s.disk| - 1])
    requires |header| == SEGMENT_HEADER && header[..4] == MAGIC
    requires AllStorable(c, s.disk[|s.disk| - 1].records) && AllStorable(c, all) && k <= |EncodeAll(c, all)|
    ensures var m, last := Whole(c, all, k), s.disk[|s.disk| - 1];
            var step := Crash(all[..m], |EncodeAll(c, all[..m])| < k);
            && Enabled(s, step)
            && Do(s, step).disk == s.disk[..|s.disk| - 1]
                 + [Load(c, SegmentFile(last.start, header + EncodeAll(c, last.records) + EncodeAll(c, all)[..k]))]
  {
    hide Load, EncodeAll, Whole, Do, MaterializesAll;
    var m, last := Whole(c, all, k), s.disk[|s.disk| - 1];
    LoadCut(c, last.start, header, last.records, all, k);
    CanWritePrefix(s, all, m);
    CrashLeaves(s, all[..m], |EncodeAll(c, all[..m])| < k);
  }

  lemma CrashLeaves(s: State, rs: seq<Record>, torn: bool)
    requires Enabled(s, Crash(rs, torn)) && Intact(s.disk[|s.disk| - 1])
    ensures var n := |s.disk| - 1;
            var last := s.disk[n];
            Do(s, Crash(rs, torn)).disk ==
            s.disk[..n] + [Segment(last.start, true, last.records + rs, if torn then TornTail else CleanEnd)]
  {
    hide WriteAll, MaterializesAll;
    WriteAllLast(s, rs);
    var disk, n := WriteAll(s, rs).disk, |s.disk| - 1;
    assert disk == disk[..n] + [disk[n]];
  }

  /**
   A file of a stopped process is changed behind its first `keep` records, and nothing from there on
   passes for a record; or its header is no longer one. Recovery reads the disk that some damage
   step leaves.
   */
  lemma DamageIsAStep(c: Serde, s: State, i: nat, bytes: seq<byte>, keep: nat, rest: seq<byte>) returns (rot: Rot)
    requires !s.up && i < |s.disk| && s.disk[i].header && keep <= |s.disk[i].records| && AllStorable(c, s.disk[i].records)
    requires |bytes| >= SEGMENT_HEADER && bytes[..4] == MAGIC ==>
               bytes[SEGMENT_HEADER..] == EncodeAll(c, s.disk[i].records[..keep]) + rest && ScanStream(c, rest).records == []
    requires !NameTaken(s.disk[i := Load(c, SegmentFile(s.disk[i].start, bytes))])
    ensures Enabled(s, BitRot(i, rot)) && Do(s, BitRot(i, rot)).disk == s.disk[i := Load(c, SegmentFile(s.disk[i].start, bytes))]
  {
    hide EncodeAll, NameTaken, ScanStream, ReplayDisk, Differ;
    var x := s.disk[i];
    if |bytes| < SEGMENT_HEADER || bytes[..4] != MAGIC {
      rot := NoHeader;
    } else {
      ScanThenStop(c, x.records[..keep], rest);
      rot := Cut(keep, ScanStream(c, rest).ending);
    }
    assert Load(c, SegmentFile(x.start, bytes)) == Rotten(x, rot);
  }

  lemma CanWritePrefix(s: State, rs: seq<Record>, m: nat)
    requires CanWrite(s, rs) && m <= |rs|
    ensures CanWrite(s, rs[..m])
  {
    forall i | 0 <= i < m
      ensures Materializes(Replay(s.snapshot, rs[..m][..i]), s.channel[..m][i], rs[..m][i])
    {
      assert rs[..m][..i] == rs[..i] && s.channel[..m][i] == s.channel[..|rs|][i];
    }
  }
}
