/** Without damaged or torn files the log loses nothing, and the write-ahead rules hold for every transaction. */
module TwoPhaseDamage {
  import opened WalRecord
  import opened WalLog
  import opened WalRecovery
  import opened TwoPhase
  import opened TwoPhaseDisk
  import opened TwoPhaseInvariant
  import opened TwoPhaseSafety

  /** Only the last file may end in a torn record or lack its header. */
  predicate Sound(disk: seq<Segment>) {
    && (forall i :: 0 <= i < |disk| - 1 ==> Intact(disk[i]))
    && (disk != [] ==> !disk[|disk| - 1].ending.Broken?)
  }

  predicate Damages(step: Step) {
    step.BitRot? || (step.BreakBatch? && step.torn)
  }

  lemma SoundFront(disk: seq<Segment>)
    requires Sound(disk) && disk != []
    ensures Survivors(disk[..|disk| - 1]) == disk[..|disk| - 1]
  {
    SurvivorsIntact(disk[..|disk| - 1]);
  }

  /** A recovery of such a disk leaves one that reads the same. */
  lemma SoundAfter(disk: seq<Segment>)
    requires Sound(disk) && FilesInv(disk, false)
    ensures Sound(After(disk)) && Reread(disk) == ReplayDisk(disk)
  {
    hide FilesInv, ReplayDisk, Survivors, Corrupted;
    if disk == [] || Writable(disk[|disk| - 1]) {
      CorruptedSplitSound(disk);
      CleanRecovery(disk);
      if disk != [] { SoundFront(disk); }
    } else {
      SoundFront(disk);
      var n := |disk| - 1;
      var x := After(disk)[n];
      assert After(disk) == disk[..n] + [x];
      SameFront(disk, x);
    }
  }

  lemma SameFront(disk: seq<Segment>, x: Segment)
    requires disk != [] && FilesInv(disk, false) && Sound(disk) && !Writable(disk[|disk| - 1]) && x.records == []
    ensures ReplayDisk(disk[..|disk| - 1] + [x]) == ReplayDisk(disk) == ReplayDisk(disk[..|disk| - 1])
  {
    var n := |disk| - 1;
    assert disk[n].records == [];
    hide Flatten, FilesInv, Sound;
    assert disk == disk[..n] + [disk[n]];
    AddEmptyLog(disk[..n], x);
    AddEmptyLog(disk[..n], disk[n]);
  }

  lemma CorruptedSplitSound(disk: seq<Segment>)
    requires Sound(disk) && (disk == [] || Writable(disk[|disk| - 1]))
    ensures !Corrupted(disk)
  {
  }

  lemma DropLast(disk: seq<Segment>)
    requires disk != [] && !Intact(disk[|disk| - 1])
    ensures Survivors(disk) == Survivors(disk[..|disk| - 1])
  {
  }

  lemma SoundSifted(disk: seq<Segment>, k: nat)
    requires Sound(disk) && FilesInv(disk, false) && disk != [] && k <= |disk| && (k == |disk| ==> !Writable(disk[k - 1]))
    ensures Sound(Sifted(disk, k)) && ReplayDisk(Sifted(disk, k)) == ReplayDisk(disk)
  {
    hide FilesInv, ReplayDisk, Survivors;
    var n := |disk| - 1;
    if k <= n {
      SurvivorsIntact(disk[..k]);
      assert Sifted(disk, k) == disk;
    } else {
      SoundFront(disk);
      DropLast(disk);
      assert disk[..k] == disk && disk[k..] == [] && Sifted(disk, k) == disk[..n];
      SameFront(disk, Segment(0, true, [], CleanEnd));
    }
  }

  lemma SoundBatch(s: State, rs: seq<Record>)
    requires FilesInv(s.disk, true) && Sound(s.disk) && |rs| <= |s.channel|
    ensures Sound(WriteAll(s, rs).disk)
    ensures |WriteAll(s, rs).disk| == |s.disk| && Intact(WriteAll(s, rs).disk[|s.disk| - 1])
  {
    WriteAllLast(s, rs);
    var disk, n := WriteAll(s, rs).disk, |s.disk| - 1;
    forall i | 0 <= i < n
      ensures Intact(disk[i])
    {
      assert disk[i] == disk[..n][i] == s.disk[..n][i] == s.disk[i];
    }
  }

  lemma WriteNothing(s: State)
    requires s.disk != []
    ensures WriteAll(s, []) == s
  {
  }

  lemma DifferNothing(d: Table)
    ensures Differ(d, d) == {}
  {
  }

  lemma BatchSound(s: State, step: Step)
    requires FilesInv(s.disk, s.writing) && Sound(s.disk) && Enabled(s, step) && !Damages(step)
    requires step.WriteBatch? || step.RefuseBatch? || step.BreakBatch? || step.Crash?
    ensures Sound(Do(s, step).disk) && Do(s, step).lost == s.lost
  {
    hide WriteAll, RefuseAll, FilesInv;
    match step {
      case WriteBatch(rs) => WriteAllFrame(s, rs); SoundBatch(s, rs);
      case RefuseBatch(n) => RefuseAllFrame(s, n);
      case BreakBatch(n, rs, _, _, _) => RefuseAllFrame(s, n); SoundBatch(s, rs);
      case Crash(rs, _) =>
        WriteAllFrame(s, rs);
        if s.writing { SoundBatch(s, rs); } else { WriteNothing(s); }
    }
  }

  lemma RecoverySound(s: State, step: Step)
    requires FilesInv(s.disk, s.writing) && Sound(s.disk) && Enabled(s, step) && (step.Recover? || step.CrashInRecovery?)
    ensures Sound(Do(s, step).disk) && Do(s, step).lost == s.lost
  {
    hide FilesInv, ReplayDisk, After, Sifted, Corrupted, Restored, RestoredSnapshot, NameTaken, Sound, Differ;
    DifferNothing(ReplayDisk(s.disk));
    ClosedFiles(s.disk, s.writing);
    if step.Recover? {
      SoundAfter(s.disk);
    } else {
      SoundSifted(s.disk, step.read);
    }
  }

  /** A client whose log is no longer written, and whose entry every recovery reads, is not given up silently. */
  lemma AbandonSound(s: State, step: Step)
    requires Inv(s) && Sound(s.disk) && step.Abandon? && Enabled(s, step) && !Hazard(s, step)
    ensures Do(s, step).lost == s.lost && Do(s, step).disk == s.disk
  {
    hide TxnInv, FilesInv, GcInv, Reread, ReplayDisk, Sound, See, Guards;
    var t := step.txn;
    if Deciding(s, t) {
      ClosedFiles(s.disk, s.writing);
      SoundAfter(s.disk);
      DecidingInLog(s, t);
      assert false;
    }
  }

  lemma DecidingInLog(s: State, t: Txn)
    requires Inv(s) && Deciding(s, t)
    ensures Undecided(ReplayDisk(s.disk), t)
  {
    hide ReplayDisk, Reread, Flatten, ShardsOf, Waiting;
    assert TxnInv(s, See(s.disk), t);
  }

  lemma AddSound(disk: seq<Segment>, x: Segment)
    requires Sound(disk) && disk != [] && Intact(disk[|disk| - 1]) && !x.ending.Broken?
    ensures Sound(disk + [x])
  {
  }

  lemma HalfSound(disk: seq<Segment>)
    requires Sound(disk) && disk != []
    ensures Sound(HalfLast(disk))
  {
    assert forall i :: 0 <= i < |disk| - 1 ==> HalfLast(disk)[i] == disk[i];
  }

  lemma WithoutSound(disk: seq<Segment>, i: nat)
    requires Sound(disk) && i < |disk|
    ensures Sound(Without(disk, i))
  {
    var left := Without(disk, i);
    assert forall k :: 0 <= k < |left| ==> left[k] == disk[if k < i then k else k + 1];
  }

  lemma FileSound(s: State, step: Step)
    requires FilesInv(s.disk, s.writing) && Sound(s.disk) && Enabled(s, step)
    requires step.Rotate? || step.DeleteSegment? || step.CrashInCreation?
    ensures Sound(Do(s, step).disk) && Do(s, step).lost == s.lost
  {
    hide Increasing, NameTaken, EndLsn, Sound, HalfLast, Without;
    match step {
      case Rotate => AddSound(s.disk, Segment(EndLsn(s.disk), true, [], CleanEnd));
      case DeleteSegment(i, _) => WithoutSound(s.disk, i);
      case CrashInCreation => HalfSound(s.disk);
    }
  }

  lemma OtherSound(s: State, step: Step)
    requires Enabled(s, step) && (OfShard(step) || (OfCoordinator(step) && !step.Abandon?))
    ensures Do(s, step).disk == s.disk && Do(s, step).lost == s.lost
  {
    hide Coordinated, AtShard, Enabled;
  }

  lemma StepSound(s: State, step: Step)
    requires Inv(s) && Sound(s.disk) && Enabled(s, step) && !Damages(step) && !Hazard(s, step)
    ensures Sound(Do(s, step).disk) && Do(s, step).lost == s.lost
  {
    InvFiles(s);
    hide Do, Enabled, FilesInv, Sound, Inv, Hazard;
    if step.WriteBatch? || step.RefuseBatch? || step.BreakBatch? || step.Crash? {
      BatchSound(s, step);
    } else if step.Recover? || step.CrashInRecovery? {
      RecoverySound(s, step);
    } else if step.Abandon? {
      AbandonSound(s, step);
    } else if step.Rotate? || step.DeleteSegment? || step.CrashInCreation? {
      FileSound(s, step);
    } else {
      OtherSound(s, step);
    }
  }

  lemma InitSound(s: State)
    requires Init(s)
    ensures Sound(s.disk) && s.lost == {}
  {
  }

  lemma InvFiles(s: State)
    requires Inv(s)
    ensures FilesInv(s.disk, s.writing)
  {
  }

  lemma {:induction false} RunSound(ss: seq<State>, steps: seq<Step>, n: nat)
    requires SafeRun(ss, steps) && n < |ss| && forall k :: 0 <= k < n ==> !Damages(steps[k])
    ensures Sound(ss[n].disk) && ss[n].lost == {}
  {
    hide Inv, FilesInv, Sound, Hazard, Init, Do, Enabled, Damages;
    if n == 0 {
      InitSound(ss[0]);
    } else {
      RunSound(ss, steps, n - 1);
      RunKeeps(ss, steps, n - 1);
      assert Enabled(ss[n - 1], steps[n - 1]) && ss[n] == Do(ss[n - 1], steps[n - 1]);
      StepSound(ss[n - 1], steps[n - 1]);
    }
  }

  /**
   In a run without damage the write-ahead rules have no exception: prepared work is in the log
   until every shard is through with it, a transaction told to commit is logged as decided until
   every shard has committed, and none is told both to commit and to roll back.
   */
  lemma UndamagedCovers(ss: seq<State>, steps: seq<Step>, n: nat, t: Txn)
    requires SafeRun(ss, steps) && n < |ss| && forall k :: 0 <= k < n ==> !Damages(steps[k])
    ensures var s, d := ss[n], ReplayDisk(ss[n].disk);
            && (t in s.prepareSent && t !in d ==> Resolved(s, t))
            && (t in s.commitSent && t in d ==> d[t].decided)
            && (t in s.commitSent && t !in d ==> t in s.dropped || CommittedEverywhere(s, t))
            && !(t in s.commitSent && t in s.rollbackSent)
  {
    hide SafeRun, ReplayDisk, Resolved, CommittedEverywhere;
    RunSound(ss, steps, n);
    LogCoversInDoubt(ss, steps, n, t);
    DecisionsHold(ss, steps, n, t);
  }
}
