/**
 The hazards do occur: five safe runs of one transaction on two shards, each followed by one
 hazard of a different kind, after which the transaction can end up split.
 */
module TwoPhaseWitness {
  import opened WalRecord
  import opened WalLog
  import opened WalRecovery
  import opened TwoPhase
  import opened TwoPhaseDisk
  import opened TwoPhaseInvariant
  import opened TwoPhaseSafety
  import opened TwoPhaseReach
  import opened TwoPhaseHazards

  const T: Txn := 7

  function Beginning(): Record { Begin(T, "u", "d") }

  function Row(decided: bool): Table { map[T := Entry("u", "d", decided)] }

  function Seg(start: nat, rs: seq<Record>): Segment { Segment(start, true, rs, CleanEnd) }

  /** Two shards, nothing started. */
  function Empty(): (s: State)
    ensures Init(s)
  {
    State(2, true, true, {}, map[], [], map[], Idle, [], [Seg(0, [])], map[], {},
          {}, {}, {}, {}, {}, {}, map[], {}, {}, {}, {})
  }

  /** The client of `T` is at `pc`; nothing else is going on. */
  predicate Driving(s: State, pc: Pc, phase: Phase, channel: seq<Append>, disk: seq<Segment>, snapshot: Table) {
    && s.shards == 2 && s.up && s.writing && s.mem == map[T := phase] && s.drivers == map[T := pc] && s.monitor == Idle
    && s.channel == channel && s.disk == disk && s.snapshot == snapshot && s.started == {T} && s.gcLsns == {}
    && s.commitSent == {} && s.rollbackSent == {}
  }

  lemma LogBegin() returns (s: State)
    ensures Reaches(Empty(), s) && Driving(s, BeginAcked, Phase1, [], [Seg(0, [Beginning()])], Row(false)) && s.parts == map[]
    ensures s.prepareOk == {}
  {
    hide Reaches;
    ReachesSelf(Empty());
    ReachesStep(Empty(), Empty(), Start(T, "u", "d"));
    s := Do(Empty(), Start(T, "u", "d"));
    assert s.channel == [Rec(Beginning())];
    var s0 := s;
    s := WriteNow(Empty(), s0, Beginning());
    assert s.disk == [Seg(0, [Beginning()])] by {
      assert s0.disk[..0] == [] && [] + [Beginning()] == [Beginning()];
    }
  }

  lemma PrepareAt(s0: State, m: State, i: nat) returns (s: State)
    requires Reaches(s0, m) && i < m.shards && T in m.prepareSent && PartOf(m, T, i) == Open
    ensures Reaches(s0, s) && s == m.(parts := m.parts[(T, i) := Prepared], prepareOk := m.prepareOk + {(T, i)})
  {
    hide Reaches;
    ReachesStep(s0, m, ShardPrepare(T, i));
    s := Do(m, ShardPrepare(T, i));
  }

  lemma PrepareBoth() returns (s: State)
    ensures Reaches(Empty(), s) && Driving(s, AwaitPrepare, Phase1, [], [Seg(0, [Beginning()])], Row(false))
    ensures s.parts == map[(T, 0) := Prepared, (T, 1) := Prepared] && s.prepareOk == {(T, 0), (T, 1)}
  {
    hide Reaches;
    var s1 := LogBegin();
    ReachesStep(Empty(), s1, SendPrepare(T));
    var s2 := Do(s1, SendPrepare(T));
    var s3 := PrepareAt(Empty(), s2, 0);
    s := PrepareAt(Empty(), s3, 1);
  }

  lemma EnterTwo(m: State) returns (s: State)
    requires Reaches(Empty(), m) && Driving(m, AwaitPrepare, Phase1, [], m.disk, Row(false)) && m.prepareOk == {(T, 0), (T, 1)}
    ensures Reaches(Empty(), s) && Driving(s, AwaitCommitting, Phase2, [Rec(Committing(T))], m.disk, Row(false)) && s.parts == m.parts
  {
    hide Reaches;
    assert AllOk(2, T, m.prepareOk);
    ReachesStep(Empty(), m, EnterPhaseTwo(T));
    s := Do(m, EnterPhaseTwo(T));
  }

  /** The client is interrupted while its commit record is on the way to the log. */
  lemma InterruptBreaksAtomicity() returns (s: State)
    ensures Reaches(Empty(), s) && Enabled(s, Abandon(T)) && Hazard(s, Abandon(T)) && CanSplit(Do(s, Abandon(T)))
  {
    hide Reaches, CanSplit, Inv;
    var s1 := PrepareBoth();
    s := EnterTwo(s1);
    InitReaches(s);
    HazardSplits(s, Abandon(T));
  }

  lemma InitReaches(s: State)
    requires Reaches(Empty(), s)
    ensures Inv(s)
  {
    hide Reaches, Inv;
    InitKeeps(Empty());
    ReachesKeeps(Empty(), s);
  }

  /** The commit record lands, its fsync fails and so does the rewind: the client is told it failed. */
  lemma FailedRewindBreaksAtomicity() returns (s: State, step: Step)
    ensures Reaches(Empty(), s) && Enabled(s, step) && step == BreakBatch(1, [Committing(T)], false, true, Opened)
    ensures Hazard(s, step) && CanSplit(Do(s, step))
  {
    hide Reaches, CanSplit, Inv, GivenUp, RefuseAll;
    var s1 := PrepareBoth();
    s := EnterTwo(s1);
    InitReaches(s);
    WriteSingle(s, Committing(T));
    step := BreakBatch(1, [Committing(T)], false, true, Opened);
    OpenedFree(s, 1, [Committing(T)], false);
    assert step.landed[0].Committing?;
    HazardSplits(s, step);
  }

  /** A segment that was opened needs no other name. */
  lemma OpenedFree(s: State, n: nat, rs: seq<Record>, torn: bool)
    requires |rs| <= |s.channel| && s.disk != []
    ensures !NameTaken(GivenUp(s, n, rs, torn, true, Opened))
  {
  }

  lemma RotateNow(m: State) returns (s: State)
    requires Reaches(Empty(), m) && m.up && m.writing && m.disk == [Seg(0, [Beginning()])]
    ensures Reaches(Empty(), s) && s == m.(disk := [Seg(0, [Beginning()]), Seg(1, [])])
  {
    hide Reaches;
    ReachesStep(Empty(), m, Rotate);
    s := Do(m, Rotate);
  }

  lemma LogDecision(m: State) returns (s: State)
    requires Reaches(Empty(), m)
    requires Driving(m, AwaitCommitting, Phase2, [Rec(Committing(T))], [Seg(0, [Beginning()]), Seg(1, [])], Row(false))
    ensures Reaches(Empty(), s) && s.up && s.writing && s.shards == 2 && s.parts == m.parts && s.channel == []
    ensures s.drivers == map[T := CommittingAcked]
    ensures s.disk == [Seg(0, [Beginning()]), Seg(1, [Committing(T)])]
  {
    hide Reaches;
    s := WriteNow(Empty(), m, Committing(T));
    assert m.disk[..1] == [Seg(0, [Beginning()])] && [] + [Committing(T)] == [Committing(T)];
  }

  function BadDisk(e: Error): seq<Segment> {
    [Seg(0, [Beginning()]), Segment(1, true, [Committing(T)], Broken(e))]
  }

  lemma BadDiskReads(e: Error)
    ensures Decided(ReplayDisk(BadDisk(e)), T) && Undecided(Reread(BadDisk(e)), T)
  {
    var a, b, z := BadDisk(e)[0], BadDisk(e)[1], Seg(2, []);
    QuarantinedReplay([a, b, z], a, b, z, T);
    assert [a, b, z] == BadDisk(e) + [z];
    AddEmptyLog(BadDisk(e), z);
    assert After(BadDisk(e)) == [a, z] by {
      assert BadDisk(e)[..1] == [a] && [a][..0] == [] && Survivors([a]) == [a];
    }
  }

  /** The segment with the commit record is damaged, set aside by one recovery and forgotten by the next. */
  lemma QuarantineBreaksAtomicity(e: Error) returns (s: State, step: Step)
    ensures Reaches(Empty(), s) && Enabled(s, step) && step == BitRot(1, Cut(1, Broken(e))) && Hazard(s, step) && CanSplit(Do(s, step))
  {
    hide Reaches, CanSplit, Inv, ReplayDisk, Reread;
    var s1 := PrepareBoth();
    var s2 := RotateNow(s1);
    var s3 := EnterTwo(s2);
    var s4 := LogDecision(s3);
    s := CrashNow(Empty(), s4);
    InitReaches(s);
    step := BitRot(1, Cut(1, Broken(e)));
    assert s.disk[1].records[..1] == [Committing(T)];
    assert Damaged(s.disk, 1, Cut(1, Broken(e))) == BadDisk(e);
    HeaderNameFree(BadDisk(e));
    var m := Do(s, step);
    assert m.disk == BadDisk(e);
    BadDiskReads(e);
    assert PartOf(m, T, 0) == Prepared;
    assert InvertedBy(m, ReplayDisk(m.disk), Reread(m.disk), T);
    HazardSplits(s, step);
  }

  function TornDisk(): seq<Segment> {
    [Seg(0, [Beginning()]), Segment(1, true, [Committing(T)], TornTail), Seg(3, [])]
  }

  lemma TornDiskReads()
    ensures Decided(ReplayDisk(TornDisk()), T) && Undecided(Reread(TornDisk()), T)
  {
    var a, b, z := TornDisk()[0], TornDisk()[1], TornDisk()[2];
    QuarantinedReplay(TornDisk(), a, b, z, T);
    QuarantinedSurvivors(TornDisk(), a, b, z);
  }

  lemma LogDecisionThenAsk() returns (s: State)
    ensures Reaches(Empty(), s) && s.up && s.writing && s.shards == 2 && s.channel == [TakeCheckpoint]
    ensures s.disk == [Seg(0, [Beginning()]), Seg(1, [Committing(T)])] && PartOf(s, T, 0) == Prepared
  {
    hide Reaches;
    var s1 := PrepareBoth();
    var s2 := RotateNow(s1);
    var s3 := EnterTwo(s2);
    var s4 := LogDecision(s3);
    ReachesStep(Empty(), s4, RequestCheckpoint);
    s := Do(s4, RequestCheckpoint);
  }

  /** The segment with the commit record is given up with a torn tail, and so counts as corrupt from then on. */
  lemma TornSegmentBreaksAtomicity() returns (s: State, step: Step)
    ensures Reaches(Empty(), s) && Enabled(s, step) && step == BreakBatch(1, [], true, true, Opened)
    ensures Hazard(s, step) && CanSplit(Do(s, step))
  {
    hide Reaches, CanSplit, Inv, ReplayDisk, Reread;
    s := LogDecisionThenAsk();
    InitReaches(s);
    step := BreakBatch(1, [], true, true, Opened);
    assert s.channel[..0] == [];
    var m := Do(s, step);
    assert m.disk == TornDisk();
    TornDiskReads();
    RefuseAllFrame(s, 1);
    assert m.shards == 2 && PartOf(m, T, 0) == Prepared;
    assert InvertedBy(m, ReplayDisk(m.disk), Reread(m.disk), T);
    HazardSplits(s, step);
  }

  function CutDisk(): seq<Segment> {
    [Seg(0, [Beginning()]), Segment(1, true, [], TornTail)]
  }

  lemma CutDiskReads()
    ensures !Corrupted(CutDisk()) && Undecided(ReplayDisk(CutDisk()), T) && Undecided(Reread(CutDisk()), T)
  {
    var a, b, z := CutDisk()[0], Segment(1, true, [Committing(T)], CleanEnd), CutDisk()[1];
    QuarantinedReplay([a, b, z], a, b, z, T);
    assert CutDisk() == [a, z];
    CleanRecovery(CutDisk());
  }

  lemma CommitSent() returns (s: State)
    ensures Reaches(Empty(), s) && s.up && s.shards == 2 && T in s.commitSent && PartOf(s, T, 0) == Prepared
    ensures s.disk == [Seg(0, [Beginning()]), Seg(1, [Committing(T)])]
  {
    hide Reaches;
    var s1 := PrepareBoth();
    var s2 := RotateNow(s1);
    var s3 := EnterTwo(s2);
    var s4 := LogDecision(s3);
    ReachesStep(Empty(), s4, SendCommit(T));
    s := Do(s4, SendCommit(T));
  }

  /**
   The commit record is logged, acknowledged and acted upon; then damage makes its length run past
   the end of the last file. That reads as a torn tail, which is no corruption there.
   */
  lemma UnnoticedDamageBreaksAtomicity() returns (s: State, step: Step)
    ensures Reaches(Empty(), s) && Enabled(s, step) && step == BitRot(1, Cut(0, TornTail)) && !Corrupted(Do(s, step).disk)
    ensures Hazard(s, step) && CanSplit(Do(s, step))
  {
    hide Reaches, CanSplit, Inv, ReplayDisk, Reread, Corrupted;
    var s1 := CommitSent();
    s := CrashNow(Empty(), s1);
    InitReaches(s);
    step := BitRot(1, Cut(0, TornTail));
    assert Damaged(s.disk, 1, Cut(0, TornTail)) == CutDisk();
    var m := Do(s, step);
    CutDiskReads();
    assert m.shards == 2 && PartOf(m, T, 0) == Prepared;
    assert InvertedBy(m, ReplayDisk(m.disk), Reread(m.disk), T);
    HazardSplits(s, step);
  }
}
