/**
 Atomicity holds exactly without hazards: after any step that is a hazard, from any state of a safe
 run and with at least two shards, there is a continuation without a further hazard that ends with
 a transaction committed on one shard and rolled back on another; after any other step there is none.
 */
module TwoPhaseHazards {
  import opened WalRecord
  import opened WalLog
  import opened WalRecovery
  import opened WalHistory
  import opened TwoPhase
  import opened TwoPhaseDisk
  import opened TwoPhaseInvariant
  import opened TwoPhaseSafety
  import opened TwoPhaseReach

  ghost predicate CanSplit(s: State) {
    exists s' :: Reaches(s, s') && !Atomic(s')
  }

  lemma Splits(s: State, s': State, t: Txn, i: nat, j: nat)
    requires Reaches(s, s') && i < s'.shards && j < s'.shards
    requires PartOf(s', t, i) == Committed && PartOf(s', t, j) == RolledBack
    ensures CanSplit(s)
  {
    hide Reaches;
    assert !Atomic(s');
  }

  // ---- what recoveries do to one transaction ------------------------------------------

  /** A recovery can start from here, after a crash if need be. */
  predicate Recoverable(m: State) {
    FilesInv(m.disk, false) && if m.up then m.disk != [] else m.monitor == Idle
  }

  lemma Down(s: State, m: State) returns (m': State)
    requires Reaches(s, m) && Recoverable(m)
    ensures Reaches(s, m') && Recoverable(m') && !m'.up
    ensures m'.disk == m.disk && m'.parts == m.parts && m'.shards == m.shards
  {
    hide Reaches, FilesInv;
    m' := m;
    if m.up { m' := CrashNow(s, m); }
  }

  lemma AfterRecoverable(disk: seq<Segment>)
    requires FilesInv(disk, false)
    ensures FilesInv(After(disk), false) && !NameTaken(disk)
  {
    AfterFiles(disk);
    ClosedFiles(After(disk), true);
  }

  /** A recovery that reads the transaction as decided may get it committed at any shard. */
  lemma RecoveryCommits(s: State, m: State, t: Txn, i: nat) returns (m': State)
    requires Reaches(s, m) && Recoverable(m)
    requires Decided(ReplayDisk(m.disk), t) && i < m.shards
    requires PartOf(m, t, i) == Prepared || PartOf(m, t, i) == Committed
    ensures Reaches(s, m') && m'.up && m'.shards == m.shards && m'.disk == After(m.disk) && Recoverable(m')
    ensures forall x: Txn, j: nat :: PartOf(m', x, j) == if (x, j) == (t, i) then Committed else PartOf(m, x, j)
  {
    hide Reaches, ReplayDisk, After, FilesInv, Corrupted, NameTaken, RestoredSnapshot, Lose;
    var m1 := Down(s, m);
    AfterRecoverable(m1.disk);
    var m2 := RecoverFirst(s, m1, t);
    RecoveringIs(m1, m2.queue);
    var m3 := PickCommit(s, m2);
    m' := CommitAt(s, m3, t, i);
    assert m3.parts == m.parts;
  }

  lemma RecoveringIs(m: State, order: seq<Txn>)
    ensures var m' := Recovering(m, order);
            && m'.up && m'.disk == After(m.disk) && m'.parts == m.parts && m'.shards == m.shards && m'.monitor == m.monitor
            && m'.mem == Restored(ReplayDisk(m.disk), Corrupted(m.disk))
  {
    hide ReplayDisk, After, Corrupted, Restored, RestoredSnapshot;
  }

  /** What the recovery after the next one reads as undecided, it may get rolled back at any shard. */
  lemma RecoveriesRollBack(s: State, m: State, t: Txn, j: nat) returns (m': State)
    requires Reaches(s, m) && Recoverable(m)
    requires Undecided(Reread(m.disk), t) && j < m.shards && PartOf(m, t, j) == Prepared
    ensures Reaches(s, m') && m'.shards == m.shards
    ensures forall x: Txn, i: nat :: PartOf(m', x, i) == if (x, i) == (t, j) then RolledBack else PartOf(m, x, i)
  {
    hide Reaches, ReplayDisk, After, FilesInv, Corrupted, NameTaken, RestoredSnapshot, Lose;
    var m1 := Down(s, m);
    AfterRecoverable(m1.disk);
    var m2 := RecoverNow(s, m1);
    var order :| m2 == Recovering(m1, order);
    RecoveringIs(m1, order);
    var m3 := Down(s, m2);
    AfterRecoverable(m3.disk);
    CorruptionIsForgotten(m.disk);
    var m4 := RecoverFirst(s, m3, t);
    RecoveringIs(m3, m4.queue);
    var m5 := PickRollback(s, m4);
    assert m5.parts == m.parts;
    m' := RollBackAt(s, m5, t, j);
  }

  // ---- a client interrupted while its decision is being logged -------------------------------

  lemma {:induction false} EntriesOf(w: Table) returns (es: seq<CheckpointEntry>)
    ensures FromEntries(es) == w
    decreases |w|
  {
    if w == map[] {
      es := [];
    } else {
      var t :| t in w;
      var w' := w - {t};
      assert w == w'[t := w[t]] && w'.Keys == w.Keys - {t};
      var front := EntriesOf(w');
      var e := CheckpointEntry(t, w[t].user, w[t].database, w[t].decided);
      FromEntriesSnoc(front, e);
      es := front + [e];
    }
  }

  lemma RefuseEverything(s: State, m: State) returns (m': State)
    requires Reaches(s, m) && m.up
    ensures Reaches(s, m') && m' == m.(channel := [], drivers := m'.drivers)
  {
    hide Reaches;
    var n := |m.channel|;
    ReachesStep(s, m, RefuseBatch(n));
    m' := Do(m, RefuseBatch(n));
    RefuseAllFrame(m, n);
  }

  /** The writer's snapshot can be made what every later recovery reads. */
  lemma CheckpointNow(s: State, m: State) returns (m': State)
    requires Reaches(s, m) && m.up && m.writing && m.channel == [] && FilesInv(m.disk, true)
    ensures Reaches(s, m') && ReplayDisk(m'.disk) == Reread(m'.disk) == m.snapshot && FilesInv(m'.disk, true)
    ensures m' == m.(disk := m'.disk, gcLsns := m'.gcLsns)
  {
    hide Reaches, FilesInv, ReplayDisk, Reread, FromEntries;
    var es := EntriesOf(m.snapshot);
    var r := Checkpoint(es);
    CheckpointRead(m.disk, es);
    ReachesStep(s, m, RequestCheckpoint);
    var m1 := Do(m, RequestCheckpoint);
    assert m1 == m.(channel := [TakeCheckpoint]);
    m' := WriteNow(s, m1, r);
  }

  lemma OpenIntact(disk: seq<Segment>)
    requires FilesInv(disk, true)
    ensures disk != [] && Intact(disk[|disk| - 1])
  {
  }

  lemma CheckpointRead(disk: seq<Segment>, es: seq<CheckpointEntry>)
    requires FilesInv(disk, true)
    ensures disk != [] && FilesInv(AppendTo(disk, Checkpoint(es)), true)
    ensures ReplayDisk(AppendTo(disk, Checkpoint(es))) == Reread(AppendTo(disk, Checkpoint(es))) == FromEntries(es)
  {
    hide FilesInv, Reread, ReplayDisk, Flatten, FromEntries;
    var r := Checkpoint(es);
    AppendToFiles(disk, r);
    assert disk != [] && Intact(disk[|disk| - 1]) by { OpenIntact(disk); }
    AppendToView(disk, r);
    assert See(AppendTo(disk, r)).e == Apply(Reread(disk), r) && See(AppendTo(disk, r)).d == Apply(ReplayDisk(disk), r);
  }

  lemma WriteNow(s: State, m: State, r: Record) returns (m': State)
    requires Reaches(s, m) && m.up && m.writing && m.disk != [] && m.channel != [] && Materializes(m.snapshot, m.channel[0], r)
    ensures Reaches(s, m') && m' == WriteOne(m, r)
  {
    hide Reaches, WriteOne, WriteAll;
    WriteSingle(m, r);
    ReachesStep(s, m, WriteBatch([r]));
    m' := Do(m, WriteBatch([r]));
  }

  lemma WriteSingle(s: State, r: Record)
    requires s.up && s.writing && s.disk != [] && s.channel != [] && Materializes(s.snapshot, s.channel[0], r)
    ensures CanWrite(s, [r]) && WriteAll(s, [r]) == WriteOne(s, r)
  {
    assert [r][..0] == [];
    assert Replay(s.snapshot, [r][..0]) == s.snapshot;
  }

  /** What is known of a client that waits for its decision to be logged. */
  lemma DecidingClient(s: State, t: Txn)
    requires Inv(s) && Deciding(s, t)
    ensures s.up && t in s.mem && s.mem[t] == Phase2 && Undecided(s.snapshot, t)
    ensures t !in s.commitSent && t !in s.rollbackSent
    ensures forall i: nat :: i < s.shards ==> PartOf(s, t, i) == Prepared
  {
    hide Waiting, HasDecision, Mentioned, Ordered, ReplayDisk, Reread, Flatten;
    assert TxnInv(s, See(s.disk), t);
    forall i: nat | i < s.shards
      ensures PartOf(s, t, i) == Prepared
    {
      assert PartInv(s, t, i);
    }
  }

  lemma InvRecoverable(s: State)
    requires Inv(s)
    ensures Recoverable(s)
  {
    hide FilesInv;
    ClosedFiles(s.disk, s.writing);
  }

  lemma AbandonedWriting(s: State, t: Txn)
    requires Inv(s) && Deciding(s, t) && s.writing && t in s.mem
    ensures Abandoned(s, t) == s.(drivers := s.drivers - {t}, queue := s.queue + [t]) && t in Abandoned(s, t).queue
    ensures FilesInv(s.disk, true)
  {
    hide FilesInv, GcInv, TxnInv;
    assert (s.queue + [t])[|s.queue|] == t;
  }

  /** While the log is written, its snapshot can be made what every later recovery reads. */
  lemma WritingAbandonSplits(s: State, t: Txn)
    requires Inv(s) && Deciding(s, t) && s.writing && s.shards >= 2
    ensures CanSplit(Abandoned(s, t))
  {
    hide Reaches, FilesInv, Reread, Inv, Abandoned, CanSplit;
    DecidingClient(s, t);
    var s1 := Abandoned(s, t);
    AbandonedWriting(s, t);
    ReachesSelf(s1);
    var m1 := RefuseEverything(s1, s1);
    var m2 := CheckpointNow(s1, m1);
    var m3 := MonitorReaches(s1, m2, t);
    var m4 := PickCommit(s1, m3);
    assert m4.parts == s.parts && PartOf(s, t, 0) == Prepared == PartOf(s, t, 1);
    var m5 := CommitAt(s1, m4, t, 0);
    assert Recoverable(m5) by { OpenIntact(m5.disk); ClosedFiles(m5.disk, true); }
    var m6 := RecoveriesRollBack(s1, m5, t, 1);
    Splits(s1, m6, t, 0, 1);
  }

  /** When it is not, it depends on what they read already. */
  lemma StoppedAbandonSplits(s: State, t: Txn)
    requires Inv(s) && Deciding(s, t) && Undecided(Reread(s.disk), t) && s.shards >= 2
    ensures CanSplit(Abandoned(s, t))
  {
    hide Inv, FilesInv, Reread, ReplayDisk, CanSplit;
    DecidingClient(s, t);
    InvRecoverable(s);
    var s1 := Abandoned(s, t);
    assert t in s1.queue by { assert s1.queue[|s.queue|] == t; }
    assert forall i: nat :: i < s.shards ==> PartOf(s1, t, i) == PartOf(s, t, i);
    assert PartOf(s1, t, 0) == Prepared;
    InvertedSplits(s1, t);
  }

  lemma AbandonSplits(s: State, step: Step)
    requires Inv(s) && step.Abandon? && Enabled(s, step) && Hazard(s, step) && s.shards >= 2
    ensures CanSplit(Do(s, step))
  {
    hide Inv, CanSplit, Abandoned, Reread;
    if s.writing {
      WritingAbandonSplits(s, step.txn);
    } else {
      StoppedAbandonSplits(s, step.txn);
    }
  }

  // ---- a commit record that lands although it was refused -----------------------------------

  lemma {:induction false} LandedCommitting(s: State, rs: seq<Record>, i: nat, t: Txn)
    requires CanWrite(s, rs) && i < |rs| && rs[i] == Committing(t) && t in s.drivers
    requires s.drivers[t] == AwaitCommitting || s.drivers[t] == CommittingAcked
    ensures var a := WriteAll(s, rs).drivers; t in a && a[t] == CommittingAcked
    decreases |rs|
  {
    hide Apply, AppendTo, Replay, FromEntries, Answer;
    var n := |rs| - 1;
    CanWritePrefix(s, rs, n);
    LandedStays(s, rs[..n], t);
    var x, a := s.channel[n], WriteAll(s, rs[..n]).drivers;
    assert x == s.channel[..|rs|][n] && Materializes(Replay(s.snapshot, rs[..n]), x, rs[n]);
    assert WriteAll(s, rs).drivers == Answer(a, x, true);
    if i < n {
      LandedCommitting(s, rs[..n], i, t);
    }
    AnswerStays(a, x, t);
  }

  lemma AnswerStays(a: map<Txn, Pc>, x: Append, t: Txn)
    requires t in a && (a[t] == AwaitCommitting || a[t] == CommittingAcked)
    ensures var b := Answer(a, x, true); t in b && (b[t] == AwaitCommitting || b[t] == CommittingAcked)
    ensures a[t] == CommittingAcked || x == Rec(Committing(t)) ==> Answer(a, x, true)[t] == CommittingAcked
  {
  }

  lemma {:induction false} LandedStays(s: State, rs: seq<Record>, t: Txn)
    requires CanWrite(s, rs) && t in s.drivers && (s.drivers[t] == AwaitCommitting || s.drivers[t] == CommittingAcked)
    ensures var a := WriteAll(s, rs).drivers; t in a && (a[t] == AwaitCommitting || a[t] == CommittingAcked)
  {
    hide Apply, AppendTo, Replay, FromEntries, Answer, Materializes;
    if rs != [] {
      var n := |rs| - 1;
      CanWritePrefix(s, rs, n);
      LandedStays(s, rs[..n], t);
      AnswerStays(WriteAll(s, rs[..n]).drivers, s.channel[n], t);
      assert WriteAll(s, rs).drivers == Answer(WriteAll(s, rs[..n]).drivers, s.channel[n], true);
    }
  }

  lemma {:induction false} RefusedCommitting(s: State, n: nat, i: nat, t: Txn)
    requires i < n <= |s.channel| && s.channel[i] == Rec(Committing(t)) && t in s.drivers
    requires s.drivers[t] == AwaitCommitting || s.drivers[t] == CommittingNacked
    ensures var b := RefuseAll(s, n).drivers; t in b && b[t] == CommittingNacked
  {
    RefusedStays(s, n - 1, t);
    if i < n - 1 {
      RefusedCommitting(s, n - 1, i, t);
    }
  }

  lemma {:induction false} RefusedStays(s: State, n: nat, t: Txn)
    requires n <= |s.channel| && t in s.drivers && (s.drivers[t] == AwaitCommitting || s.drivers[t] == CommittingNacked)
    ensures var b := RefuseAll(s, n).drivers; t in b && (b[t] == AwaitCommitting || b[t] == CommittingNacked)
  {
    if n > 0 { RefusedStays(s, n - 1, t); }
  }

  lemma {:induction false} CountedRequest(ch: seq<Append>, i: nat, t: Txn)
    requires i < |ch| && ch[i] == Rec(Committing(t))
    ensures Waiting(ch, t).committings > 0
  {
    if i > 0 { CountedRequest(ch[1..], i - 1, t); }
  }

  lemma Requested(s: State, rs: seq<Record>, i: nat, t: Txn)
    requires Inv(s) && CanWrite(s, rs) && i < |rs| && rs[i] == Committing(t)
    ensures s.channel[i] == Rec(Committing(t)) && t in s.drivers && s.drivers[t] == AwaitCommitting
  {
    assert Materializes(Replay(s.snapshot, rs[..i]), s.channel[..|rs|][i], rs[i]);
    assert s.channel[i] == Rec(Committing(t));
    CountedRequest(s.channel, i, t);
    hide LogOf, ShardsOf, Parts, Waiting;
    assert TxnInv(s, See(s.disk), t);
  }

  lemma GivenUpRecoverable(s: State, step: Step)
    requires Inv(s) && step.BreakBatch? && Enabled(s, step)
    ensures var s1 := Do(s, step);
            s1.up && Recoverable(s1) && s1.shards == s.shards && s1.parts == s.parts && s1.drivers == RefuseAll(s, step.count).drivers
    ensures Flatten(Do(s, step).disk) == Flatten(WriteAll(s, step.landed).disk)
  {
    var n, rs := step.count, step.landed;
    WriteAllKeeps(s, rs);
    WriteAllFrame(s, rs);
    assert GcInv(WriteAll(s, rs).disk, s.gcLsns) by { FewerGc(WriteAll(s, rs).disk, WriteAll(s, rs).gcLsns, s.gcLsns); }
    hide FilesInv, GcInv, TxnInv, WriteAll, RefuseAll, GivenUp, NameTaken, Flatten;
    RefuseAllFrame(s, n);
    GivenUpFiles(s, n, rs, step.torn, step.counted, step.next);
    ClosedFiles(Do(s, step).disk, step.next.Opened?);
  }

  lemma FewerGc(disk: seq<Segment>, lsns: set<nat>, fewer: set<nat>)
    requires GcInv(disk, lsns) && fewer <= lsns
    ensures GcInv(disk, fewer)
  {
  }

  /** The client is told of a failure while the log says "commit". */
  lemma LandedAnyway(s: State, step: Step, i: nat) returns (t: Txn)
    requires Inv(s) && step.BreakBatch? && Enabled(s, step) && i < |step.landed| && step.landed[i].Committing?
    ensures var s1 := Do(s, step);
            && s1.up && t in s1.drivers && s1.drivers[t] == CommittingNacked && Decided(ReplayDisk(s1.disk), t)
            && Recoverable(s1) && s1.shards == s.shards && s1.parts == s.parts
            && forall j: nat :: j < s.shards ==> PartOf(s, t, j) == Prepared
  {
    var rs, n := step.landed, step.count;
    t := rs[i].txn;
    hide Inv, Do, WriteAll, RefuseAll, Flatten, Recoverable, NameTaken, GivenUp;
    Requested(s, rs, i, t);
    DecidingClient(s, t);
    LandedCommitting(s, rs, i, t);
    RefusedCommitting(s, n, i, t);
    WriteAllKeeps(s, rs);
    LandedDecision(WriteAll(s, rs), t);
    GivenUpRecoverable(s, step);
  }

  lemma LandedDecision(a: State, t: Txn)
    requires Inv(a) && t in a.drivers && a.drivers[t] == CommittingAcked
    ensures Decided(ReplayDisk(a.disk), t)
  {
    assert TxnInv(a, See(a.disk), t);
  }

  lemma LandedSplits(s: State, step: Step, i: nat)
    requires Inv(s) && step.BreakBatch? && Enabled(s, step) && i < |step.landed| && step.landed[i].Committing? && s.shards >= 2
    ensures CanSplit(Do(s, step))
  {
    hide Reaches, FilesInv, ReplayDisk, Inv, Enabled, Hazard, Do;
    var s1 := Do(s, step);
    var t := LandedAnyway(s, step, i);
    ReachesSelf(s1);
    var m1 := Refused(s1, s1, t);
    var m2 := MonitorReaches(s1, m1, t);
    var m3 := PickRollback(s1, m2);
    assert m3.parts == s.parts && PartOf(s, t, 0) == Prepared == PartOf(s, t, 1);
    var m4 := RollBackAt(s1, m3, t, 0);
    var m5 := RecoveryCommits(s1, m4, t, 1);
    Splits(s1, m5, t, 1, 0);
  }

  lemma Refused(s: State, m: State, t: Txn) returns (m': State)
    requires Reaches(s, m) && m.up && t in m.drivers && m.drivers[t] == CommittingNacked
    ensures Reaches(s, m') && m' == m.(mem := m.mem[t := Phase1], drivers := m.drivers - {t}, queue := m.queue + [t])
    ensures t in m'.queue
  {
    hide Reaches;
    ReachesStep(s, m, CommittingRefused(t));
    m' := Do(m, CommittingRefused(t));
    assert m'.queue[|m.queue|] == t;
  }

  // ---- a decision that leaves with a file -------------------------------------------------------

  /** Where the shards and the monitor stand with a transaction that may be committed. */
  predicate Committable(m: State, t: Txn) {
    && (forall i: nat :: i < m.shards ==> PartOf(m, t, i) == Prepared || PartOf(m, t, i) == Committed)
    && (t in m.mem && m.mem[t] == Phase2 && t !in m.drivers ==> t in m.queue || BusyWith(m, t))
    && Recoverable(m) && (!m.up ==> m.mem == map[])
  }

  /** Whatever makes the transaction committable, one shard can be brought to commit it first. */
  lemma CommitsFirst(s: State, m: State, t: Txn, i: nat) returns (m': State)
    requires Reaches(s, m) && Committable(m, t) && i < m.shards
    requires InvertedBy(m, ReplayDisk(m.disk), Reread(m.disk), t)
    ensures Reaches(s, m') && Recoverable(m') && m'.shards == m.shards
    ensures Reread(m'.disk) == Reread(m.disk)
    ensures forall x: Txn, j: nat :: PartOf(m', x, j) == if (x, j) == (t, i) then Committed else PartOf(m, x, j)
  {
    hide Reaches, FilesInv, ReplayDisk, Reread, After, CommittedEverywhere;
    assert PartOf(m, t, i) == Prepared || PartOf(m, t, i) == Committed;
    if t in m.commitSent {
      m' := CommitAt(s, m, t, i);
    } else if Decided(ReplayDisk(m.disk), t) {
      m' := RecoveryCommits(s, m, t, i);
      RereadAgain(m.disk);
    } else {
      m' := MonitorCommits(s, m, t, i);
    }
  }

  lemma RereadAgain(disk: seq<Segment>)
    ensures Reread(After(disk)) == Reread(disk)
  {
    hide Flatten, ReplayDisk, After;
    AfterView(disk);
  }

  lemma MonitorCommits(s: State, m: State, t: Txn, i: nat) returns (m': State)
    requires Reaches(s, m) && m.up && i < m.shards && t in m.mem && m.mem[t] == Phase2 && (t in m.queue || BusyWith(m, t))
    requires PartOf(m, t, i) == Prepared || PartOf(m, t, i) == Committed
    ensures Reaches(s, m') && m'.disk == m.disk && m'.up && m'.shards == m.shards
    ensures forall x: Txn, j: nat :: PartOf(m', x, j) == if (x, j) == (t, i) then Committed else PartOf(m, x, j)
  {
    hide Reaches;
    var m1 := MonitorReaches(s, m, t);
    var m2 := PickCommit(s, m1);
    assert m2.parts == m.parts;
    m' := CommitAt(s, m2, t, i);
  }

  lemma InvertedSplits(m: State, t: Txn)
    requires InvertedBy(m, ReplayDisk(m.disk), Reread(m.disk), t) && Committable(m, t) && m.shards >= 2
    ensures CanSplit(m)
  {
    var j: nat :| j < m.shards && PartOf(m, t, j) != Committed;
    assert PartOf(m, t, j) == Prepared;
    var i := if j == 0 then 1 else 0;
    hide Reaches, FilesInv, ReplayDisk, Reread;
    ReachesSelf(m);
    var m1 := CommitsFirst(m, m, t, i);
    var m2 := RecoveriesRollBack(m, m1, t, j);
    Splits(m, m2, t, i, j);
  }

  /** The shards, the monitor and the clients are as the invariant has them; only files are missing. */
  lemma DamageCommittable(s: State, m: State, t: Txn)
    requires Inv(s) && m == s.(disk := m.disk, lost := m.lost, writing := m.writing) && Recoverable(m)
    requires SubLog(Flatten(m.disk), Flatten(s.disk)) && InvertedBy(m, ReplayDisk(m.disk), Reread(m.disk), t)
    ensures Committable(m, t)
  {
    hide Reread, Flatten, SubLog, HasDecision, Mentioned, Ordered, Resolved, CommittedEverywhere;
    hide Waiting;
    assert TxnInv(s, See(s.disk), t);
    ViewRecords(m.disk, t);
    SubLogKeeps(Flatten(m.disk), Flatten(s.disk), t);
    assert CommittedEverywhere(m, t) <==> CommittedEverywhere(s, t) by { SameShards(s, m, t); }
    forall i: nat | i < m.shards
      ensures PartOf(m, t, i) == Prepared || PartOf(m, t, i) == Committed
    {
      assert PartInv(s, t, i) && PartOf(m, t, i) == PartOf(s, t, i);
    }
  }

  lemma SameShards(s: State, m: State, t: Txn)
    requires m.parts == s.parts && m.shards == s.shards
    ensures CommittedEverywhere(m, t) <==> CommittedEverywhere(s, t)
  {
    assert forall i: nat :: PartOf(s, t, i) == PartOf(m, t, i);
  }

  lemma DamageSplits(s: State, m: State)
    requires Inv(s) && m == s.(disk := m.disk, lost := m.lost, writing := m.writing) && Recoverable(m)
    requires SubLog(Flatten(m.disk), Flatten(s.disk)) && InvertsSome(m) && s.shards >= 2
    ensures CanSplit(m)
  {
    hide Inv, FilesInv, Flatten, SubLog, ReplayDisk, Reread, Committable, CanSplit;
    var t :| InvertedBy(m, ReplayDisk(m.disk), Reread(m.disk), t);
    DamageCommittable(s, m, t);
    InvertedSplits(m, t);
  }

  lemma DeleteSplits(s: State, step: Step)
    requires Inv(s) && step.DeleteSegment? && Enabled(s, step) && Hazard(s, step) && s.shards >= 2
    ensures CanSplit(Do(s, step))
  {
    hide TxnInv, See, SubLog, InvertsSome, CanSplit, FilesInv, GcInv, HasCheckpoint;
    var i := step.segment;
    DeleteGc(s.disk, i, step.lsn, s.gcLsns);
    var j: nat :| i < j < |s.disk| && HasCheckpoint(s.disk[j]);
    DeleteFiles(s.disk, s.writing, i, j);
    ClosedFiles(Without(s.disk, i), s.writing);
    WithoutLog(s.disk, i);
    DamageSplits(s, Do(s, step));
  }

  lemma BitRotSplits(s: State, step: Step)
    requires Inv(s) && step.BitRot? && Enabled(s, step) && Hazard(s, step) && s.shards >= 2
    ensures CanSplit(Do(s, step))
  {
    hide TxnInv, See, SubLog, InvertsSome, CanSplit, FilesInv, Damaged;
    ClosedFiles(s.disk, s.writing);
    DamagedFiles(s.disk, step.segment, step.rot);
    DamagedLog(s.disk, step.segment, step.rot);
    DamageSplits(s, Do(s, step));
  }

  lemma CrashInRecoverySplits(s: State, step: Step)
    requires Inv(s) && step.CrashInRecovery? && Enabled(s, step) && Hazard(s, step) && s.shards >= 2
    ensures CanSplit(Do(s, step))
  {
    hide TxnInv, See, SubLog, InvertsSome, CanSplit, FilesInv, Sifted;
    ClosedFiles(s.disk, s.writing);
    SiftedFiles(s.disk, step.read);
    SiftedLog(s.disk, step.read);
    DamageSplits(s, Do(s, step));
  }

  lemma BreakBatchSplits(s: State, step: Step)
    requires Inv(s) && step.BreakBatch? && Enabled(s, step) && Hazard(s, step) && s.shards >= 2
    ensures CanSplit(Do(s, step))
  {
    hide TxnInv, See, SubLog, InvertsSome, CanSplit, FilesInv, GcInv, GivenUp, Flatten, RefuseAll, WriteAll, Landed;
    var n, rs := step.count, step.landed;
    if i :| 0 <= i < |rs| && rs[i].Committing? {
      LandedSplits(s, step, i);
    } else {
      BreakLands(s, rs, n);
      var c := Unack(Landed(s, rs, n), RefuseAll(s, n));
      GivenUpFiles(s, n, rs, step.torn, step.counted, step.next);
      var m := Do(s, step);
      ClosedFiles(m.disk, step.next.Opened?);
      assert m == c.(disk := m.disk, writing := m.writing);
      SubLogSelf(Flatten(m.disk));
      assert c.shards == s.shards by { RefuseAllFrame(s, n); }
      DamageSplits(c, m);
    }
  }

  lemma HazardSplits(s: State, step: Step)
    requires Inv(s) && Enabled(s, step) && Hazard(s, step) && s.shards >= 2
    ensures CanSplit(Do(s, step))
  {
    hide Inv, CanSplit, Do, Enabled;
    match step {
      case Abandon(_) => AbandonSplits(s, step);
      case BreakBatch(_, _, _, _, _) => BreakBatchSplits(s, step);
      case DeleteSegment(_, _) => DeleteSplits(s, step);
      case BitRot(_, _) => BitRotSplits(s, step);
      case CrashInRecovery(_) => CrashInRecoverySplits(s, step);
    }
  }

  lemma SafeCannotSplit(s: State)
    requires Inv(s)
    ensures !CanSplit(s)
  {
    hide Inv, Reaches, Atomic;
    if s' :| Reaches(s, s') && !Atomic(s') {
      ReachesKeeps(s, s');
      InvAtomic(s');
      assert false;
    }
  }

  // ---- the theorem -----------------------------------------------------------------------

  /**
   After any safe run and whatever step comes next: the run can still go wrong without a further
   hazard exactly when that step is one, and there are two shards to disagree.
   */
  lemma HazardExact(ss: seq<State>, steps: seq<Step>, step: Step)
    requires SafeRun(ss, steps) && Enabled(ss[|steps|], step)
    ensures CanSplit(Do(ss[|steps|], step)) <==> Hazard(ss[|steps|], step) && ss[0].shards >= 2
  {
    hide Inv, CanSplit, Do, Enabled, Hazard, Init;
    var s := ss[|steps|];
    RunKeeps(ss, steps, |steps|);
    assert SafePath(ss, steps);
    PathShards(ss, steps, |steps|);
    if !Hazard(s, step) {
      StepKeeps(s, step);
      SafeCannotSplit(Do(s, step));
    } else if s.shards >= 2 {
      HazardSplits(s, step);
    } else {
      StepFrame(s, step);
      OneShardCannotSplit(Do(s, step));
    }
  }

  lemma OneShardCannotSplit(s: State)
    requires s.shards < 2
    ensures !CanSplit(s)
  {
    hide Reaches;
    if s' :| Reaches(s, s') && !Atomic(s') {
      ReachesShards(s, s');
      assert false;
    }
  }

  lemma ReachesShards(s: State, s': State)
    requires Reaches(s, s')
    ensures s'.shards == s.shards
  {
    hide Do, Enabled, Hazard;
    var ss, steps :| SafePath(ss, steps) && ss[0] == s && ss[|ss| - 1] == s';
    PathShards(ss, steps, |steps|);
  }

  lemma {:induction false} PathShards(ss: seq<State>, steps: seq<Step>, n: nat)
    requires SafePath(ss, steps) && n < |ss|
    ensures ss[n].shards == ss[0].shards
  {
    hide Do, Enabled, Hazard;
    if n > 0 {
      PathShards(ss, steps, n - 1);
      assert Enabled(ss[n - 1], steps[n - 1]) && ss[n] == Do(ss[n - 1], steps[n - 1]);
      StepFrame(ss[n - 1], steps[n - 1]);
    }
  }
}
