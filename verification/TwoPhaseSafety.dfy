/** Every safe step keeps the protocol's invariant, and the theorems over whole runs that follow. */
module TwoPhaseSafety {
  import opened Common
  import opened WalRecord
  import opened WalLog
  import opened WalRecovery
  import opened WalHistory
  import opened TwoPhase
  import opened TwoPhaseDisk
  import opened TwoPhaseInvariant

  // ---- clients and monitor ------------------------------------------------------------

  lemma StartGood(f: Facts)
    requires Good(f) && f.up && !f.started
    ensures Good(f.(started := true, mem := Some(Phase1), pc := Some(AwaitBegin), waiting := Pending(1, 0, 0)))
  {
  }

  lemma StartTxn(s: State, t0: Txn, user: string, database: string, v: View, t: Txn)
    requires s.up && t0 !in s.started && TxnInv(s, v, t)
    ensures TxnInv(Started(s, t0, user, database), v, t)
  {
    WaitingSnoc(s.channel, Rec(Begin(t0, user, database)), t);
    hide ShardsOf, LogOf, Waiting, Parts;
    ShardsUntouched(s, Started(s, t0, user, database), t);
    if t == t0 { StartGood(FactsOf(s, v, t)); }
  }

  lemma SendPrepareTxn(s: State, t0: Txn, v: View, t: Txn)
    requires At(s, t0, BeginAcked) && TxnInv(s, v, t)
    ensures TxnInv(ToldToPrepare(s, t0), v, t)
  {
    hide ShardsOf, LogOf, Waiting, Parts;
    ShardsUntouched(s, ToldToPrepare(s, t0), t);
  }

  lemma BeginRefusedTxn(s: State, t0: Txn, v: View, t: Txn)
    requires At(s, t0, BeginNacked) && TxnInv(s, v, t)
    ensures TxnInv(NeverBegun(s, t0), v, t)
  {
    hide ShardsOf, LogOf, Waiting, Parts;
    ShardsUntouched(s, NeverBegun(s, t0), t);
  }

  lemma EnterPhaseTwoTxn(s: State, t0: Txn, v: View, t: Txn)
    requires At(s, t0, AwaitPrepare) && ShardsOf(s, t0).prepared && TxnInv(s, v, t)
    ensures TxnInv(InPhaseTwo(s, t0), v, t)
  {
    hide ShardsOf, LogOf, Waiting, Parts;
    WaitingSnoc(s.channel, Rec(Committing(t0)), t);
    ShardsUntouched(s, InPhaseTwo(s, t0), t);
  }

  lemma SendCommitTxn(s: State, t0: Txn, v: View, t: Txn)
    requires At(s, t0, CommittingAcked) && TxnInv(s, v, t)
    ensures TxnInv(ToldToCommit(s, t0), v, t)
  {
    hide ShardsOf, LogOf, Waiting, Parts;
    ShardsUntouched(s, ToldToCommit(s, t0), t);
  }

  lemma CommittingRefusedTxn(s: State, t0: Txn, v: View, t: Txn)
    requires At(s, t0, CommittingNacked) && TxnInv(s, v, t)
    ensures TxnInv(BackInPhaseOne(s, t0), v, t)
  {
    hide ShardsOf, LogOf, Waiting, Parts;
    ShardsUntouched(s, BackInPhaseOne(s, t0), t);
  }

  lemma FinishTxn(s: State, t0: Txn, v: View, t: Txn)
    requires At(s, t0, AwaitCommit) && AllOk(s.shards, t0, s.commitOk) && TxnInv(s, v, t)
    ensures TxnInv(Finished(s, t0), v, t)
  {
    hide ShardsOf, LogOf, Waiting, Parts, AllOk;
    if t == t0 { CommitAnswered(s, t); }
    WaitingSnoc(s.channel, Rec(End(t0)), t);
    ShardsUntouched(s, Finished(s, t0), t);
  }

  lemma AbandonOther(s: State, t0: Txn, v: View, t: Txn)
    requires s.up && t0 in s.drivers && t != t0 && TxnInv(s, v, t)
    ensures TxnInv(Abandoned(s, t0), v, t)
  {
    hide ShardsOf, LogOf, Waiting, Parts, Guards;
    ShardsUntouched(s, Abandoned(s, t0), t);
    var guards := Guards(s.drivers[t0], t0);
    assert t in s.queue + guards <==> t in s.queue || t in guards;
  }

  lemma AbandonMine(s: State, v: View, t: Txn)
    requires s.up && t in s.drivers && TxnInv(s, v, t)
    requires Deciding(s, t) ==> !s.writing && LogOf(v, s.snapshot, t).e != Begun
    ensures TxnInv(Abandoned(s, t), v, t)
  {
    hide ShardsOf, LogOf, Waiting, Parts, Guards;
    ShardsUntouched(s, Abandoned(s, t), t);
    var guards := Guards(s.drivers[t], t);
    assert t in s.queue + guards <==> t in s.queue || t in guards;
    assert guards != [] ==> guards[0] == t;
  }

  lemma PickGoneTxn(s: State, v: View, t: Txn)
    requires s.up && s.monitor == Idle && s.queue != [] && s.queue[0] !in s.mem && TxnInv(s, v, t)
    ensures TxnInv(Picked(s), v, t)
  {
    hide ShardsOf, LogOf, Waiting, Parts;
    assert t in s.queue <==> t == s.queue[0] || t in s.queue[1..];
    WaitingSnoc(s.channel, Rec(End(s.queue[0])), t);
    ShardsUntouched(s, Picked(s), t);
  }

  lemma PickRollbackTxn(s: State, v: View, t: Txn)
    requires s.up && s.monitor == Idle && s.queue != [] && s.queue[0] in s.mem && s.mem[s.queue[0]] == Phase1 && TxnInv(s, v, t)
    ensures TxnInv(Picked(s), v, t)
  {
    hide ShardsOf, LogOf, Waiting, Parts;
    assert t in s.queue <==> t == s.queue[0] || t in s.queue[1..];
    ShardsUntouched(s, Picked(s), t);
  }

  lemma PickCommitTxn(s: State, v: View, t: Txn)
    requires s.up && s.monitor == Idle && s.queue != [] && s.queue[0] in s.mem && s.mem[s.queue[0]] != Phase1 && TxnInv(s, v, t)
    ensures TxnInv(Picked(s), v, t)
  {
    hide ShardsOf, LogOf, Waiting, Parts;
    assert t in s.queue <==> t == s.queue[0] || t in s.queue[1..];
    ShardsUntouched(s, Picked(s), t);
  }

  lemma CleanedUpTxn(s: State, v: View, t: Txn)
    requires s.up && s.monitor.Busy? && TxnInv(s, v, t)
    requires AllOk(s.shards, s.monitor.txn, if s.monitor.phase == Phase2 then s.commitOk else s.rollbackOk)
    ensures TxnInv(CleanedUp(s), v, t)
  {
    hide ShardsOf, LogOf, Waiting, Parts, AllOk;
    if t == s.monitor.txn { Answered(s, v, t); }
    WaitingSnoc(s.channel, Rec(End(s.monitor.txn)), t);
    ShardsUntouched(s, CleanedUp(s), t);
  }

  lemma Answered(s: State, v: View, t: Txn)
    requires BusyWith(s, t) && TxnInv(s, v, t)
    requires AllOk(s.shards, t, if s.monitor.phase == Phase2 then s.commitOk else s.rollbackOk)
    ensures ShardsOf(s, t).settled && (s.monitor.phase == Phase2 ==> ShardsOf(s, t).everywhere)
  {
    hide ShardsOf, LogOf, Waiting, Parts, AllOk;
    if s.monitor.phase == Phase2 { CommitAnswered(s, t); } else { RollbackAnswered(s, t); }
  }

  lemma PutBackTxn(s: State, v: View, t: Txn)
    requires s.up && s.monitor.Busy? && TxnInv(s, v, t)
    ensures TxnInv(PutBack(s), v, t)
  {
    hide ShardsOf, LogOf, Waiting, Parts;
    ShardsUntouched(s, PutBack(s), t);
  }

  lemma DroppedTxn(s: State, v: View, t: Txn)
    requires s.up && s.monitor == Idle && s.queue != [] && s.queue[0] in s.mem && TxnInv(s, v, t)
    ensures TxnInv(Dropped(s), v, t)
  {
    hide ShardsOf, LogOf, Waiting, Parts;
    assert t in s.queue <==> t == s.queue[0] || t in s.queue[1..];
    WaitingSnoc(s.channel, Rec(End(s.queue[0])), t);
    ShardsUntouched(s, Dropped(s), t);
  }

  lemma AskedTxn(s: State, v: View, t: Txn)
    requires s.up && TxnInv(s, v, t)
    ensures TxnInv(s.(channel := s.channel + [TakeCheckpoint]), v, t)
  {
    hide ShardsOf, LogOf, Waiting, Parts, Good;
    WaitingSnoc(s.channel, TakeCheckpoint, t);
    ShardsUntouched(s, s.(channel := s.channel + [TakeCheckpoint]), t);
  }

  lemma CoordinatorTxn(s: State, step: Step, v: View, t: Txn)
    requires OfCoordinator(step) && Enabled(s, step) && !Hazard(s, step) && TxnInv(s, v, t) && v == See(s.disk)
    ensures TxnInv(Do(s, step), v, t)
  {
    hide TxnInv, See, Reread, Started, ToldToPrepare, NeverBegun, InPhaseTwo, ToldToCommit, BackInPhaseOne, Finished,
      Abandoned, Picked, CleanedUp, PutBack, Dropped;
    match step {
      case Start(t0, user, database) => StartTxn(s, t0, user, database, v, t);
      case SendPrepare(t0) => SendPrepareTxn(s, t0, v, t);
      case BeginRefused(t0) => BeginRefusedTxn(s, t0, v, t);
      case EnterPhaseTwo(t0) => EnterPhaseTwoTxn(s, t0, v, t);
      case SendCommit(t0) => SendCommitTxn(s, t0, v, t);
      case CommittingRefused(t0) => CommittingRefusedTxn(s, t0, v, t);
      case Finish(t0) => FinishTxn(s, t0, v, t);
      case Abandon(t0) =>
        if t == t0 {
          SeeLook(s.disk, s.snapshot, t);
          AbandonMine(s, v, t);
        } else {
          AbandonOther(s, t0, v, t);
        }
      case MonitorPick =>
        if s.queue[0] !in s.mem {
          PickGoneTxn(s, v, t);
        } else if s.mem[s.queue[0]] == Phase1 {
          PickRollbackTxn(s, v, t);
        } else {
          PickCommitTxn(s, v, t);
        }
      case MonitorDone => CleanedUpTxn(s, v, t);
      case MonitorRetry => PutBackTxn(s, v, t);
      case MonitorNoDatabase => DroppedTxn(s, v, t);
      case RequestCheckpoint => AskedTxn(s, v, t);
    }
  }

  lemma SeeLook(disk: seq<Segment>, snapshot: Table, t: Txn)
    ensures LogOf(See(disk), snapshot, t).e == Look(Reread(disk), t)
  {
  }

  lemma CoordinatorProcess(s: State, step: Step)
    requires OfCoordinator(step) && Enabled(s, step) && ProcessInv(s)
    ensures ProcessInv(Do(s, step)) && Do(s, step).disk == s.disk
  {
    hide FilesInv, GcInv, Coordinated, Enabled;
  }

  lemma CoordinatorKeeps(s: State, step: Step)
    requires OfCoordinator(step) && Inv(s) && Enabled(s, step) && !Hazard(s, step)
    ensures Inv(Do(s, step))
  {
    CoordinatorProcess(s, step);
    hide TxnInv, ProcessInv, Hazard, Do, Enabled, See;
    forall t
      ensures TxnInv(Do(s, step), See(s.disk), t)
    {
      assert TxnInv(s, See(s.disk), t);
      CoordinatorTxn(s, step, See(s.disk), t);
    }
  }

  // ---- log writer ----------------------------------------------------------------

  function Logged(v: View, r: Record): View {
    View(Apply(v.d, r), Apply(v.e, r), v.log + [r])
  }

  /** What one more record does to what the log says about a transaction. */
  function Applied(g: Log, r: Record, t: Txn): Log {
    match r
    case Begin(x, _, _) =>
      if x == t then Log(Begun, Begun, Begun, g.decision, true, g.ordered && !g.decision) else g
    case Committing(x) =>
      if x == t then Log(Decide(g.d), Decide(g.e), Decide(g.p), true, true, g.ordered) else g
    case End(x) => if x == t then Log(Nowhere, Nowhere, Nowhere, g.decision, true, g.ordered) else g
    case Checkpoint(_) =>
      Log(g.p, g.p, g.p, g.decision || g.p == Chosen, g.mentioned || g.p != Nowhere, g.ordered && (g.p == Begun ==> !g.decision))
  }

  function Decide(e: Mark): Mark {
    if e == Nowhere then Nowhere else Chosen
  }

  lemma LoggedIsApplied(v: View, p: Table, r: Record, t: Txn)
    requires r.Checkpoint? ==> FromEntries(r.active) == p
    ensures LogOf(Logged(v, r), Apply(p, r), t) == Applied(LogOf(v, p, t), r, t)
  {
    HasDecisionSnoc(v.log, r, t);
    OrderedSnoc(v.log, r, t);
    hide HasDecision, Mentioned, Ordered, FromEntries;
  }

  /** What an answer from the log does to a client. */
  function Heard(pc: Option<Pc>, a: Append, t: Txn, ok: bool): Option<Pc> {
    match a
    case Rec(Begin(x, _, _)) =>
      if x == t && pc == Some(AwaitBegin) then Some(if ok then BeginAcked else BeginNacked) else pc
    case Rec(Committing(x)) =>
      if x == t && pc == Some(AwaitCommitting) then Some(if ok then CommittingAcked else CommittingNacked) else pc
    case _ => pc
  }

  lemma AnswerIsHeard(drivers: map<Txn, Pc>, a: Append, t: Txn, ok: bool)
    ensures var drivers' := Answer(drivers, a, ok);
            (if t in drivers' then Some(drivers'[t]) else None) == Heard(if t in drivers then Some(drivers[t]) else None, a, t, ok)
  {
  }

  lemma WriteGood(f: Facts, rest: Pending, a: Append, r: Record, t: Txn)
    requires Good(f) && f.writing && f.up && f.waiting == Add(rest, a, t) && Appendable(a)
    requires match a case Rec(rec) => r == rec case TakeCheckpoint => r.Checkpoint?
    ensures Good(f.(waiting := rest, pc := Heard(f.pc, a, t, true), log := Applied(f.log, r, t)))
  {
  }

  lemma WriteOneTxn(s: State, r: Record, v: View, t: Txn)
    requires s.up && s.writing && s.channel != [] && s.disk != [] && Appendable(s.channel[0])
    requires Materializes(s.snapshot, s.channel[0], r) && TxnInv(s, v, t)
    ensures TxnInv(WriteOne(s, r), Logged(v, r), t)
  {
    var a, rest, s' := s.channel[0], Waiting(s.channel[1..], t), WriteOne(s, r);
    assert Waiting(s.channel, t) == Add(rest, a, t);
    hide ShardsOf, LogOf, Waiting, Parts, Good, Heard, Applied, Logged, FromEntries;
    ShardsUntouched(s, s', t);
    LoggedIsApplied(v, s.snapshot, r, t);
    AnswerIsHeard(s.drivers, a, t, true);
    WriteGood(FactsOf(s, v, t), rest, a, r, t);
  }

  /** One request made durable. */
  lemma WriteOneKeeps(s: State, r: Record)
    requires Inv(s) && s.writing && s.channel != [] && Materializes(s.snapshot, s.channel[0], r)
    ensures Inv(WriteOne(s, r)) && WriteOne(s, r).writing
  {
    var s', v := WriteOne(s, r), See(s.disk);
    WriteOneProcess(s, r);
    WrittenTo(s.disk, r, s.gcLsns);
    hide See, TxnInv, ProcessInv, Logged, WriteOne;
    assert See(s'.disk) == Logged(v, r) by { WroteTo(s, r); }
    forall t
      ensures TxnInv(s', Logged(v, r), t)
    {
      assert TxnInv(s, v, t);
      WriteOneTxn(s, r, v, t);
    }
  }

  lemma WroteTo(s: State, r: Record)
    requires s.channel != [] && s.disk != []
    ensures WriteOne(s, r).disk == AppendTo(s.disk, r)
  {
  }

  lemma WriteOneProcess(s: State, r: Record)
    requires ProcessInv(s) && s.writing && s.channel != []
    ensures s.disk != [] && ProcessInv(WriteOne(s, r)) && WriteOne(s, r).writing && s.up && Appendable(s.channel[0])
  {
    hide FilesInv, GcInv, Logged, See;
    WrittenTo(s.disk, r, s.gcLsns);
  }

  lemma WrittenTo(disk: seq<Segment>, r: Record, lsns: set<nat>)
    requires FilesInv(disk, true) && GcInv(disk, lsns)
    ensures disk != [] && See(AppendTo(disk, r)) == Logged(See(disk), r) && FilesInv(AppendTo(disk, r), true)
    ensures GcInv(AppendTo(disk, r), if r.Checkpoint? then lsns + {EndLsn(disk)} else lsns)
  {
    hide ReplayDisk, Reread, Flatten, GcInv;
    AppendToFiles(disk, r);
    AppendToView(disk, r);
    AppendToGc(disk, r, lsns);
  }

  lemma {:induction false} WriteAllKeeps(s: State, rs: seq<Record>)
    requires Inv(s) && CanWrite(s, rs)
    ensures Inv(WriteAll(s, rs)) && WriteAll(s, rs).writing && WriteAll(s, rs).up
  {
    hide Inv;
    if rs != [] {
      var n := |rs| - 1;
      CanWritePrefix(s, rs, n);
      WriteAllKeeps(s, rs[..n]);
      var s1 := WriteAll(s, rs[..n]);
      assert s1.channel[0] == s.channel[n] == s.channel[..|rs|][n];
      WriteOneKeeps(s1, rs[n]);
    }
  }

  function RefuseOne(s: State): State
    requires s.channel != []
  {
    s.(channel := s.channel[1..], drivers := Answer(s.drivers, s.channel[0], false))
  }

  lemma RefuseGood(f: Facts, rest: Pending, a: Append, t: Txn)
    requires Good(f) && f.up && f.waiting == Add(rest, a, t)
    ensures Good(f.(waiting := rest, pc := Heard(f.pc, a, t, false)))
  {
  }

  lemma RefuseOneTxn(s: State, v: View, t: Txn)
    requires s.up && s.channel != [] && TxnInv(s, v, t)
    ensures TxnInv(RefuseOne(s), v, t)
  {
    var a, rest := s.channel[0], Waiting(s.channel[1..], t);
    assert Waiting(s.channel, t) == Add(rest, a, t);
    hide ShardsOf, LogOf, Waiting, Parts, Good, Heard;
    ShardsUntouched(s, RefuseOne(s), t);
    AnswerIsHeard(s.drivers, a, t, false);
    RefuseGood(FactsOf(s, v, t), rest, a, t);
  }

  lemma {:induction false} RefuseAllKeeps(s: State, n: nat)
    requires Inv(s) && s.up && n <= |s.channel|
    ensures Inv(RefuseAll(s, n)) && RefuseAll(s, n).up && RefuseAll(s, n).disk == s.disk && RefuseAll(s, n).writing == s.writing
  {
    hide See, TxnInv, FilesInv, GcInv;
    if n > 0 {
      RefuseAllKeeps(s, n - 1);
      var s1 := RefuseAll(s, n - 1);
      var s' := RefuseAll(s, n);
      assert s' == RefuseOne(s1);
      forall t
        ensures TxnInv(s', See(s'.disk), t)
      {
        assert TxnInv(s1, See(s1.disk), t);
        RefuseOneTxn(s1, See(s1.disk), t);
      }
    }
  }

  // ---- files ----------------------------------------------------------------------

  /** Records were lost: what is left says no more than before, and fits together. */
  lemma LessLog(disk: seq<Segment>, v: View, snapshot: Table, t: Txn)
    requires SubLog(Flatten(disk), v.log) && Ordered(v.log, t)
    ensures var g, g' := LogOf(v, snapshot, t), LogOf(See(disk), snapshot, t);
            LogGood(g') && (g'.decision ==> g.decision) && (g'.mentioned ==> g.mentioned)
  {
    hide SubLog, Flatten, ReplayDisk, Reread, HasDecision, Mentioned, Ordered;
    SubLogKeeps(Flatten(disk), v.log, t);
    ViewRecords(disk, t);
    DecisionMentions(Flatten(disk), t);
  }

  lemma DecisionMentions(rs: seq<Record>, t: Txn)
    ensures HasDecision(rs, t) ==> Mentioned(rs, t)
  {
    if i :| 0 <= i < |rs| && Decides(rs[i], t) {
      assert Mentions(rs[i], t);
    }
  }

  lemma LessLogGood(f: Facts, g: Log)
    requires Good(f) && LogGood(g) && g.d == f.log.d && g.p == f.log.p && !Inverted(f.(log := g))
    requires (g.decision ==> f.log.decision) && (g.mentioned ==> f.log.mentioned)
    ensures Good(f.(log := g))
  {
  }

  lemma FilesChangeTxn(s: State, disk: seq<Segment>, t: Txn)
    requires TxnInv(s, See(s.disk), t) && SubLog(Flatten(disk), Flatten(s.disk)) && ReplayDisk(disk) == ReplayDisk(s.disk)
    requires !InvertedBy(s.(disk := disk), ReplayDisk(disk), Reread(disk), t)
    ensures TxnInv(s.(disk := disk), See(disk), t)
  {
    hide ShardsOf, Waiting, Parts, Good, HasDecision, Mentioned, Ordered, SubLog, Flatten, ReplayDisk, Reread;
    var s', v := s.(disk := disk), See(s.disk);
    var f := FactsOf(s, v, t);
    GoodLog(f);
    LessLog(disk, v, s.snapshot, t);
    InvertedIsInverted(s', See(disk), t);
    ShardsUntouched(s, s', t);
    LessLogGood(f, LogOf(See(disk), s.snapshot, t));
  }

  /** Other files, from which the next recovery reads the same table. */
  lemma FilesChangeKeeps(s: State, disk: seq<Segment>)
    requires Inv(s) && FilesInv(disk, s.writing) && GcInv(disk, s.gcLsns) && (s.up ==> disk != [])
    requires SubLog(Flatten(disk), Flatten(s.disk)) && ReplayDisk(disk) == ReplayDisk(s.disk)
    requires !InvertsSome(s.(disk := disk))
    ensures Inv(s.(disk := disk))
  {
    hide TxnInv, FilesInv, GcInv, SubLog, Reread, ReplayDisk, Flatten;
    forall t
      ensures TxnInv(s.(disk := disk), See(disk), t)
    {
      assert TxnInv(s, See(s.disk), t) && !InvertedBy(s.(disk := disk), ReplayDisk(disk), Reread(disk), t);
      FilesChangeTxn(s, disk, t);
    }
  }

  /** Other files that read exactly the same. */
  lemma SameViewKeeps(s: State, disk: seq<Segment>)
    requires Inv(s) && FilesInv(disk, s.writing) && GcInv(disk, s.gcLsns) && See(disk) == See(s.disk) && (s.up ==> disk != [])
    ensures Inv(s.(disk := disk))
  {
    hide FilesInv, GcInv, See, Good;
    var s', v := s.(disk := disk), See(s.disk);
    forall t
      ensures TxnInv(s', v, t)
    {
      assert TxnInv(s, v, t);
      ShardsUntouched(s, s', t);
    }
  }

  lemma RotateKeeps(s: State, step: Step)
    requires Inv(s) && step.Rotate? && Enabled(s, step)
    ensures Inv(Do(s, step))
  {
    var x := Segment(EndLsn(s.disk), true, [], CleanEnd);
    assert Do(s, step) == s.(disk := s.disk + [x]);
    hide TxnInv, See, GcInv, FilesInv, Do, Enabled;
    RotateFiles(s.disk, x, s.gcLsns);
    SameViewKeeps(s, s.disk + [x]);
  }

  lemma RotateFiles(disk: seq<Segment>, x: Segment, lsns: set<nat>)
    requires FilesInv(disk, true) && GcInv(disk, lsns) && disk[|disk| - 1].records != []
    requires x == Segment(EndLsn(disk), true, [], CleanEnd)
    ensures FilesInv(disk + [x], true) && GcInv(disk + [x], lsns) && See(disk + [x]) == See(disk)
  {
    hide See, NameTaken, Covered;
    AddSegmentView(disk, x);
    IncreasingSnoc(disk, x);
    HeaderNameFree(disk + [x]);
    AddSegmentGc(disk, x, lsns);
  }

  lemma DeleteSegmentKeeps(s: State, step: Step)
    requires Inv(s) && step.DeleteSegment? && Enabled(s, step) && !Hazard(s, step)
    ensures Inv(Do(s, step))
  {
    hide TxnInv, See, SubLog, InvertsSome, FilesInv, GcInv, HasCheckpoint;
    var i := step.segment;
    DeleteGc(s.disk, i, step.lsn, s.gcLsns);
    var j: nat :| i < j < |s.disk| && HasCheckpoint(s.disk[j]);
    DeleteFiles(s.disk, s.writing, i, j);
    WithoutLog(s.disk, i);
    FilesChangeKeeps(s, Without(s.disk, i));
  }

  // ---- a batch refused after part of it landed -------------------------------------------

  predicate NoCommitting(rs: seq<Record>) {
    forall i :: 0 <= i < |rs| ==> !rs[i].Committing?
  }

  lemma LandedOne(s: State, r: Record, t: Txn)
    requires s.disk != [] && s.channel != [] && !r.Committing? && Materializes(s.snapshot, s.channel[0], r) && Appendable(s.channel[0])
    ensures var s1 := WriteOne(s, r);
            HasDecision(Flatten(s1.disk), t) || Decided(s1.snapshot, t) ==> HasDecision(Flatten(s.disk), t) || Decided(s.snapshot, t)
  {
    hide HasDecision, Flatten;
    AppendToReplay(s.disk, r);
    HasDecisionSnoc(Flatten(s.disk), r, t);
  }

  /** Without a commit record among them, landed records add no decision. */
  lemma {:induction false} LandedDecides(s: State, rs: seq<Record>, t: Txn)
    requires CanWrite(s, rs) && NoCommitting(rs) && forall i :: 0 <= i < |s.channel| ==> Appendable(s.channel[i])
    ensures var s1 := WriteAll(s, rs);
            HasDecision(Flatten(s1.disk), t) || Decided(s1.snapshot, t) ==> HasDecision(Flatten(s.disk), t) || Decided(s.snapshot, t)
  {
    hide HasDecision, Flatten;
    if rs != [] {
      var n := |rs| - 1;
      assert s.channel[..|rs|][n] == s.channel[n];
      CanWritePrefix(s, rs, n);
      LandedDecides(s, rs[..n], t);
      var s1, r := WriteAll(s, rs[..n]), rs[n];
      LandedOne(s1, r, t);
    }
  }

  /** How a client stands when its append landed (`a`) and when it was refused (`b`). */
  predicate Unacked(a: map<Txn, Pc>, b: map<Txn, Pc>, t: Txn) {
    && (t in a <==> t in b)
    && (t in a ==> b[t] == a[t] || (a[t] == BeginAcked && b[t] == BeginNacked))
  }

  lemma AnswerUnacked(a: map<Txn, Pc>, b: map<Txn, Pc>, x: Append, ok: bool, t: Txn)
    requires Unacked(a, b, t) && (ok ==> !(x.Rec? && x.record.Committing?))
    ensures Unacked(Answer(a, x, ok), Answer(b, x, false), t)
  {
  }

  lemma {:induction false} LandedUnacked(s: State, rs: seq<Record>, t: Txn)
    requires CanWrite(s, rs) && NoCommitting(rs)
    ensures Unacked(WriteAll(s, rs).drivers, RefuseAll(s, |rs|).drivers, t)
  {
    hide Unacked, Answer, Apply, AppendTo, Replay, FromEntries;
    if rs == [] {
      UnackedSelf(s.drivers, t);
    } else {
      var n := |rs| - 1;
      CanWritePrefix(s, rs, n);
      LandedUnacked(s, rs[..n], t);
      var x := s.channel[n];
      assert x == s.channel[..|rs|][n] && Materializes(Replay(s.snapshot, rs[..n]), x, rs[n]);
      assert WriteAll(s, rs).drivers == Answer(WriteAll(s, rs[..n]).drivers, x, true);
      assert RefuseAll(s, n + 1).drivers == Answer(RefuseAll(s, n).drivers, x, false);
      AnswerUnacked(WriteAll(s, rs[..n]).drivers, RefuseAll(s, n).drivers, x, true, t);
    }
  }

  lemma UnackedSelf(a: map<Txn, Pc>, t: Txn)
    ensures Unacked(a, a, t)
  {
  }

  lemma {:induction false} RestUnacked(a: State, b: State, k: nat, n: nat, t: Txn)
    requires n + k <= |b.channel| && a.channel == b.channel[n..]
    requires Unacked(a.drivers, RefuseAll(b, n).drivers, t)
    ensures Unacked(RefuseAll(a, k).drivers, RefuseAll(b, n + k).drivers, t)
  {
    hide Unacked, Answer;
    if k > 0 {
      RestUnacked(a, b, k - 1, n, t);
      var x := b.channel[n + k - 1];
      assert RefuseAll(a, k).drivers == Answer(RefuseAll(a, k - 1).drivers, x, false);
      assert RefuseAll(b, n + k).drivers == Answer(RefuseAll(b, n + k - 1).drivers, x, false);
      AnswerUnacked(RefuseAll(a, k - 1).drivers, RefuseAll(b, n + k - 1).drivers, x, false, t);
    }
  }

  lemma {:induction false} WriteAllFrame(s: State, rs: seq<Record>)
    requires |rs| <= |s.channel| && s.disk != []
    ensures var s' := WriteAll(s, rs);
            && s' == s.(channel := s'.channel, disk := s'.disk, snapshot := s'.snapshot, drivers := s'.drivers, gcLsns := s'.gcLsns)
            && s.gcLsns <= s'.gcLsns
  {
    if rs != [] { WriteAllFrame(s, rs[..|rs| - 1]); }
  }

  lemma {:induction false} RefuseAllFrame(s: State, n: nat)
    requires n <= |s.channel|
    ensures RefuseAll(s, n) == s.(channel := s.channel[n..], drivers := RefuseAll(s, n).drivers)
  {
    if n > 0 { RefuseAllFrame(s, n - 1); }
  }

  /** The log as if the records had been acknowledged, the process as if they had not. */
  function Unack(a: State, b: State): State {
    a.(drivers := b.drivers, snapshot := b.snapshot, gcLsns := b.gcLsns)
  }

  /** The same but for the client and the log. */
  predicate SameButLog(f: Facts, f': Facts) {
    && f'.up == f.up && f'.writing == f.writing && f'.started == f.started
    && f'.mem == f.mem && f'.queued == f.queued && f'.busy == f.busy
    && f'.prepareSent == f.prepareSent && f'.commitSent == f.commitSent && f'.rollbackSent == f.rollbackSent
    && f'.reported == f.reported && f'.dropped == f.dropped && f'.lost == f.lost
    && f'.waiting == f.waiting && f'.shards == f.shards
  }

  lemma UnackGood(f: Facts, f': Facts)
    requires Good(f) && Good(f') && f.up
    requires SameButLog(f, f')
    requires f'.pc == f.pc || (f.pc == Some(BeginAcked) && f'.pc == Some(BeginNacked))
    requires f'.log.p == Begun ==> !f.log.decision
    ensures Good(f.(pc := f'.pc, log := f.log.(p := f'.log.p)))
  {
  }

  lemma RefusedFacts(a: State, b: State, v: View, u: View, t: Txn)
    requires Parts(a, t) && Unacked(a.drivers, b.drivers, t)
    requires b == a.(disk := b.disk, drivers := b.drivers, snapshot := b.snapshot, gcLsns := b.gcLsns)
    ensures var f, f' := FactsOf(a, v, t), FactsOf(b, u, t);
            && SameButLog(f, f')
            && (f'.pc == f.pc || (f.pc == Some(BeginAcked) && f'.pc == Some(BeginNacked)))
  {
    hide ShardsOf, Waiting, Parts, LogOf;
    ShardsUntouched(a, b, t);
  }

  lemma UnackFacts(a: State, b: State, v: View, t: Txn)
    requires Parts(a, t)
    ensures var f := FactsOf(a, v, t);
            && Parts(Unack(a, b), t)
            && FactsOf(Unack(a, b), v, t) ==
               f.(pc := if t in b.drivers then Some(b.drivers[t]) else None, log := f.log.(p := Look(b.snapshot, t)))
  {
    hide ShardsOf, Waiting, Parts, HasDecision, Mentioned, Ordered, Look;
    ShardsUntouched(a, Unack(a, b), t);
  }

  lemma UnackTxn(a: State, b: State, v: View, u: View, t: Txn)
    requires TxnInv(a, v, t) && TxnInv(b, u, t) && Unacked(a.drivers, b.drivers, t)
    requires b == a.(disk := b.disk, drivers := b.drivers, snapshot := b.snapshot, gcLsns := b.gcLsns) && a.up
    requires Undecided(b.snapshot, t) ==> !HasDecision(v.log, t)
    ensures TxnInv(Unack(a, b), v, t)
  {
    hide Parts, Good, Unacked, ShardsOf, Waiting, HasDecision, Mentioned, Ordered;
    var f, f' := FactsOf(a, v, t), FactsOf(b, u, t);
    assert f'.log.p == Begun ==> !f.log.decision;
    RefusedFacts(a, b, v, u, t);
    UnackGood(f, f');
    UnackFacts(a, b, v, t);
  }

  lemma UnackKeeps(a: State, b: State)
    requires Inv(a) && Inv(b) && a.up && b.gcLsns <= a.gcLsns
    requires b == a.(disk := b.disk, drivers := b.drivers, snapshot := b.snapshot, gcLsns := b.gcLsns)
    requires forall t :: Unacked(a.drivers, b.drivers, t)
    requires forall t :: Undecided(b.snapshot, t) ==> !HasDecision(Flatten(a.disk), t)
    ensures Inv(Unack(a, b))
  {
    hide TxnInv, HasDecision, FilesInv, Flatten, ReplayDisk, Reread, Unacked;
    var v, u := See(a.disk), See(b.disk);
    forall t
      ensures TxnInv(Unack(a, b), v, t)
    {
      assert TxnInv(a, v, t) && TxnInv(b, u, t);
      UnackTxn(a, b, v, u, t);
    }
  }

  /** The process after the first records of the batch landed and the rest was refused. */
  function Landed(s: State, rs: seq<Record>, n: nat): State
    requires s.disk != [] && |rs| <= n <= |s.channel|
  {
    RefuseAll(WriteAll(s, rs), n - |rs|)
  }

  lemma LandedFrame(s: State, rs: seq<Record>, n: nat)
    requires s.disk != [] && |rs| <= n <= |s.channel|
    ensures var a, b := Landed(s, rs, n), RefuseAll(s, n);
            && b == a.(disk := b.disk, drivers := b.drivers, snapshot := b.snapshot, gcLsns := b.gcLsns)
            && a.disk == WriteAll(s, rs).disk && s.gcLsns == b.gcLsns <= a.gcLsns && b.snapshot == s.snapshot && b.disk == s.disk
  {
    var s1 := WriteAll(s, rs);
    WriteAllFrame(s, rs);
    RefuseAllFrame(s1, n - |rs|);
    RefuseAllFrame(s, n);
    hide WriteAll, RefuseAll;
    assert s1.channel[n - |rs|..] == s.channel[n..];
  }

  lemma LandedAnswers(s: State, rs: seq<Record>, n: nat, t: Txn)
    requires CanWrite(s, rs) && |rs| <= n <= |s.channel| && NoCommitting(rs)
    ensures Unacked(Landed(s, rs, n).drivers, RefuseAll(s, n).drivers, t)
  {
    hide Unacked, WriteAll, RefuseAll, NoCommitting;
    LandedUnacked(s, rs, t);
    RestUnacked(WriteAll(s, rs), s, n - |rs|, |rs|, t);
  }

  lemma LandedKeeps(s: State, rs: seq<Record>, n: nat)
    requires Inv(s) && CanWrite(s, rs) && |rs| <= n <= |s.channel|
    ensures Inv(Landed(s, rs, n)) && Landed(s, rs, n).up && Landed(s, rs, n).writing
  {
    hide Inv, WriteAll, RefuseAll;
    WriteAllKeeps(s, rs);
    RefuseAllKeeps(WriteAll(s, rs), n - |rs|);
  }

  /** The landed records and the open segment given up, before anybody looks at the files. */
  lemma BreakLands(s: State, rs: seq<Record>, n: nat)
    requires Inv(s) && CanWrite(s, rs) && |rs| <= n <= |s.channel| && NoCommitting(rs)
    ensures var c := Unack(Landed(s, rs, n), RefuseAll(s, n));
            Inv(c) && c.up && c.writing && c == RefuseAll(s, n).(disk := WriteAll(s, rs).disk) && c.gcLsns == s.gcLsns
  {
    LandedFrame(s, rs, n);
    LandedKeeps(s, rs, n);
    RefuseAllKeeps(s, n);
    hide Inv, Landed, WriteAll, RefuseAll, NoCommitting, CanWrite, HasDecision, Flatten, Unacked;
    var a, b := Landed(s, rs, n), RefuseAll(s, n);
    forall t
      ensures Unacked(a.drivers, b.drivers, t)
      ensures Undecided(b.snapshot, t) ==> !HasDecision(Flatten(a.disk), t)
    {
      LandedAnswers(s, rs, n, t);
      LandedUndecided(s, rs, t);
    }
    UnackKeeps(a, b);
  }

  lemma LandedUndecided(s: State, rs: seq<Record>, t: Txn)
    requires Inv(s) && CanWrite(s, rs) && NoCommitting(rs)
    ensures Undecided(s.snapshot, t) ==> !HasDecision(Flatten(WriteAll(s, rs).disk), t)
  {
    UndecidedSnapshot(s, t);
    hide TxnInv, HasDecision, Flatten, WriteAll;
    LandedDecides(s, rs, t);
  }

  lemma UndecidedSnapshot(s: State, t: Txn)
    requires Inv(s)
    ensures Undecided(s.snapshot, t) ==> !HasDecision(Flatten(s.disk), t)
  {
    assert TxnInv(s, See(s.disk), t);
  }

  /** Closing a segment, torn or not, whatever becomes of the next one. */
  lemma CloseFiles(was: seq<Segment>, disk: seq<Segment>, torn: bool, start: nat, next: NextFile, lsns: set<nat>)
    requires FilesInv(was, true) && |disk| == |was| && disk[..|disk| - 1] == was[..|disk| - 1]
    requires disk[|disk| - 1].start == was[|disk| - 1].start && disk[|disk| - 1].header
    requires (next.Absent? || start > was[|disk| - 1].start) && !NameTaken(Close(disk, torn, start, next))
    requires GcInv(disk, lsns) && forall lsn :: lsn in lsns ==> lsn < start
    ensures var disk' := Close(disk, torn, start, next);
            disk' != [] && FilesInv(disk', next.Opened?) && GcInv(disk', lsns) && Flatten(disk') == Flatten(disk)
  {
    hide NameTaken, Flatten, Covered;
    var closed := if torn then TornLast(disk) else disk;
    TornLog(disk);
    ClosedShape(was, disk, closed, torn);
    ClosedGc(disk, closed, lsns);
    if next.Absent? {
      assert closed + [] == closed;
    } else {
      var x := Segment(start, next.Opened?, [], CleanEnd);
      AddEmptyLog(closed, x);
      AddSegmentFiles(closed, x);
      AddSegmentGc(closed, x, lsns);
    }
  }

  lemma OpenLast(disk: seq<Segment>, lsns: set<nat>)
    requires FilesInv(disk, true) && GcInv(disk, lsns)
    ensures disk != [] && disk[|disk| - 1].header && forall lsn :: lsn in lsns ==> lsn < EndLsn(disk)
  {
  }

  lemma GivenUpFiles(s: State, n: nat, rs: seq<Record>, torn: bool, counted: bool, next: NextFile)
    requires FilesInv(s.disk, true) && GcInv(s.disk, s.gcLsns) && 0 < n && |rs| <= n <= |s.channel|
    requires next.Absent? || counted || s.disk[|s.disk| - 1].records != []
    requires !NameTaken(GivenUp(s, n, rs, torn, counted, next)) && GcInv(WriteAll(s, rs).disk, s.gcLsns)
    ensures var disk := GivenUp(s, n, rs, torn, counted, next);
            && disk != [] && FilesInv(disk, next.Opened?) && GcInv(disk, s.gcLsns)
            && Flatten(disk) == Flatten(WriteAll(s, rs).disk)
  {
    hide FilesInv, GcInv, WriteAll, Flatten, Close, NameTaken;
    OpenLast(s.disk, s.gcLsns);
    WriteAllLast(s, rs);
    CloseFiles(s.disk, WriteAll(s, rs).disk, torn, EndLsn(s.disk) + (if counted then n else 0), next, s.gcLsns);
  }

  lemma ClosedShape(was: seq<Segment>, disk: seq<Segment>, closed: seq<Segment>, torn: bool)
    requires FilesInv(was, true) && |disk| == |was| && disk[..|disk| - 1] == was[..|disk| - 1]
    requires disk[|disk| - 1].start == was[|disk| - 1].start && disk[|disk| - 1].header
    requires closed == if torn then TornLast(disk) else disk
    ensures |closed| == |disk| && Increasing(closed) && closed[|closed| - 1].start == was[|disk| - 1].start
    ensures forall i :: 0 <= i < |disk| ==> closed[i].header && closed[i].start == disk[i].start && closed[i].records == disk[i].records
  {
    var m := |disk| - 1;
    forall i | 0 <= i <= m
      ensures disk[i].start == was[i].start && disk[i].header
    {
      assert i < m ==> disk[i] == disk[..m][i] == was[..m][i] == was[i];
    }
  }

  lemma ClosedGc(disk: seq<Segment>, closed: seq<Segment>, lsns: set<nat>)
    requires GcInv(disk, lsns) && |disk| == |closed| > 0
    requires forall i :: 0 <= i < |disk| ==> closed[i].start == disk[i].start && closed[i].records == disk[i].records
    ensures GcInv(closed, lsns)
  {
    forall lsn | lsn in lsns
      ensures Covered(closed, lsn)
    {
      assert Covered(disk, lsn);
      if j :| 0 <= j < |disk| && CoveredBy(disk, lsn, j) {
        assert HasCheckpoint(closed[j]);
        assert CoveredBy(closed, lsn, j);
      }
    }
  }

  lemma StopGood(f: Facts)
    requires Good(f) && f.up
    ensures Good(f.(writing := false))
  {
  }

  /** The log writer stops; whatever is asked of it from now on is refused. */
  lemma StopKeeps(s: State)
    requires Inv(s) && s.up
    ensures Inv(s.(writing := false))
  {
    hide FilesInv, GcInv, See, Good;
    var s', v := s.(writing := false), See(s.disk);
    assert FilesInv(s.disk, false) by { ClosedFiles(s.disk, s.writing); }
    forall t
      ensures TxnInv(s', v, t)
    {
      assert TxnInv(s, v, t);
      ShardsUntouched(s, s', t);
      StopGood(FactsOf(s, v, t));
    }
  }

  lemma ClosedFiles(disk: seq<Segment>, writing: bool)
    requires FilesInv(disk, writing)
    ensures FilesInv(disk, false)
  {
  }

  lemma BreakBatchKeeps(s: State, step: Step)
    requires Inv(s) && step.BreakBatch? && Enabled(s, step) && !Hazard(s, step)
    ensures Inv(Do(s, step))
  {
    hide TxnInv, See, SubLog, InvertsSome, FilesInv, GcInv, GivenUp, Flatten, RefuseAll, WriteAll, Landed;
    var n, rs := step.count, step.landed;
    var disk := GivenUp(s, n, rs, step.torn, step.counted, step.next);
    assert NoCommitting(rs);
    BreakLands(s, rs, n);
    var c := Unack(Landed(s, rs, n), RefuseAll(s, n));
    GivenUpFiles(s, n, rs, step.torn, step.counted, step.next);
    SubLogSelf(Flatten(disk));
    if !step.next.Opened? {
      StopKeeps(c);
      c := c.(writing := false);
    }
    assert Do(s, step) == c.(disk := disk);
    FilesChangeKeeps(c, disk);
  }

  // ---- crash and recovery -----------------------------------------------------------

  lemma CrashedGood(f: Facts)
    requires Good(f) && f.up
    ensures Good(f.(up := false, writing := false, mem := None, pc := None, queued := false, busy := None,
                    waiting := Pending(0, 0, 0), log := f.log.(p := Nowhere)))
  {
  }

  lemma CrashedTxn(s: State, v: View, t: Txn)
    requires TxnInv(s, v, t) && s.up
    ensures TxnInv(Crashed(s), v, t)
  {
    hide ShardsOf, Waiting, Parts, Good, HasDecision, Mentioned, Ordered;
    NothingWaiting(t);
    ShardsUntouched(s, Crashed(s), t);
    CrashedGood(FactsOf(s, v, t));
  }

  lemma CrashedKeeps(s: State)
    requires Inv(s) && s.up
    ensures Inv(Crashed(s))
  {
    hide See, FilesInv, TxnInv;
    ClosedFiles(s.disk, s.writing);
    forall t
      ensures TxnInv(Crashed(s), See(s.disk), t)
    {
      assert TxnInv(s, See(s.disk), t);
      CrashedTxn(s, See(s.disk), t);
    }
  }

  lemma CrashKeeps(s: State, step: Step)
    requires Inv(s) && step.Crash? && Enabled(s, step)
    ensures Inv(Do(s, step))
  {
    hide TxnInv, See, FilesInv;
    var s1 := WriteAll(s, step.landed);
    if step.landed != [] || step.torn {
      hide WriteAll;
      WriteAllKeeps(s, step.landed);
    }
    CrashedKeeps(s1);
    if step.torn {
      TornFiles(s1.disk);
      SameViewKeeps(Crashed(s1), TornLast(s1.disk));
    }
  }

  lemma TornFiles(disk: seq<Segment>)
    requires FilesInv(disk, true)
    ensures disk != [] && FilesInv(TornLast(disk), false) && See(TornLast(disk)) == See(disk)
  {
    var disk' := TornLast(disk);
    assert forall i :: 0 <= i < |disk| ==> disk'[i].start == disk[i].start && disk'[i].header == disk[i].header;
    HeaderNameFree(disk');
    TornView(disk);
  }

  lemma CrashInCreationKeeps(s: State, step: Step)
    requires Inv(s) && step.CrashInCreation? && Enabled(s, step)
    ensures Inv(Do(s, step))
  {
    hide TxnInv, See, NameTaken;
    CrashedKeeps(s);
    HalfLastView(s.disk);
    HalfLastFiles(s.disk);
    hide FilesInv;
    SameViewKeeps(Crashed(s), HalfLast(s.disk));
  }

  /** Nothing of the transaction is in a process. */
  predicate Down(f: Facts) {
    && !f.up && !f.writing && f.mem == None && f.pc == None && !f.queued && f.busy == None
    && f.waiting == Pending(0, 0, 0) && f.log.p == Nowhere
  }

  /** Between two moments the disk lost records, and nothing was said to anybody. */
  predicate Less(f: Facts, f': Facts) {
    && f'.started == f.started && f'.reported == f.reported && f'.shards == f.shards
    && f'.prepareSent == f.prepareSent && f'.commitSent == f.commitSent && f'.rollbackSent == f.rollbackSent
    && LogGood(f'.log) && (f'.log.decision ==> f.log.decision) && (f'.log.mentioned ==> f.log.mentioned)
    && (f.lost ==> f'.lost) && (f'.lost && !f.lost ==> f.log.mentioned)
  }

  lemma LoseGood(f: Facts, f': Facts)
    requires Good(f) && Down(f) && Down(f') && Less(f, f') && f'.dropped == f.dropped && !Inverted(f')
    requires f'.log.d != f.log.d ==> f'.lost
    ensures Good(f')
  {
  }

  /** The disk of a stopped process is replaced by one that holds less. */
  lemma LoseTxn(s: State, disk: seq<Segment>, t: Txn)
    requires TxnInv(s, See(s.disk), t) && ProcessInv(s) && !s.up && SubLog(Flatten(disk), Flatten(s.disk))
    requires !InvertedBy(Lose(s, disk), ReplayDisk(disk), Reread(disk), t)
    ensures TxnInv(Lose(s, disk), See(disk), t)
  {
    hide ShardsOf, Waiting, Parts, HasDecision, Mentioned, Ordered, SubLog, Flatten, ReplayDisk, Reread,
      FilesInv, Differ, Good;
    var s', v := Lose(s, disk), See(s.disk);
    var f := FactsOf(s, v, t);
    NothingWaiting(t);
    GoodLog(f);
    LessLog(disk, v, s.snapshot, t);
    InvertedIsInverted(s', See(disk), t);
    ShardsUntouched(s, s', t);
    DifferLooks(ReplayDisk(s.disk), ReplayDisk(disk), t);
    LoseGood(f, FactsOf(s', See(disk), t));
  }

  lemma NothingWaiting(t: Txn)
    ensures Waiting([], t) == Pending(0, 0, 0)
  {
  }

  lemma DifferLooks(d: Table, e: Table, t: Txn)
    ensures Look(d, t) != Look(e, t) ==> t in Differ(d, e)
    ensures t in Differ(d, e) ==> t in d || t in e
  {
  }

  lemma LoseKeeps(s: State, disk: seq<Segment>)
    requires Inv(s) && !s.up && FilesInv(disk, false) && SubLog(Flatten(disk), Flatten(s.disk))
    requires !InvertsSome(Lose(s, disk))
    ensures Inv(Lose(s, disk))
  {
    hide TxnInv, FilesInv, SubLog, Flatten, ReplayDisk, Reread, Differ;
    forall t
      ensures TxnInv(Lose(s, disk), See(disk), t)
    {
      assert TxnInv(s, See(s.disk), t) && !InvertedBy(Lose(s, disk), ReplayDisk(disk), Reread(disk), t);
      LoseTxn(s, disk, t);
    }
  }

  lemma BitRotKeeps(s: State, step: Step)
    requires Inv(s) && step.BitRot? && Enabled(s, step) && !Hazard(s, step)
    ensures Inv(Do(s, step))
  {
    hide TxnInv, See, SubLog, InvertsSome, FilesInv, Lose, Damaged;
    ClosedFiles(s.disk, s.writing);
    DamagedFiles(s.disk, step.segment, step.rot);
    DamagedLog(s.disk, step.segment, step.rot);
    LoseKeeps(s, Damaged(s.disk, step.segment, step.rot));
  }

  lemma CrashInRecoveryKeeps(s: State, step: Step)
    requires Inv(s) && step.CrashInRecovery? && Enabled(s, step) && !Hazard(s, step)
    ensures Inv(Do(s, step))
  {
    hide TxnInv, See, SubLog, InvertsSome, FilesInv, Lose, Sifted;
    ClosedFiles(s.disk, s.writing);
    SiftedFiles(s.disk, step.read);
    SiftedLog(s.disk, step.read);
    LoseKeeps(s, Sifted(s.disk, step.read));
  }

  /** What a recovery hands back of what it read. */
  function HandedBack(d: Mark, corruption: bool): Mark {
    if d == Begun && corruption then Nowhere else d
  }

  function PhaseOf(p: Mark): Option<Phase> {
    match p
    case Nowhere => None
    case Begun => Some(Phase1)
    case Chosen => Some(Phase2)
  }

  lemma RecoverGood(f: Facts, f': Facts, corruption: bool)
    requires Good(f) && Down(f) && Less(f, f') && (!corruption ==> f.log.d == f.log.e)
    requires f'.up && f'.writing && f'.pc == None && f'.busy == None && f'.waiting == Pending(0, 0, 0)
    requires f'.log.d == f'.log.e == f.log.e && f'.log.p == HandedBack(f.log.d, corruption)
    requires f'.mem == PhaseOf(f'.log.p) && f'.queued == (f'.log.p != Nowhere)
    requires f.log.d != f.log.e ==> f'.lost
    requires f'.dropped <==> f.dropped || (f.log.d == Begun && corruption)
    ensures Good(f')
  {
  }

  lemma RestoredLook(w: Table, corruption: bool, t: Txn)
    ensures var p, mem := Look(RestoredSnapshot(w, corruption), t), Restored(w, corruption);
            && p == HandedBack(Look(w, t), corruption)
            && (if t in mem then Some(mem[t]) else None) == PhaseOf(p) && (t in mem <==> p != Nowhere)
            && (t in (set x | x in w && !w[x].decided && corruption) <==> Look(w, t) == Begun && corruption)
  {
  }

  /** What a recovery reads and leaves of one transaction. */
  lemma RecoverLog(disk: seq<Segment>, snapshot: Table, p: Table, t: Txn)
    requires LogGood(LogOf(See(disk), snapshot, t))
    ensures var g, g' := LogOf(See(disk), snapshot, t), LogOf(See(After(disk)), p, t);
            && g'.d == g'.e == g.e && g'.p == Look(p, t) && (!Corrupted(disk) ==> g.d == g.e)
            && LogGood(g') && (g'.decision ==> g.decision) && (g'.mentioned ==> g.mentioned)
            && (t in Differ(ReplayDisk(disk), Reread(disk)) ==> g.mentioned)
            && (g.d != g.e ==> t in Differ(ReplayDisk(disk), Reread(disk)))
  {
    hide HasDecision, Mentioned, Ordered, SubLog, Flatten, ReplayDisk, Reread, After, Differ, Corrupted;
    AfterView(disk);
    LessLog(After(disk), See(disk), p, t);
    ViewRecords(disk, t);
    DifferLooks(ReplayDisk(disk), Reread(disk), t);
  }

  /** What a recovery makes of one transaction, from what it reads now and what it leaves. */
  lemma RecoverTxn(s: State, order: seq<Txn>, t: Txn)
    requires TxnInv(s, See(s.disk), t) && ProcessInv(s) && !s.up
    requires t in order <==> t in Restored(ReplayDisk(s.disk), Corrupted(s.disk))
    ensures TxnInv(Recovering(s, order), See(After(s.disk)), t)
  {
    hide ShardsOf, Waiting, Parts, LogOf, See, ReplayDisk, After, FilesInv, Differ, Corrupted, Good, LogGood,
      Restored, RestoredSnapshot, HandedBack, PhaseOf;
    var s', v := Recovering(s, order), See(s.disk);
    var f := FactsOf(s, v, t);
    NothingWaiting(t);
    GoodLog(f);
    RecoverLog(s.disk, s.snapshot, s'.snapshot, t);
    RestoredLook(ReplayDisk(s.disk), Corrupted(s.disk), t);
    ShardsUntouched(s, s', t);
    assert f.log.d == Look(ReplayDisk(s.disk), t) && f.log.p == Nowhere by { SeeLooks(s.disk, s.snapshot, t); }
    RecoverGood(f, FactsOf(s', See(After(s.disk)), t), Corrupted(s.disk));
  }

  lemma SeeLooks(disk: seq<Segment>, snapshot: Table, t: Txn)
    ensures LogOf(See(disk), snapshot, t).d == Look(ReplayDisk(disk), t)
    ensures LogOf(See(disk), snapshot, t).p == Look(snapshot, t)
  {
  }

  lemma GoodLog(f: Facts)
    requires Good(f)
    ensures LogGood(f.log)
  {
  }

  lemma RecoverKeeps(s: State, step: Step)
    requires Inv(s) && step.Recover? && Enabled(s, step)
    ensures Inv(Do(s, step))
  {
    RecoverProcess(s, step.order);
    hide TxnInv, See, ProcessInv, Recovering, ReplayDisk, Corrupted, Restored, NameTaken, After;
    forall t
      ensures TxnInv(Recovering(s, step.order), See(After(s.disk)), t)
    {
      assert TxnInv(s, See(s.disk), t);
      assert t in (set x | x in step.order) <==> t in step.order;
      RecoverTxn(s, step.order, t);
    }
  }

  lemma RecoverProcess(s: State, order: seq<Txn>)
    requires ProcessInv(s) && !s.up
    ensures ProcessInv(Recovering(s, order)) && Recovering(s, order).disk == After(s.disk) && !s.up
  {
    hide FilesInv, After, ReplayDisk, Corrupted, Restored, RestoredSnapshot, Differ;
    ClosedFiles(s.disk, s.writing);
    AfterFiles(s.disk);
  }

  // ---- shards -------------------------------------------------------------------------

  lemma ShardPreparePart(s: State, step: Step, t: Txn, i: nat)
    requires Enabled(s, step) && i < s.shards && PartInv(s, t, i)
    requires step.ShardPrepare?
    ensures var s' := Do(s, step);
            && PartInv(s', t, i) && (Settled(s, t, i) ==> Settled(s', t, i))
            && (PartOf(s, t, i) == Committed ==> PartOf(s', t, i) == Committed)
            && ((t, i) in s.prepareOk ==> (t, i) in s'.prepareOk)
  {
  }

  lemma ShardAbortPart(s: State, step: Step, t: Txn, i: nat)
    requires Enabled(s, step) && i < s.shards && PartInv(s, t, i)
    requires step.ShardAbort?
    ensures var s' := Do(s, step);
            && PartInv(s', t, i) && (Settled(s, t, i) ==> Settled(s', t, i))
            && (PartOf(s, t, i) == Committed ==> PartOf(s', t, i) == Committed)
            && ((t, i) in s.prepareOk ==> (t, i) in s'.prepareOk)
  {
  }

  lemma ShardCommitPart(s: State, step: Step, t: Txn, i: nat)
    requires Enabled(s, step) && i < s.shards && PartInv(s, t, i)
    requires step.ShardCommit?
    ensures var s' := Do(s, step);
            && PartInv(s', t, i) && (Settled(s, t, i) ==> Settled(s', t, i))
            && (PartOf(s, t, i) == Committed ==> PartOf(s', t, i) == Committed)
            && ((t, i) in s.prepareOk ==> (t, i) in s'.prepareOk)
  {
  }

  lemma ShardRollbackPart(s: State, step: Step, t: Txn, i: nat)
    requires Enabled(s, step) && i < s.shards && PartInv(s, t, i)
    requires step.ShardRollback?
    ensures var s' := Do(s, step);
            && PartInv(s', t, i) && (Settled(s, t, i) ==> Settled(s', t, i))
            && (PartOf(s, t, i) == Committed ==> PartOf(s', t, i) == Committed)
            && ((t, i) in s.prepareOk ==> (t, i) in s'.prepareOk)
  {
  }

  /** Shards that got further change nothing the coordinator relies on. */
  lemma ShardsMovedGood(f: Facts, h: Shards)
    requires Good(f) && (f.shards.prepared ==> h.prepared) && (f.shards.everywhere ==> h.everywhere) && (f.shards.settled ==> h.settled)
    ensures Good(f.(shards := h))
  {
  }

  lemma ShardMoves(s: State, step: Step, t: Txn)
    requires OfShard(step) && Enabled(s, step) && Parts(s, t)
    ensures var s', h, h' := Do(s, step), ShardsOf(s, t), ShardsOf(Do(s, step), t);
            && Parts(s', t)
            && (h.prepared ==> h'.prepared) && (h.everywhere ==> h'.everywhere) && (h.settled ==> h'.settled)
            && s' == s.(parts := s'.parts, prepareOk := s'.prepareOk, commitOk := s'.commitOk,
                        rollbackOk := s'.rollbackOk, overtaken := s'.overtaken)
  {
    var s' := Do(s, step);
    forall i: nat | i < s.shards
      ensures PartInv(s', t, i) && (Settled(s, t, i) ==> Settled(s', t, i))
      ensures PartOf(s, t, i) == Committed ==> PartOf(s', t, i) == Committed
    {
      assert PartInv(s, t, i);
      match step
      case ShardPrepare(_, _) => ShardPreparePart(s, step, t, i);
      case ShardAbort(_, _) => ShardAbortPart(s, step, t, i);
      case ShardCommit(_, _) => ShardCommitPart(s, step, t, i);
      case ShardRollback(_, _) => ShardRollbackPart(s, step, t, i);
    }
  }

  lemma ShardKeeps(s: State, step: Step)
    requires OfShard(step) && Inv(s) && Enabled(s, step)
    ensures Inv(Do(s, step))
  {
    hide See, FilesInv, GcInv, Good, Waiting, LogOf, ShardsOf, Parts, Do, Enabled;
    var s', v := Do(s, step), See(s.disk);
    assert Parts(s, 0) by { assert TxnInv(s, v, 0); }
    ShardMoves(s, step, 0);
    forall t
      ensures TxnInv(s', v, t)
    {
      assert TxnInv(s, v, t);
      ShardMoves(s, step, t);
      ShardsMovedGood(FactsOf(s, v, t), ShardsOf(s', t));
    }
  }

  // ---- whole runs ----------------------------------------------------------------------

  lemma StepKeeps(s: State, step: Step)
    requires Inv(s) && Enabled(s, step) && !Hazard(s, step)
    ensures Inv(Do(s, step))
  {
    hide Inv, Hazard;
    if OfCoordinator(step) {
      CoordinatorKeeps(s, step);
    } else if OfShard(step) {
      ShardKeeps(s, step);
    } else {
      match step {
        case WriteBatch(rs) => WriteAllKeeps(s, rs);
        case RefuseBatch(n) => RefuseAllKeeps(s, n);
        case BreakBatch(_, _, _, _, _) => BreakBatchKeeps(s, step);
        case Rotate => RotateKeeps(s, step);
        case DeleteSegment(_, _) => DeleteSegmentKeeps(s, step);
        case BitRot(_, _) => BitRotKeeps(s, step);
        case Crash(_, _) => CrashKeeps(s, step);
        case CrashInCreation => CrashInCreationKeeps(s, step);
        case CrashInRecovery(_) => CrashInRecoveryKeeps(s, step);
        case Recover(_) => RecoverKeeps(s, step);
      }
    }
  }

  lemma {:induction false} RunKeeps(ss: seq<State>, steps: seq<Step>, n: nat)
    requires SafeRun(ss, steps) && n < |ss|
    ensures Inv(ss[n])
  {
    hide Inv, Hazard, Init, Do, Enabled;
    if n == 0 {
      InitKeeps(ss[0]);
    } else {
      RunKeeps(ss, steps, n - 1);
      assert Enabled(ss[n - 1], steps[n - 1]) && ss[n] == Do(ss[n - 1], steps[n - 1]);
      StepKeeps(ss[n - 1], steps[n - 1]);
    }
  }

  lemma InvAtomic(s: State)
    requires Inv(s)
    ensures Atomic(s)
  {
    forall t: Txn, i: nat, j: nat | i < s.shards && j < s.shards && PartOf(s, t, i) == Committed
      ensures PartOf(s, t, j) != RolledBack
    {
      assert TxnInv(s, See(s.disk), t);
      assert PartInv(s, t, i) && PartInv(s, t, j);
    }
  }

  /** Atomicity: in no state of any safe run is a transaction committed here and rolled back there. */
  lemma AtomicAlways(ss: seq<State>, steps: seq<Step>, n: nat)
    requires SafeRun(ss, steps) && n < |ss|
    ensures Atomic(ss[n])
  {
    RunKeeps(ss, steps, n);
    InvAtomic(ss[n]);
  }

  lemma {:induction false} ReportedGrows(ss: seq<State>, steps: seq<Step>, m: nat, n: nat, t: Txn)
    requires SafeRun(ss, steps) && m <= n < |ss| && t in ss[m].reported
    ensures t in ss[n].reported
  {
    hide Do, Enabled, Hazard, Init;
    if m < n {
      ReportedGrows(ss, steps, m, n - 1, t);
      assert Enabled(ss[n - 1], steps[n - 1]) && ss[n] == Do(ss[n - 1], steps[n - 1]);
      StepFrame(ss[n - 1], steps[n - 1]);
    }
  }

  lemma BatchFrame(s: State, step: Step)
    requires Enabled(s, step) && (step.WriteBatch? || step.RefuseBatch? || step.BreakBatch? || step.Crash?)
    ensures Do(s, step).shards == s.shards && Do(s, step).reported == s.reported
  {
    hide WriteAll, RefuseAll, GivenUp, TornLast;
    match step {
      case WriteBatch(rs) => WriteAllFrame(s, rs);
      case RefuseBatch(n) => RefuseAllFrame(s, n);
      case BreakBatch(n, _, _, _, _) => RefuseAllFrame(s, n);
      case Crash(rs, _) => WriteAllFrame(s, rs);
    }
  }

  lemma StepFrame(s: State, step: Step)
    requires Enabled(s, step)
    ensures Do(s, step).shards == s.shards && s.reported <= Do(s, step).reported
  {
    if step.WriteBatch? || step.RefuseBatch? || step.BreakBatch? || step.Crash? {
      hide Do;
      BatchFrame(s, step);
    } else {
      hide ReplayDisk, Differ, Answer, CanWrite, NameTaken, Deletable, AllOk, WriteAll, RefuseAll, GivenUp, Sifted, Damaged,
        Without, TornLast, EndLsn, Restored, RestoredSnapshot, After, Corrupted;
    }
  }

  /** Durability: once a client is told its transaction committed, it is committed on every shard from then on. */
  lemma ReportedIsDurable(ss: seq<State>, steps: seq<Step>, m: nat, n: nat, t: Txn)
    requires SafeRun(ss, steps) && m <= n < |ss| && t in ss[m].reported
    ensures CommittedEverywhere(ss[n], t)
  {
    ReportedGrows(ss, steps, m, n, t);
    RunKeeps(ss, steps, n);
    assert TxnInv(ss[n], See(ss[n].disk), t);
  }

  /**
   The two write-ahead rules, for every state: a transaction some shard was told to prepare is in
   the log until every shard is through with it, and one some shard was told to commit is logged as
   decided until every shard has committed it. So a recovery started now would pick it up, and
   would not roll it back. Damage to its own log entry takes a transaction out of these rules, but
   even then no recovery rolls back what a shard was told to commit, unless all have committed.
   */
  lemma LogCoversInDoubt(ss: seq<State>, steps: seq<Step>, n: nat, t: Txn)
    requires SafeRun(ss, steps) && n < |ss|
    ensures var s, d := ss[n], ReplayDisk(ss[n].disk);
            && (t !in s.lost ==>
                  && (t in s.prepareSent && t !in d ==> Resolved(s, t))
                  && (t in s.commitSent && t in d ==> d[t].decided)
                  && (t in s.commitSent && t !in d ==> t in s.dropped || CommittedEverywhere(s, t)))
            && (t in s.commitSent && Undecided(RestoredSnapshot(d, Corrupted(s.disk)), t) && !s.up ==> CommittedEverywhere(s, t))
  {
    RunKeeps(ss, steps, n);
    InvCoversInDoubt(ss[n], t);
  }

  lemma InvCoversInDoubt(s: State, t: Txn)
    requires Inv(s)
    ensures var d := ReplayDisk(s.disk);
            && (t !in s.lost ==>
                  && (t in s.prepareSent && t !in d ==> Resolved(s, t))
                  && (t in s.commitSent && t in d ==> d[t].decided)
                  && (t in s.commitSent && t !in d ==> t in s.dropped || CommittedEverywhere(s, t)))
            && (t in s.commitSent && Undecided(RestoredSnapshot(d, Corrupted(s.disk)), t) && !s.up ==> CommittedEverywhere(s, t))
  {
    hide ReplayDisk, Reread, Corrupted, HasDecision, Mentioned, Ordered, Flatten, Waiting;
    ViewRecords(s.disk, t);
    assert TxnInv(s, See(s.disk), t);
    if t in s.commitSent && t !in s.lost && Resolved(s, t) && t !in s.dropped {
      forall i: nat | i < s.shards
        ensures PartOf(s, t, i) == Committed
      {
        assert PartInv(s, t, i) && Settled(s, t, i);
      }
    }
  }

  /**
   A log decision is never reversed: nothing decided in the log is ever told to roll back, and no
   transaction is told both, unless its log entry was damaged after every shard had committed it.
   */
  lemma DecisionsHold(ss: seq<State>, steps: seq<Step>, n: nat, t: Txn)
    requires SafeRun(ss, steps) && n < |ss|
    ensures var s, d := ss[n], ReplayDisk(ss[n].disk);
            && (t in s.commitSent && t in s.rollbackSent ==> t in s.lost && CommittedEverywhere(s, t))
            && (t in d && d[t].decided ==> t !in s.rollbackSent && AllOk(s.shards, t, s.prepareOk))
  {
    RunKeeps(ss, steps, n);
    assert TxnInv(ss[n], See(ss[n].disk), t);
  }
}
