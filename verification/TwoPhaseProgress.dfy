/** What the protocol can always still do, and the one thing it never does: clean up after a client that left early. */
module TwoPhaseProgress {
  import opened WalRecord
  import opened WalLog
  import opened WalRecovery
  import opened TwoPhase
  import opened TwoPhaseDisk
  import opened TwoPhaseInvariant
  import opened TwoPhaseSafety
  import opened TwoPhaseReach
  import opened TwoPhaseHazards

  // ---- every prepared transaction can be brought to its end ---------------------------------

  lemma {:induction false} CommitEverywhere(s: State, m: State, t: Txn, k: nat) returns (m': State)
    requires Reaches(s, m) && t in m.commitSent && k <= m.shards
    ensures Reaches(s, m') && m' == m.(parts := m'.parts, commitOk := m'.commitOk)
    ensures forall i: nat :: i < k ==> (t, i) in m'.commitOk
  {
    hide Reaches;
    if k == 0 {
      m' := m;
    } else {
      var m1 := CommitEverywhere(s, m, t, k - 1);
      ReachesStep(s, m1, ShardCommit(t, k - 1));
      m' := Do(m1, ShardCommit(t, k - 1));
    }
  }

  lemma {:induction false} RollBackEverywhere(s: State, m: State, t: Txn, k: nat) returns (m': State)
    requires Reaches(s, m) && t in m.rollbackSent && k <= m.shards
    ensures Reaches(s, m') && m' == m.(parts := m'.parts, rollbackOk := m'.rollbackOk, overtaken := m'.overtaken)
    ensures forall i: nat :: i < k ==> (t, i) in m'.rollbackOk
  {
    hide Reaches;
    if k == 0 {
      m' := m;
    } else {
      var m1 := RollBackEverywhere(s, m, t, k - 1);
      ReachesStep(s, m1, ShardRollback(t, k - 1));
      m' := Do(m1, ShardRollback(t, k - 1));
    }
  }

  lemma Done(s: State, m: State) returns (m': State)
    requires Reaches(s, m) && m.up && m.monitor.Busy?
    requires AllOk(m.shards, m.monitor.txn, if m.monitor.phase == Phase2 then m.commitOk else m.rollbackOk)
    ensures Reaches(s, m') && m' == m.(monitor := Idle, mem := m.mem - {m.monitor.txn}, channel := m'.channel)
  {
    hide Reaches;
    ReachesStep(s, m, MonitorDone);
    m' := Do(m, MonitorDone);
  }

  /** Nothing but the monitor is at work, and it has everything in memory before it. */
  predicate CleaningUp(m: State) {
    m.up && m.monitor == Idle && m.drivers == map[] && forall t :: t in m.mem ==> t in m.queue
  }

  predicate SameTask(m: State, m': State) {
    m'.prepareSent == m.prepareSent && m'.lost == m.lost
  }

  lemma CleanUpOne(s: State, m: State) returns (m': State)
    requires Reaches(s, m) && CleaningUp(m) && m.queue != []
    ensures Reaches(s, m') && CleaningUp(m') && SameTask(m, m') && m'.queue == m.queue[1..]
  {
    hide Reaches;
    var t := m.queue[0];
    assert forall x :: x in m.queue <==> x == t || x in m.queue[1..];
    if t !in m.mem {
      m' := PickGone(s, m);
    } else if m.mem[t] == Phase1 {
      m' := PickRollback(s, m);
      m' := RollBackEverywhere(s, m', t, m.shards);
      m' := Done(s, m');
    } else {
      m' := PickCommit(s, m);
      m' := CommitEverywhere(s, m', t, m.shards);
      m' := Done(s, m');
    }
  }

  lemma {:induction false} CleanUpAll(s: State, m: State) returns (m': State)
    requires Reaches(s, m) && CleaningUp(m)
    ensures Reaches(s, m') && SameTask(m, m') && m'.up && m'.mem == map[]
    decreases |m.queue|
  {
    hide Reaches;
    if m.queue == [] {
      m' := m;
      assert forall t :: t !in m.mem;
    } else {
      var m1 := CleanUpOne(s, m);
      m' := CleanUpAll(s, m1);
    }
  }

  lemma RecoverAndCleanUp(s: State, m: State) returns (m': State)
    requires Reaches(s, m) && !m.up && FilesInv(m.disk, false) && m.monitor == Idle && m.drivers == map[]
    ensures Reaches(s, m') && m'.up && m'.mem == map[] && m'.prepareSent == m.prepareSent
    ensures m'.lost == m.lost + Differ(ReplayDisk(m.disk), Reread(m.disk))
  {
    hide Reaches, FilesInv, ReplayDisk, After, Corrupted, Restored, RestoredSnapshot, NameTaken, Differ;
    assert !NameTaken(m.disk) by { AfterRecoverable(m.disk); }
    var keys := Restored(ReplayDisk(m.disk), Corrupted(m.disk)).Keys;
    var order := Enumerate(keys);
    var m1 := RecoverInOrder(s, m, order);
    forall t | t in m1.mem
      ensures t in m1.queue
    {
      assert t in keys && t in (set x | x in order);
    }
    m' := CleanUpAll(s, m1);
  }

  /**
   No state is a dead end: from every state of a safe run there is a continuation, with no hazard in
   it, after which every shard is through with every transaction that was ever prepared, except
   those the coordinator gave up on and those whose log entry was damaged.
   */
  lemma NeverStuck(ss: seq<State>, steps: seq<Step>, n: nat) returns (s': State)
    requires SafeRun(ss, steps) && n < |ss|
    ensures Reaches(ss[n], s') && forall t :: t in s'.prepareSent ==> Resolved(s', t) || t in s'.lost
    ensures s'.prepareSent == ss[n].prepareSent
    ensures ss[n].writing ==> s'.lost == ss[n].lost
  {
    hide Inv, Reaches, Resolved;
    var s := ss[n];
    RunKeeps(ss, steps, n);
    s' := NothingLeft(s);
    ReachesKeeps(s, s');
    forall t | t in s'.prepareSent
      ensures Resolved(s', t) || t in s'.lost
    {
      ForgottenIsResolved(s', t);
    }
  }

  lemma ForgottenIsResolved(s: State, t: Txn)
    requires Inv(s) && s.up && s.mem == map[] && t in s.prepareSent
    ensures Resolved(s, t) || t in s.lost
  {
    assert TxnInv(s, See(s.disk), t);
  }

  lemma NothingLeft(s: State) returns (s': State)
    requires Inv(s)
    ensures Reaches(s, s') && s'.up && s'.mem == map[] && s'.prepareSent == s.prepareSent && (s.writing ==> s'.lost == s.lost)
  {
    hide TxnInv, Reaches, FilesInv, GcInv, ReplayDisk, Reread;
    ReachesSelf(s);
    ClosedFiles(s.disk, s.writing);
    if s.writing {
      var m1 := RefuseEverything(s, s);
      var m2 := CheckpointNow(s, m1);
      assert m2.disk != [] && FilesInv(m2.disk, false) by { ClosedFiles(m2.disk, true); OpenIntact(m2.disk); }
      var m3 := CrashNow(s, m2);
      s' := RecoverAndCleanUp(s, m3);
      assert Differ(ReplayDisk(m3.disk), Reread(m3.disk)) == {};
    } else if s.up {
      var m1 := CrashNow(s, s);
      s' := RecoverAndCleanUp(s, m1);
    } else {
      s' := RecoverAndCleanUp(s, s);
    }
  }

  // ---- clients that leave before they have a guard ---------------------------------------------

  /** In memory, and nobody will ever look at it again: no client, no place in the queue, no cleanup. */
  predicate Leaked(s: State, t: Txn) {
    s.up && t in s.mem && t !in s.drivers && t !in s.queue && !BusyWith(s, t)
  }

  lemma {:induction false} WriteAllClients(s: State, rs: seq<Record>)
    requires |rs| <= |s.channel| && s.disk != []
    ensures WriteAll(s, rs).drivers.Keys == s.drivers.Keys
  {
    hide Apply, AppendTo, Replay, FromEntries;
    if rs != [] { WriteAllClients(s, rs[..|rs| - 1]); }
  }

  lemma {:induction false} RefuseAllClients(s: State, n: nat)
    requires n <= |s.channel|
    ensures RefuseAll(s, n).drivers.Keys == s.drivers.Keys
  {
    if n > 0 { RefuseAllClients(s, n - 1); }
  }

  lemma BatchLeaks(s: State, step: Step, t: Txn)
    requires Enabled(s, step) && (step.WriteBatch? || step.RefuseBatch? || step.BreakBatch?)
    ensures Leaked(Do(s, step), t) <==> Leaked(s, t)
  {
    hide WriteAll, RefuseAll, GivenUp;
    match step {
      case WriteBatch(rs) => WriteAllFrame(s, rs); WriteAllClients(s, rs);
      case RefuseBatch(n) => RefuseAllFrame(s, n); RefuseAllClients(s, n);
      case BreakBatch(n, _, _, _, _) => RefuseAllFrame(s, n); RefuseAllClients(s, n);
    }
    assert t in Do(s, step).drivers.Keys <==> t in s.drivers.Keys;
  }

  lemma PickLeaks(s: State, t: Txn)
    requires s.up && s.monitor == Idle && s.queue != []
    ensures Leaked(Picked(s), t) <==> Leaked(s, t)
    ensures s.queue[0] in s.mem ==> (Leaked(Dropped(s), t) <==> Leaked(s, t))
  {
    assert t in s.queue <==> t == s.queue[0] || t in s.queue[1..];
  }

  lemma BusyLeaks(s: State, t: Txn)
    requires s.up && s.monitor.Busy?
    ensures Leaked(CleanedUp(s), t) <==> Leaked(s, t)
    ensures Leaked(PutBack(s), t) <==> Leaked(s, t)
  {
  }

  lemma MonitorLeaks(s: State, step: Step, t: Txn)
    requires Enabled(s, step) && OfMonitor(step)
    ensures Leaked(Do(s, step), t) <==> Leaked(s, t)
  {
    hide AllOk, Leaked, Picked, Dropped, CleanedUp, PutBack;
    match step {
      case MonitorPick => PickLeaks(s, t);
      case MonitorNoDatabase => PickLeaks(s, t);
      case MonitorDone => BusyLeaks(s, t);
      case MonitorRetry => BusyLeaks(s, t);
      case RequestCheckpoint => AskLeaks(s, t);
    }
  }

  lemma AskLeaks(s: State, t: Txn)
    ensures Leaked(s.(channel := s.channel + [TakeCheckpoint]), t) <==> Leaked(s, t)
  {
  }

  lemma RecoverLeaks(s: State, step: Step, t: Txn)
    requires Enabled(s, step) && step.Recover?
    ensures !Leaked(Do(s, step), t) && !Leaked(s, t)
  {
    hide ReplayDisk, After, Corrupted, Restored, RestoredSnapshot, NameTaken;
    assert t in (set x | x in step.order) <==> t in step.order;
  }

  /** Only a client that leaves before it holds a guard leaves its entry unattended. */
  lemma AbandonLeaks(s: State, t0: Txn, t: Txn)
    requires s.up && t0 in s.drivers && t0 in s.mem && t0 !in s.queue && !BusyWith(s, t0)
    ensures Leaked(Abandoned(s, t0), t) <==> Leaked(s, t) || (t == t0 && Guards(s.drivers[t], t) == [])
  {
    hide Guards;
    var guards := Guards(s.drivers[t0], t0);
    assert t in s.queue + guards <==> t in s.queue || t in guards;
    assert guards != [] ==> guards[0] == t0;
  }

  lemma OtherClientLeaks(s: State, step: Step, t: Txn)
    requires Enabled(s, step) && OfClient(step) && !step.Abandon?
    requires step.CommittingRefused? ==> step.txn in s.mem
    requires step.Start? ==> step.txn !in s.mem
    ensures Leaked(Do(s, step), t) <==> Leaked(s, t)
  {
    hide AllOk;
  }

  lemma ClientLeaks(s: State, step: Step, t: Txn)
    requires Inv(s) && Enabled(s, step) && OfClient(step)
    ensures Leaked(Do(s, step), t) <==>
            || Leaked(s, t)
            || (&& step == Abandon(t) && t in s.drivers
                && (s.drivers[t] == AwaitBegin || s.drivers[t] == BeginAcked || s.drivers[t] == BeginNacked))
  {
    ClientKnown(s, step);
    if step.Abandon? {
      hide Abandoned, Inv, Leaked, Guards;
      AbandonLeaks(s, step.txn, t);
    } else {
      hide Do, Inv, Leaked;
      OtherClientLeaks(s, step, t);
    }
  }

  lemma ClientKnown(s: State, step: Step)
    requires Inv(s) && Enabled(s, step) && OfClient(step)
    ensures if step.Start? then step.txn !in s.mem
            else step.txn in s.drivers && step.txn in s.mem && step.txn !in s.queue && !BusyWith(s, step.txn)
  {
    hide See, FilesInv, GcInv, LogOf, ShardsOf, Parts, Waiting, AllOk;
    assert TxnInv(s, See(s.disk), step.txn);
  }

  /**
   An entry leaks exactly when its client is gone before the transaction was first handed to the
   shards; every other way of leaving queues it. Then only a restart gets it out of memory.
   */
  lemma LeaksIff(ss: seq<State>, steps: seq<Step>, n: nat, t: Txn)
    requires SafeRun(ss, steps) && n < |steps| && ss[n + 1].up
    ensures Leaked(ss[n + 1], t) <==>
            || Leaked(ss[n], t)
            || (&& steps[n] == Abandon(t) && t in ss[n].drivers
                && (ss[n].drivers[t] == AwaitBegin || ss[n].drivers[t] == BeginAcked || ss[n].drivers[t] == BeginNacked))
  {
    hide Inv, Hazard, Init, Do, Enabled;
    RunKeeps(ss, steps, n);
    assert Enabled(ss[n], steps[n]) && ss[n + 1] == Do(ss[n], steps[n]);
    StepLeaks(ss[n], steps[n], t);
  }

  lemma ShardLeaks(s: State, step: Step, t: Txn)
    requires Enabled(s, step) && OfShard(step)
    ensures Leaked(Do(s, step), t) <==> Leaked(s, t)
  {
    hide AtShard, ShardMay;
  }

  lemma FileLeaks(s: State, step: Step, t: Txn)
    requires Enabled(s, step) && !OfCoordinator(step) && !OfShard(step) && Do(s, step).up
    requires !(step.WriteBatch? || step.RefuseBatch? || step.BreakBatch? || step.Recover?)
    ensures Leaked(Do(s, step), t) <==> Leaked(s, t)
  {
    hide CanWrite, NameTaken, Deletable, ReplayDisk, Differ, WriteAll, EndLsn;
  }

  lemma StepLeaks(s: State, step: Step, t: Txn)
    requires Inv(s) && Enabled(s, step) && Do(s, step).up
    ensures Leaked(Do(s, step), t) <==>
            || Leaked(s, t)
            || (&& step == Abandon(t) && t in s.drivers
                && (s.drivers[t] == AwaitBegin || s.drivers[t] == BeginAcked || s.drivers[t] == BeginNacked))
  {
    hide Inv, Do, Enabled, Leaked;
    if step.WriteBatch? || step.RefuseBatch? || step.BreakBatch? {
      BatchLeaks(s, step, t);
    } else if step.Recover? {
      RecoverLeaks(s, step, t);
    } else if OfShard(step) {
      ShardLeaks(s, step, t);
    } else if OfClient(step) {
      ClientLeaks(s, step, t);
    } else if OfMonitor(step) {
      MonitorLeaks(s, step, t);
    } else {
      FileLeaks(s, step, t);
    }
  }
}
