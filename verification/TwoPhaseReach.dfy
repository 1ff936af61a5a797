/** Continuations of a run: how the system gets from one state to another without a hazard. */
module TwoPhaseReach {
  import opened WalRecord
  import opened WalLog
  import opened WalRecovery
  import opened TwoPhase
  import opened TwoPhaseInvariant
  import opened TwoPhaseSafety

  /** A stretch of a run without a hazard. */
  ghost predicate SafePath(ss: seq<State>, steps: seq<Step>) {
    && |ss| == |steps| + 1
    && (forall i :: 0 <= i < |steps| ==> Enabled(ss[i], steps[i]) && ss[i + 1] == Do(ss[i], steps[i]))
    && (forall i :: 0 <= i < |steps| ==> !Hazard(ss[i], steps[i]))
  }

  ghost predicate Reaches(s: State, s': State) {
    exists ss, steps :: SafePath(ss, steps) && ss[0] == s && ss[|ss| - 1] == s'
  }

  lemma ReachesSelf(s: State)
    ensures Reaches(s, s)
  {
    assert SafePath([s], []);
  }

  lemma ReachesStep(s: State, m: State, step: Step)
    requires Reaches(s, m) && Enabled(m, step) && !Hazard(m, step)
    ensures Reaches(s, Do(m, step))
  {
    hide Do, Enabled, Hazard;
    var ss, steps :| SafePath(ss, steps) && ss[0] == s && ss[|ss| - 1] == m;
    var ss', steps' := ss + [Do(m, step)], steps + [step];
    forall i | 0 <= i < |steps'|
      ensures Enabled(ss'[i], steps'[i]) && ss'[i + 1] == Do(ss'[i], steps'[i]) && !Hazard(ss'[i], steps'[i])
    {
      assert i < |steps| ==> Enabled(ss[i], steps[i]) && ss[i + 1] == Do(ss[i], steps[i]) && !Hazard(ss[i], steps[i]);
    }
    assert SafePath(ss', steps');
  }

  /** Everything reached from a state of the invariant is in it too. */
  lemma ReachesKeeps(s: State, s': State)
    requires Inv(s) && Reaches(s, s')
    ensures Inv(s')
  {
    hide Inv, Hazard, Do, Enabled;
    var ss, steps :| SafePath(ss, steps) && ss[0] == s && ss[|ss| - 1] == s';
    PathKeeps(ss, steps, |steps|);
  }

  lemma {:induction false} PathKeeps(ss: seq<State>, steps: seq<Step>, n: nat)
    requires SafePath(ss, steps) && Inv(ss[0]) && n < |ss|
    ensures Inv(ss[n])
  {
    hide Inv, Hazard, Do, Enabled;
    if n > 0 {
      PathKeeps(ss, steps, n - 1);
      assert Enabled(ss[n - 1], steps[n - 1]) && ss[n] == Do(ss[n - 1], steps[n - 1]);
      StepKeeps(ss[n - 1], steps[n - 1]);
    }
  }

  // ---- single steps -----------------------------------------------------------------

  /** A crash that leaves the disk as it is. */
  lemma CrashNow(s: State, m: State) returns (m': State)
    requires Reaches(s, m) && m.up && m.disk != []
    ensures Reaches(s, m') && m' == Crashed(m)
  {
    hide Reaches, Hazard;
    assert m.channel[..0] == [];
    ReachesStep(s, m, Crash([], false)) by { CrashIsSafe(m); }
    m' := Do(m, Crash([], false));
  }

  lemma CrashIsSafe(m: State)
    requires Enabled(m, Crash([], false))
    ensures !Hazard(m, Crash([], false))
  {
  }

  lemma {:induction false} Enumerate(keys: set<Txn>) returns (order: seq<Txn>)
    ensures (set x | x in order) == keys
  {
    if keys == {} {
      order := [];
    } else {
      var t :| t in keys;
      var rest := Enumerate(keys - {t});
      order := [t] + rest;
      assert keys == {t} + (keys - {t});
      assert forall x :: x in order <==> x == t || x in (set y | y in rest);
    }
  }

  lemma RecoverInOrder(s: State, m: State, order: seq<Txn>) returns (m': State)
    requires Reaches(s, m) && !m.up && !NameTaken(m.disk)
    requires (set t | t in order) == Restored(ReplayDisk(m.disk), Corrupted(m.disk)).Keys
    ensures Reaches(s, m') && m' == Recovering(m, order)
  {
    hide Reaches, Recovering, ReplayDisk, NameTaken, Restored, Corrupted;
    ReachesStep(s, m, Recover(order));
    m' := Do(m, Recover(order));
  }

  lemma RecoverNow(s: State, m: State) returns (m': State)
    requires Reaches(s, m) && !m.up && !NameTaken(m.disk)
    ensures Reaches(s, m') && exists order :: m' == Recovering(m, order)
  {
    hide Reaches, Recovering, ReplayDisk, NameTaken, Restored, Corrupted;
    var order := Enumerate(Restored(ReplayDisk(m.disk), Corrupted(m.disk)).Keys);
    m' := RecoverInOrder(s, m, order);
  }

  /** The order in which a recovery queues transactions is arbitrary, so any of them may come first. */
  lemma RecoverFirst(s: State, m: State, t: Txn) returns (m': State)
    requires Reaches(s, m) && !m.up && !NameTaken(m.disk) && t in Restored(ReplayDisk(m.disk), Corrupted(m.disk))
    ensures Reaches(s, m') && m'.queue != [] && m'.queue[0] == t && m' == Recovering(m, m'.queue)
  {
    hide Reaches, ReplayDisk, NameTaken, Restored, Corrupted, Lose, RestoredSnapshot, After;
    var keys := Restored(ReplayDisk(m.disk), Corrupted(m.disk)).Keys;
    var rest := Enumerate(keys - {t});
    var order := [t] + rest;
    assert forall x :: x in order <==> x == t || x in (set y | y in rest);
    assert t in keys && keys == {t} + (keys - {t});
    assert (set x | x in order) == keys;
    m' := RecoverInOrder(s, m, order);
  }

  // ---- the monitor's queue -----------------------------------------------------------------

  /** Only the monitor has moved. */
  predicate Monitored(m: State, m': State) {
    m' == m.(queue := m'.queue, monitor := m'.monitor, channel := m'.channel,
             commitSent := m'.commitSent, rollbackSent := m'.rollbackSent)
    && m.commitSent <= m'.commitSent && m.rollbackSent <= m'.rollbackSent
  }

  lemma PickGone(s: State, m: State) returns (m': State)
    requires Reaches(s, m) && m.up && m.monitor == Idle && m.queue != [] && m.queue[0] !in m.mem
    ensures Reaches(s, m') && Monitored(m, m') && m'.monitor == Idle && m'.queue == m.queue[1..]
  {
    hide Reaches;
    ReachesStep(s, m, MonitorPick);
    m' := Do(m, MonitorPick);
    assert m.mem - {m.queue[0]} == m.mem;
  }

  lemma PickRollback(s: State, m: State) returns (m': State)
    requires Reaches(s, m) && m.up && m.monitor == Idle && m.queue != [] && m.queue[0] in m.mem && m.mem[m.queue[0]] == Phase1
    ensures Reaches(s, m') && Monitored(m, m') && m'.monitor == Busy(m.queue[0], Rollback) && m'.queue == m.queue[1..]
    ensures m.queue[0] in m'.rollbackSent
  {
    hide Reaches;
    ReachesStep(s, m, MonitorPick);
    m' := Do(m, MonitorPick);
  }

  lemma PickCommit(s: State, m: State) returns (m': State)
    requires Reaches(s, m) && m.up && m.monitor == Idle && m.queue != [] && m.queue[0] in m.mem && m.mem[m.queue[0]] != Phase1
    ensures Reaches(s, m') && Monitored(m, m') && m'.monitor == Busy(m.queue[0], Phase2) && m'.queue == m.queue[1..]
    ensures m.queue[0] in m'.commitSent
  {
    hide Reaches;
    ReachesStep(s, m, MonitorPick);
    m' := Do(m, MonitorPick);
  }

  lemma Retry(s: State, m: State) returns (m': State)
    requires Reaches(s, m) && m.up && m.monitor.Busy?
    ensures Reaches(s, m') && Monitored(m, m') && m'.monitor == Idle && m'.queue == m.queue + [m.monitor.txn]
  {
    hide Reaches;
    ReachesStep(s, m, MonitorRetry);
    m' := Do(m, MonitorRetry);
  }

  /** Send the head of the queue to its end, or out of it if it is over. */
  lemma RotateOnce(s: State, m: State) returns (m': State)
    requires Reaches(s, m) && m.up && m.monitor == Idle && m.queue != []
    ensures Reaches(s, m') && Monitored(m, m') && m'.monitor == Idle && m.queue[1..] <= m'.queue
  {
    hide Reaches;
    var t := m.queue[0];
    if t !in m.mem {
      m' := PickGone(s, m);
    } else if m.mem[t] == Phase1 {
      m' := PickRollback(s, m);
      m' := Retry(s, m');
    } else {
      m' := PickCommit(s, m);
      m' := Retry(s, m');
    }
  }

  lemma {:induction false} RotateTo(s: State, m: State, t: Txn, k: nat) returns (m': State)
    requires Reaches(s, m) && m.up && m.monitor == Idle && k < |m.queue| && m.queue[k] == t
    ensures Reaches(s, m') && Monitored(m, m') && m'.monitor == Idle && m'.queue != [] && m'.queue[0] == t
    decreases k
  {
    hide Reaches;
    if k == 0 {
      m' := m;
    } else {
      m' := RotateOnce(s, m);
      assert m'.queue[k - 1] == m.queue[1..][k - 1];
      m' := RotateTo(s, m', t, k - 1);
    }
  }

  /** The monitor gets round to every queued transaction. */
  lemma MonitorReaches(s: State, m: State, t: Txn) returns (m': State)
    requires Reaches(s, m) && m.up && (t in m.queue || BusyWith(m, t))
    ensures Reaches(s, m') && Monitored(m, m') && m'.monitor == Idle && m'.queue != [] && m'.queue[0] == t
  {
    hide Reaches;
    m' := m;
    if m.monitor.Busy? {
      m' := Retry(s, m);
      assert m'.queue[|m.queue|] == m.monitor.txn;
    }
    assert t in m'.queue;
    var k: nat :| k < |m'.queue| && m'.queue[k] == t;
    m' := RotateTo(s, m', t, k);
  }

  // ---- shards -----------------------------------------------------------------------------

  lemma CommitAt(s: State, m: State, t: Txn, i: nat) returns (m': State)
    requires Reaches(s, m) && i < m.shards && t in m.commitSent
    requires PartOf(m, t, i) == Prepared || PartOf(m, t, i) == Committed
    ensures Reaches(s, m') && m' == m.(parts := m'.parts, commitOk := m.commitOk + {(t, i)})
    ensures forall x: Txn, j: nat :: PartOf(m', x, j) == if (x, j) == (t, i) then Committed else PartOf(m, x, j)
  {
    hide Reaches;
    ReachesStep(s, m, ShardCommit(t, i));
    m' := Do(m, ShardCommit(t, i));
  }

  lemma RollBackAt(s: State, m: State, t: Txn, i: nat) returns (m': State)
    requires Reaches(s, m) && i < m.shards && t in m.rollbackSent && PartOf(m, t, i) == Prepared
    ensures Reaches(s, m') && m' == m.(parts := m'.parts, rollbackOk := m.rollbackOk + {(t, i)})
    ensures forall x: Txn, j: nat :: PartOf(m', x, j) == if (x, j) == (t, i) then RolledBack else PartOf(m, x, j)
  {
    hide Reaches;
    ReachesStep(s, m, ShardRollback(t, i));
    m' := Do(m, ShardRollback(t, i));
  }
}
