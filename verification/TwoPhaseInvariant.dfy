/** The protocol's invariant: for each transaction, the facts about it in a state and how they must fit together. */
module TwoPhaseInvariant {
  import opened Common
  import opened WalRecord
  import opened WalLog
  import opened WalRecovery
  import opened WalHistory
  import opened TwoPhase
  import opened TwoPhaseDisk

  // ---- the facts ----------------------------------------------------------------------

  /** How many requests about the transaction are waiting for the log writer. */
  datatype Pending = Pending(begins: nat, committings: nat, ends: nat)

  function Add(p: Pending, a: Append, t: Txn): Pending {
    match a
    case Rec(Begin(x, _, _)) => if x == t then p.(begins := p.begins + 1) else p
    case Rec(Committing(x)) => if x == t then p.(committings := p.committings + 1) else p
    case Rec(End(x)) => if x == t then p.(ends := p.ends + 1) else p
    case _ => p
  }

  function Waiting(ch: seq<Append>, t: Txn): Pending {
    if ch == [] then Pending(0, 0, 0) else Add(Waiting(ch[1..], t), ch[0], t)
  }

  lemma {:induction false} WaitingSnoc(ch: seq<Append>, a: Append, t: Txn)
    ensures Waiting(ch + [a], t) == Add(Waiting(ch, t), a, t)
  {
    if ch == [] {
      assert ([a])[1..] == [];
    } else {
      WaitingSnoc(ch[1..], a, t);
      assert (ch + [a])[1..] == ch[1..] + [a];
    }
  }

  /**
   What the next recovery, the one after it and the writer's snapshot have about the transaction,
   and what the records on disk say.
   */
  datatype Log = Log(d: Mark, e: Mark, p: Mark, decision: bool, mentioned: bool, ordered: bool)

  datatype Mark = Nowhere | Begun | Chosen

  function Look(w: Table, t: Txn): Mark {
    if t !in w then Nowhere else if w[t].decided then Chosen else Begun
  }

  function LogOf(v: View, snapshot: Table, t: Txn): Log {
    Log(Look(v.d, t), Look(v.e, t), Look(snapshot, t), HasDecision(v.log, t), Mentioned(v.log, t), Ordered(v.log, t))
  }

  /** Whether every shard has prepared, has committed, is through with the transaction. */
  datatype Shards = Shards(prepared: bool, everywhere: bool, settled: bool)

  function ShardsOf(s: State, t: Txn): Shards {
    Shards(AllOk(s.shards, t, s.prepareOk), CommittedEverywhere(s, t), forall i: nat :: i < s.shards ==> Settled(s, t, i))
  }

  datatype Facts = Facts(
    up: bool, writing: bool, started: bool,
    mem: Option<Phase>, pc: Option<Pc>, queued: bool, busy: Option<Phase>,
    prepareSent: bool, commitSent: bool, rollbackSent: bool,
    reported: bool, dropped: bool, lost: bool,
    waiting: Pending, log: Log, shards: Shards)

  function FactsOf(s: State, v: View, t: Txn): Facts {
    Facts(s.up, s.writing, t in s.started,
          if t in s.mem then Some(s.mem[t]) else None,
          if t in s.drivers then Some(s.drivers[t]) else None,
          t in s.queue,
          if BusyWith(s, t) then Some(s.monitor.phase) else None,
          t in s.prepareSent, t in s.commitSent, t in s.rollbackSent,
          t in s.reported, t in s.dropped, t in s.lost,
          Waiting(s.channel, t), LogOf(v, s.snapshot, t), ShardsOf(s, t))
  }

  predicate BusyWith(s: State, t: Txn) {
    s.monitor.Busy? && s.monitor.txn == t
  }

  // ---- how they fit together --------------------------------------------------------------

  /** The log, and while the process is up its memory, still carry the transaction. */
  predicate InLog(f: Facts) {
    f.log.d != Nowhere && (f.up ==> f.log.p != Nowhere && f.mem.Some?) && f.waiting.ends == 0
  }

  /** Its log entry is good, or there is still a shard for which that matters. */
  predicate Exposed(f: Facts) {
    !f.lost || !f.shards.everywhere
  }

  predicate UnstartedGood(f: Facts) {
    !f.started ==>
      && f.mem == None && f.pc == None && !f.queued && f.busy == None
      && !f.prepareSent && !f.commitSent && !f.rollbackSent && !f.reported && !f.dropped && !f.lost
      && !f.log.mentioned && f.log.p == Nowhere && f.waiting == Pending(0, 0, 0)
  }

  /** What the tables show comes from the log's records, and what was decided is not open again. */
  predicate LogGood(g: Log) {
    && g.ordered
    && (g.d != Nowhere || g.e != Nowhere ==> g.mentioned)
    && (g.d == Chosen || g.e == Chosen ==> g.decision)
    && (g.decision ==> g.mentioned && g.d != Begun)
  }

  /** A decision on disk, or about to get there, is one every shard prepared for and nobody reverses. */
  predicate DecisionGood(f: Facts) {
    && (f.log.decision || f.log.p == Chosen ==>
          && f.prepareSent && f.shards.prepared && !f.rollbackSent
          && (f.mem == None || f.mem == Some(Phase2))
          && (f.pc == None || f.pc == Some(CommittingAcked) || f.pc == Some(AwaitCommit)))
    && (f.log.p == Begun ==> !f.log.decision)
  }

  predicate ChannelGood(f: Facts) {
    && f.waiting.begins <= 1
    && (f.waiting.begins > 0 ==>
          && !f.prepareSent && !f.queued && f.busy == None
          && !f.log.mentioned && f.log.p == Nowhere && f.waiting.ends == 0)
    && (f.waiting.committings > 0 ==> f.pc == Some(AwaitCommitting) || (f.pc == None && !f.writing))
  }

  predicate CommitGood(f: Facts) {
    f.commitSent ==>
      && f.prepareSent && (f.pc == None || f.pc == Some(AwaitCommit))
      && (Exposed(f) ==> !f.rollbackSent && (f.mem == None || f.mem == Some(Phase2)) && f.busy != Some(Rollback))
      && (Exposed(f) && f.writing ==> f.log.p != Begun)
      && (!f.lost || (f.writing && !f.shards.everywhere) ==> f.log.d != Begun)
  }

  predicate RollbackGood(f: Facts) {
    f.rollbackSent ==> f.pc == None && (f.mem == None || f.mem == Some(Phase1)) && f.busy != Some(Phase2)
  }

  /** What memory says to commit, and no client is driving. */
  predicate CommittingGood(f: Facts) {
    && (f.queued || f.busy.Some?)
    && (Exposed(f) && f.writing ==> f.log.d != Begun && f.log.p != Begun)
    && (!f.lost ==> InLog(f) && f.log.d == Chosen)
  }

  predicate MemoryGood(f: Facts) {
    && (f.mem.Some? ==>
          || f.mem == Some(Phase1)
          || (&& f.mem == Some(Phase2) && f.prepareSent && !f.rollbackSent && f.shards.prepared
              && (f.pc == None ==> CommittingGood(f))))
    && (f.queued || f.busy.Some? || f.dropped || f.lost ==> f.pc == None)
    && (f.busy.Some? ==> if f.busy == Some(Phase2) then f.commitSent else f.busy == Some(Rollback) && f.rollbackSent)
    && (f.prepareSent && !f.lost ==> f.dropped || f.shards.settled || InLog(f))
    && (f.reported ==> f.shards.everywhere)
  }

  predicate ClientGood(f: Facts) {
    f.pc.Some? ==>
      && !f.rollbackSent && f.mem == Some(PhaseAt(f.pc.value)) && (f.pc != Some(AwaitCommit) ==> !f.commitSent)
      && match f.pc.value
         case AwaitBegin => !f.prepareSent && !f.log.mentioned && f.log.p == Nowhere && f.waiting.ends == 0
         case BeginAcked => !f.prepareSent && InLog(f) && f.waiting.begins == 0
         case BeginNacked => !f.prepareSent && f.log.p == Nowhere && f.waiting.begins == 0
         case AwaitPrepare => f.prepareSent && InLog(f)
         case AwaitCommitting => InLog(f) && f.waiting.committings <= 1
         case CommittingAcked => InLog(f) && f.log.d == Chosen && f.log.p == Chosen
         case CommittingNacked => InLog(f)
         case AwaitCommit => InLog(f) && f.commitSent
  }

  function PhaseAt(pc: Pc): Phase {
    if pc == AwaitBegin || pc == BeginAcked || pc == BeginNacked || pc == AwaitPrepare then Phase1 else Phase2
  }

  predicate Inverted(f: Facts) {
    && f.log.e == Begun && !f.shards.everywhere
    && (f.commitSent || f.log.d == Chosen || (f.mem == Some(Phase2) && f.pc == None))
  }

  predicate Good(f: Facts) {
    && UnstartedGood(f) && LogGood(f.log) && DecisionGood(f) && ChannelGood(f) && CommitGood(f) && RollbackGood(f)
    && MemoryGood(f) && ClientGood(f) && !Inverted(f)
  }

  /** One shard's answers agree with what it did and with what it was told. */
  predicate PartInv(s: State, t: Txn, i: nat) {
    && ((t, i) in s.prepareOk ==>
          t in s.prepareSent && PartOf(s, t, i) != Open && (PartOf(s, t, i) == RolledBack ==> t in s.rollbackSent))
    && (PartOf(s, t, i) == Prepared || PartOf(s, t, i) == Committed ==> (t, i) in s.prepareOk)
    && (PartOf(s, t, i) == Committed ==> t in s.commitSent)
    && ((t, i) in s.commitOk ==> t in s.commitSent && PartOf(s, t, i) != Prepared)
    && ((t, i) in s.rollbackOk ==> t in s.rollbackSent && Settled(s, t, i))
    && ((t, i) in s.overtaken ==> t in s.rollbackSent)
    && (t in s.commitSent ==> (t, i) in s.prepareOk)
  }

  predicate Parts(s: State, t: Txn) {
    forall i: nat :: i < s.shards ==> PartInv(s, t, i)
  }

  predicate TxnInv(s: State, v: View, t: Txn) {
    Good(FactsOf(s, v, t)) && Parts(s, t)
  }

  predicate ProcessInv(s: State) {
    && FilesInv(s.disk, s.writing) && GcInv(s.disk, s.gcLsns) && (s.writing ==> s.up) && (s.up ==> s.disk != [])
    && (forall i :: 0 <= i < |s.channel| ==> Appendable(s.channel[i]))
    && (!s.up ==>
          && s.mem == map[] && s.queue == [] && s.drivers == map[] && s.monitor == Idle
          && s.channel == [] && s.snapshot == map[] && s.gcLsns == {})
  }

  ghost predicate Inv(s: State) {
    ProcessInv(s) && forall t :: TxnInv(s, See(s.disk), t)
  }

  lemma InitKeeps(s: State)
    requires Init(s)
    ensures Inv(s)
  {
    var disk := s.disk;
    assert disk[..0] == [] && Flatten(disk) == Flatten(disk[..0]) + [] == [];
    assert After(disk) == disk;
    HeaderNameFree(disk);
  }

  /** The state's own notion of an inverted transaction is that of its facts. */
  lemma InvertedIsInverted(s: State, v: View, t: Txn)
    ensures InvertedBy(s, v.d, v.e, t) <==> Inverted(FactsOf(s, v, t))
  {
    hide CommittedEverywhere, HasDecision, Mentioned, Ordered, Waiting, AllOk, Settled;
  }

  // ---- shards seen from the coordinator ----------------------------------------------------

  /** A step that leaves the shards alone leaves what is known about them intact. */
  lemma ShardsUntouched(s: State, s': State, t: Txn)
    requires s'.shards == s.shards && s'.parts == s.parts && s'.prepareOk == s.prepareOk
    requires s'.commitOk == s.commitOk && s'.rollbackOk == s.rollbackOk && s'.overtaken == s.overtaken
    requires s.prepareSent <= s'.prepareSent && s.commitSent <= s'.commitSent && s.rollbackSent <= s'.rollbackSent
    requires t in s'.commitSent && t !in s.commitSent ==> ShardsOf(s, t).prepared
    requires Parts(s, t)
    ensures Parts(s', t) && ShardsOf(s', t) == ShardsOf(s, t)
  {
    forall i: nat | i < s.shards
      ensures PartInv(s', t, i) && (Settled(s, t, i) <==> Settled(s', t, i)) && PartOf(s', t, i) == PartOf(s, t, i)
    {
      assert PartInv(s, t, i);
    }
  }

  /** Every shard answered COMMIT PREPARED, so every shard committed. */
  lemma CommitAnswered(s: State, t: Txn)
    requires t in s.commitSent && t !in s.rollbackSent && AllOk(s.shards, t, s.commitOk) && Parts(s, t)
    ensures ShardsOf(s, t).everywhere && ShardsOf(s, t).settled
  {
    forall i: nat | i < s.shards
      ensures PartOf(s, t, i) == Committed && Settled(s, t, i)
    {
      assert PartInv(s, t, i) && (t, i) in s.commitOk;
    }
  }

  lemma RollbackAnswered(s: State, t: Txn)
    requires AllOk(s.shards, t, s.rollbackOk) && Parts(s, t)
    ensures ShardsOf(s, t).settled
  {
    forall i: nat | i < s.shards
      ensures Settled(s, t, i)
    {
      assert PartInv(s, t, i) && (t, i) in s.rollbackOk;
    }
  }
}
