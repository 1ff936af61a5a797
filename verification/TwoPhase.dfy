/**
 The two-phase commit protocol as it runs: one coordinator process with its in-memory manager,
 its clients, its cleanup monitor and its log writer; the shards; and crashes at any point.

 Time and order are free. Messages may be delayed without bound, also across a crash of the
 coordinator; a shard may abort a transaction it has not prepared; a log batch may fail, and so may
 the attempt to take it back; old files are deleted one at a time or not at all; files may be
 damaged; the process may die with any prefix of a batch on disk, in the middle of a record, of
 creating a segment or of a recovery.
 */
module TwoPhase {
  import opened WalRecord
  import opened WalLog
  import opened WalRecovery

  /** What a shard knows about a transaction. */
  datatype Part = Open | Prepared | Committed | RolledBack

  /** Where the client that commits a transaction is waiting. */
  datatype Pc =
    | AwaitBegin | BeginAcked | BeginNacked
    | AwaitPrepare
    | AwaitCommitting | CommittingAcked | CommittingNacked
    | AwaitCommit

  datatype Monitor = Idle | Busy(txn: Txn, phase: Phase)

  datatype State = State(
    shards: nat,
    // the process, and in it the log writer, which does not outlive a disk it cannot go on with
    up: bool,
    writing: bool,
    started: set<Txn>,
    // the manager's memory
    mem: map<Txn, Phase>,
    queue: seq<Txn>,
    drivers: map<Txn, Pc>,
    monitor: Monitor,
    // the log
    channel: seq<Append>,
    disk: seq<Segment>,
    snapshot: Table,
    gcLsns: set<nat>,
    // commands sent to every shard of a transaction, and the shards' answers
    prepareSent: set<Txn>,
    commitSent: set<Txn>,
    rollbackSent: set<Txn>,
    prepareOk: set<(Txn, nat)>,
    commitOk: set<(Txn, nat)>,
    rollbackOk: set<(Txn, nat)>,
    parts: map<(Txn, nat), Part>,
    // history: transactions reported as committed to their client; transactions the coordinator
    // gave up on (database gone from the configuration, or skipped by a recovery that met
    // corruption); transactions whose entry in the log was changed by damage or is left behind by a
    // log that is no longer written; shards whose rollback ran before their prepare
    reported: set<Txn>,
    dropped: set<Txn>,
    lost: set<Txn>,
    overtaken: set<(Txn, nat)>)

  /** The file to go on in after a segment is given up: there, not there, or there without its header. */
  datatype NextFile = Opened | Absent | Half

  /** What became of a damaged file: its header is gone, or only `keep` records are left before it ends. */
  datatype Rot = NoHeader | Cut(keep: nat, ending: Ending)

  datatype Step =
    // clients
    | Start(txn: Txn, user: string, database: string)
    | SendPrepare(txn: Txn)
    | BeginRefused(txn: Txn)
    | EnterPhaseTwo(txn: Txn)
    | SendCommit(txn: Txn)
    | CommittingRefused(txn: Txn)
    | Finish(txn: Txn)
    | Abandon(txn: Txn)
    // monitor
    | MonitorPick
    | MonitorDone
    | MonitorRetry
    | MonitorNoDatabase
    // log writer
    | RequestCheckpoint
    | WriteBatch(records: seq<Record>)
    | RefuseBatch(count: nat)
    | BreakBatch(count: nat, landed: seq<Record>, torn: bool, counted: bool, next: NextFile)
    | Rotate
    | DeleteSegment(segment: nat, lsn: nat)
    | BitRot(segment: nat, rot: Rot)
    // process
    | Crash(landed: seq<Record>, torn: bool)
    | CrashInCreation
    | CrashInRecovery(read: nat)
    | Recover(order: seq<Txn>)
    // shards
    | ShardPrepare(txn: Txn, shard: nat)
    | ShardAbort(txn: Txn, shard: nat)
    | ShardCommit(txn: Txn, shard: nat)
    | ShardRollback(txn: Txn, shard: nat)

  function PartOf(s: State, t: Txn, i: nat): Part {
    if (t, i) in s.parts then s.parts[(t, i)] else Open
  }

  predicate AllOk(n: nat, t: Txn, oks: set<(Txn, nat)>) {
    forall i: nat :: i < n ==> (t, i) in oks
  }

  predicate Init(s: State) {
    && s.up && s.writing && s.started == {} && s.mem == map[] && s.queue == [] && s.drivers == map[] && s.monitor == Idle
    && s.channel == [] && s.disk == [Segment(0, true, [], CleanEnd)] && s.snapshot == map[] && s.gcLsns == {}
    && s.prepareSent == {} && s.commitSent == {} && s.rollbackSent == {}
    && s.prepareOk == {} && s.commitOk == {} && s.rollbackOk == {} && s.parts == map[]
    && s.reported == {} && s.dropped == {} && s.lost == {} && s.overtaken == {}
  }

  // ---- the log writer --------------------------------------------------------

  function Answer(drivers: map<Txn, Pc>, a: Append, ok: bool): map<Txn, Pc> {
    match a
    case Rec(Begin(t, _, _)) =>
      if t in drivers && drivers[t] == AwaitBegin then drivers[t := if ok then BeginAcked else BeginNacked] else drivers
    case Rec(Committing(t)) =>
      if t in drivers && drivers[t] == AwaitCommitting
      then drivers[t := if ok then CommittingAcked else CommittingNacked] else drivers
    case _ => drivers
  }

  function AppendTo(disk: seq<Segment>, r: Record): seq<Segment>
    requires disk != []
  {
    var last := disk[|disk| - 1];
    disk[..|disk| - 1] + [last.(records := last.records + [r])]
  }

  function EndLsn(disk: seq<Segment>): nat
    requires disk != []
  {
    disk[|disk| - 1].start + |disk[|disk| - 1].records|
  }

  /** Make the oldest request durable as record `r` and answer its caller. */
  function WriteOne(s: State, r: Record): State
    requires s.channel != [] && s.disk != []
  {
    s.(channel := s.channel[1..],
       disk := AppendTo(s.disk, r),
       snapshot := Apply(s.snapshot, r),
       drivers := Answer(s.drivers, s.channel[0], true),
       gcLsns := if r.Checkpoint? then s.gcLsns + {EndLsn(s.disk)} else s.gcLsns)
  }

  function WriteAll(s: State, rs: seq<Record>): (after: State)
    requires |rs| <= |s.channel| && s.disk != []
    ensures after.channel == s.channel[|rs|..] && after.disk != [] && after.snapshot == Replay(s.snapshot, rs)
  {
    if rs == [] then s else WriteOne(WriteAll(s, rs[..|rs| - 1]), rs[|rs| - 1])
  }

  function RefuseAll(s: State, n: nat): (after: State)
    requires n <= |s.channel|
    ensures after.channel == s.channel[n..]
  {
    if n == 0 then s
    else
      var s1 := RefuseAll(s, n - 1);
      s1.(channel := s1.channel[1..], drivers := Answer(s1.drivers, s1.channel[0], false))
  }

  predicate CanWrite(s: State, rs: seq<Record>) {
    s.up && s.writing && s.disk != [] && |rs| <= |s.channel| && MaterializesAll(s.snapshot, s.channel[..|rs|], rs)
  }

  // ---- processes --------------------------------------------------------------

  /** Forget a transaction: drop it from memory and log that it is over. */
  function Remove(s: State, t: Txn): State {
    s.(mem := s.mem - {t}, channel := s.channel + [Rec(End(t))])
  }

  /** The client is gone; the guards it held, if any, queue the transaction for cleanup. */
  function DropGuards(s: State, t: Txn, guards: seq<Txn>): State {
    s.(drivers := s.drivers - {t}, queue := if t in s.mem then s.queue + guards else s.queue)
  }

  /** None before the first append is acknowledged, a second one in the second phase. */
  function Guards(pc: Pc, t: Txn): (gs: seq<Txn>)
    ensures forall i :: 0 <= i < |gs| ==> gs[i] == t
    ensures gs == [] <==> pc == AwaitBegin || pc == BeginAcked || pc == BeginNacked
  {
    match pc
    case AwaitBegin => []
    case BeginAcked => []
    case BeginNacked => []
    case AwaitCommit => [t, t]
    case _ => [t]
  }

  // Manager::transaction_state and end_two_pc

  function Started(s: State, t: Txn, user: string, database: string): State {
    s.(started := s.started + {t}, mem := s.mem[t := Phase1],
       channel := s.channel + [Rec(Begin(t, user, database))], drivers := s.drivers[t := AwaitBegin])
  }

  function ToldToPrepare(s: State, t: Txn): State {
    s.(prepareSent := s.prepareSent + {t}, drivers := s.drivers[t := AwaitPrepare])
  }

  function NeverBegun(s: State, t: Txn): State {
    s.(mem := s.mem - {t}, drivers := s.drivers - {t})
  }

  function InPhaseTwo(s: State, t: Txn): State {
    s.(mem := s.mem[t := Phase2], channel := s.channel + [Rec(Committing(t))], drivers := s.drivers[t := AwaitCommitting])
  }

  function ToldToCommit(s: State, t: Txn): State {
    s.(commitSent := s.commitSent + {t}, drivers := s.drivers[t := AwaitCommit])
  }

  function BackInPhaseOne(s: State, t: Txn): State {
    DropGuards(s.(mem := s.mem[t := Phase1]), t, [t])
  }

  function Finished(s: State, t: Txn): State {
    Remove(s.(drivers := s.drivers - {t}, reported := s.reported + {t}), t)
  }

  function Abandoned(s: State, t: Txn): State
    requires t in s.drivers
  {
    DropGuards(if Undecidable(s, t) then s.(lost := s.lost + {t}) else s, t, Guards(s.drivers[t], t))
  }

  // Manager::monitor and cleanup_phase

  function Picked(s: State): State
    requires s.queue != []
  {
    var t, s1 := s.queue[0], s.(queue := s.queue[1..]);
    if t !in s.mem then Remove(s1, t)
    else if s.mem[t] == Phase1 then s1.(rollbackSent := s.rollbackSent + {t}, monitor := Busy(t, Rollback))
    else s1.(commitSent := s.commitSent + {t}, monitor := Busy(t, Phase2))
  }

  function CleanedUp(s: State): State
    requires s.monitor.Busy?
  {
    Remove(s.(monitor := Idle), s.monitor.txn)
  }

  function PutBack(s: State): State
    requires s.monitor.Busy?
  {
    s.(monitor := Idle, queue := s.queue + [s.monitor.txn])
  }

  function Dropped(s: State): State
    requires s.queue != []
  {
    Remove(s.(queue := s.queue[1..], dropped := s.dropped + {s.queue[0]}), s.queue[0])
  }

  function Crashed(s: State): State {
    s.(up := false, writing := false, mem := map[], queue := [], drivers := map[], monitor := Idle,
       channel := [], snapshot := map[], gcLsns := {})
  }

  function TornLast(disk: seq<Segment>): seq<Segment>
    requires disk != []
  {
    disk[..|disk| - 1] + [disk[|disk| - 1].(ending := TornTail)]
  }

  /** What a recovery reads that starts from the disk the next recovery leaves. */
  function Reread(disk: seq<Segment>): Table {
    ReplayDisk(After(disk))
  }

  function Differ(d: Table, e: Table): set<Txn> {
    set t | t in d.Keys + e.Keys && !(t in d && t in e && d[t] == e[t])
  }

  /** The disk is replaced by one that may hold less. */
  function Lose(s: State, disk: seq<Segment>): State {
    s.(disk := disk, lost := s.lost + Differ(ReplayDisk(s.disk), ReplayDisk(disk)))
  }

  /** A recovery has read `k` segments, and set the corrupt ones among them aside. */
  function Sifted(disk: seq<Segment>, k: nat): seq<Segment>
    requires k <= |disk|
  {
    Survivors(disk[..k]) + disk[k..]
  }

  function Rotten(x: Segment, rot: Rot): Segment
    requires rot.Cut? ==> rot.keep <= |x.records|
  {
    match rot
    case NoHeader => Segment(x.start, false, [], CleanEnd)
    case Cut(keep, ending) => x.(records := x.records[..keep], ending := ending)
  }

  function Damaged(disk: seq<Segment>, i: nat, rot: Rot): seq<Segment>
    requires i < |disk| && (rot.Cut? ==> rot.keep <= |disk[i].records|)
  {
    disk[i := Rotten(disk[i], rot)]
  }

  /** The last segment's file is there, but its header is not. */
  function HalfLast(disk: seq<Segment>): seq<Segment>
    requires disk != []
  {
    disk[..|disk| - 1] + [disk[|disk| - 1].(header := false)]
  }

  function Without(disk: seq<Segment>, i: nat): seq<Segment>
    requires i < |disk|
  {
    disk[..i] + disk[i + 1..]
  }

  /** Garbage collection at `lsn` deletes this file: a later one starts at or before `lsn`. */
  predicate Deletable(disk: seq<Segment>, i: nat, lsn: nat) {
    exists m :: i < m < |disk| && disk[m].start <= lsn
  }

  /**
   The open segment is given up with part of a refused batch in it. The next one is named by the
   writer's LSN, which counts the batch if it was written and only its fsync failed.
   */
  function GivenUp(s: State, n: nat, rs: seq<Record>, torn: bool, counted: bool, next: NextFile): seq<Segment>
    requires |rs| <= |s.channel| && s.disk != []
  {
    Close(WriteAll(s, rs).disk, torn, EndLsn(s.disk) + (if counted then n else 0), next)
  }

  function Close(disk: seq<Segment>, torn: bool, start: nat, next: NextFile): seq<Segment>
    requires disk != []
  {
    (if torn then TornLast(disk) else disk) + if next.Absent? then [] else [Segment(start, next.Opened?, [], CleanEnd)]
  }

  function Recovering(s: State, order: seq<Txn>): State {
    var w, corruption := ReplayDisk(s.disk), Corrupted(s.disk);
    Lose(s, After(s.disk)).(up := true, writing := true, mem := Restored(w, corruption), queue := order,
       snapshot := RestoredSnapshot(w, corruption),
       dropped := s.dropped + (set t | t in w && !w[t].decided && corruption))
  }

  // ---- steps ------------------------------------------------------------------

  predicate At(s: State, t: Txn, pc: Pc) {
    s.up && t in s.drivers && s.drivers[t] == pc
  }

  /** The client waits for its decision to be logged, or has not seen yet that it was not. */
  predicate Deciding(s: State, t: Txn) {
    t in s.drivers && (s.drivers[t] == AwaitCommitting || s.drivers[t] == CommittingNacked)
  }

  /** It waits for what will never happen. */
  predicate Undecidable(s: State, t: Txn) {
    Deciding(s, t) && !s.writing
  }

  predicate OfClient(step: Step) {
    || step.Start? || step.SendPrepare? || step.BeginRefused? || step.EnterPhaseTwo?
    || step.SendCommit? || step.CommittingRefused? || step.Finish? || step.Abandon?
  }

  predicate OfMonitor(step: Step) {
    step.MonitorPick? || step.MonitorDone? || step.MonitorRetry? || step.MonitorNoDatabase? || step.RequestCheckpoint?
  }

  predicate OfCoordinator(step: Step) {
    OfClient(step) || OfMonitor(step)
  }

  predicate OfShard(step: Step) {
    step.ShardPrepare? || step.ShardAbort? || step.ShardCommit? || step.ShardRollback?
  }

  predicate MayCoordinate(s: State, step: Step)
    requires OfCoordinator(step)
  {
    match step
    case Start(t, _, _) => s.up && t !in s.started
    case SendPrepare(t) => At(s, t, BeginAcked)
    case BeginRefused(t) => At(s, t, BeginNacked)
    case EnterPhaseTwo(t) => At(s, t, AwaitPrepare) && AllOk(s.shards, t, s.prepareOk)
    case SendCommit(t) => At(s, t, CommittingAcked)
    case CommittingRefused(t) => At(s, t, CommittingNacked)
    case Finish(t) => At(s, t, AwaitCommit) && AllOk(s.shards, t, s.commitOk)
    case Abandon(t) => s.up && t in s.drivers
    case MonitorPick => s.up && s.monitor == Idle && s.queue != []
    case MonitorDone =>
      && s.up && s.monitor.Busy?
      && AllOk(s.shards, s.monitor.txn, if s.monitor.phase == Phase2 then s.commitOk else s.rollbackOk)
    case MonitorRetry => s.up && s.monitor.Busy?
    case MonitorNoDatabase => s.up && s.monitor == Idle && s.queue != [] && s.queue[0] in s.mem
    case RequestCheckpoint => s.up
  }

  predicate ShardMay(s: State, step: Step)
    requires OfShard(step)
  {
    match step
    case ShardPrepare(t, i) => i < s.shards && t in s.prepareSent && PartOf(s, t, i) == Open
    case ShardAbort(t, i) => i < s.shards && PartOf(s, t, i) == Open
    case ShardCommit(t, i) => i < s.shards && t in s.commitSent
    case ShardRollback(t, i) => i < s.shards && t in s.rollbackSent
  }

  predicate LogMay(s: State, step: Step)
    requires !OfCoordinator(step) && !OfShard(step)
  {
    match step
    case WriteBatch(rs) => CanWrite(s, rs)
    case RefuseBatch(n) => s.up && n <= |s.channel|
    case BreakBatch(n, rs, torn, counted, next) =>
      && CanWrite(s, rs) && 0 < n <= |s.channel| && |rs| <= n && (torn ==> |rs| < n)
      && (next.Absent? || counted || s.disk[|s.disk| - 1].records != [])
      && !NameTaken(GivenUp(s, n, rs, torn, counted, next))
    case Rotate => s.up && s.writing && s.disk != [] && s.disk[|s.disk| - 1].records != []
    case DeleteSegment(i, lsn) => s.up && lsn in s.gcLsns && Deletable(s.disk, i, lsn)
    // written segments are only read again by a recovery, so damage can be taken to happen before one
    case BitRot(i, rot) =>
      && !s.up && i < |s.disk| && (rot.Cut? ==> s.disk[i].header && rot.keep <= |s.disk[i].records|)
      && !NameTaken(Damaged(s.disk, i, rot))
    case Crash(rs, torn) => s.up && s.disk != [] && ((rs == [] && !torn) || (CanWrite(s, rs) && (torn ==> |rs| < |s.channel|)))
    // creating a segment takes until its first record is written
    case CrashInCreation =>
      && s.up && s.writing && s.disk != [] && s.disk[|s.disk| - 1].records == []
      && !NameTaken(HalfLast(s.disk))
    case CrashInRecovery(k) =>
      && !s.up && s.disk != [] && k <= |s.disk| && (k == |s.disk| ==> !Writable(s.disk[k - 1]))
      && !NameTaken(Sifted(s.disk, k))
    case Recover(order) =>
      && !s.up && !NameTaken(s.disk)
      && (set t | t in order) == Restored(ReplayDisk(s.disk), Corrupted(s.disk)).Keys
  }

  predicate Enabled(s: State, step: Step) {
    if OfCoordinator(step) then MayCoordinate(s, step) else if OfShard(step) then ShardMay(s, step) else LogMay(s, step)
  }

  /** No file and no shard is touched, and the writer is asked for at most one more record, never a checkpoint's. */
  predicate HandsOff(s: State, s': State) {
    && s.up && s'.up && s'.disk == s.disk && s'.writing == s.writing && s'.gcLsns == s.gcLsns
    && s'.shards == s.shards && s'.parts == s.parts && s.reported <= s'.reported
    && s.channel <= s'.channel && |s'.channel| <= |s.channel| + 1
    && (|s'.channel| > |s.channel| ==> Appendable(s'.channel[|s.channel|]))
  }

  function ByClient(s: State, step: Step): (s': State)
    requires OfClient(step) && MayCoordinate(s, step)
    ensures HandsOff(s, s') && (step.Abandon? || s'.lost == s.lost)
  {
    match step
    case Start(t, u, d) => Started(s, t, u, d)
    case SendPrepare(t) => ToldToPrepare(s, t)
    case BeginRefused(t) => NeverBegun(s, t)
    case EnterPhaseTwo(t) => InPhaseTwo(s, t)
    case SendCommit(t) => ToldToCommit(s, t)
    case CommittingRefused(t) => BackInPhaseOne(s, t)
    case Finish(t) => Finished(s, t)
    case Abandon(t) => Abandoned(s, t)
  }

  function ByMonitor(s: State, step: Step): (s': State)
    requires OfMonitor(step) && MayCoordinate(s, step)
    ensures HandsOff(s, s') && s'.lost == s.lost
  {
    match step
    case MonitorPick => Picked(s)
    case MonitorDone => CleanedUp(s)
    case MonitorRetry => PutBack(s)
    case MonitorNoDatabase => Dropped(s)
    case RequestCheckpoint => s.(channel := s.channel + [TakeCheckpoint])
  }

  function Coordinated(s: State, step: Step): (s': State)
    requires OfCoordinator(step) && MayCoordinate(s, step)
    ensures HandsOff(s, s') && (step.Abandon? || s'.lost == s.lost)
  {
    if OfClient(step) then ByClient(s, step) else ByMonitor(s, step)
  }

  /**
   PREPARE TRANSACTION, COMMIT PREPARED or ROLLBACK PREPARED at one shard; the latter two count a
   transaction the shard does not hold prepared as done.
   */
  function AtShard(s: State, step: Step): (s': State)
    requires OfShard(step) && ShardMay(s, step)
    ensures s' == s.(parts := s'.parts, prepareOk := s'.prepareOk, commitOk := s'.commitOk,
                     rollbackOk := s'.rollbackOk, overtaken := s'.overtaken)
  {
    match step
    case ShardPrepare(t, i) => s.(parts := s.parts[(t, i) := Prepared], prepareOk := s.prepareOk + {(t, i)})
    case ShardAbort(t, i) => s.(parts := s.parts[(t, i) := RolledBack])
    case ShardCommit(t, i) =>
      s.(parts := if PartOf(s, t, i) == Prepared then s.parts[(t, i) := Committed] else s.parts,
         commitOk := s.commitOk + {(t, i)})
    case ShardRollback(t, i) =>
      s.(parts := if PartOf(s, t, i) == Prepared then s.parts[(t, i) := RolledBack] else s.parts,
         rollbackOk := s.rollbackOk + {(t, i)},
         overtaken := if PartOf(s, t, i) == Open then s.overtaken + {(t, i)} else s.overtaken)
  }

  /** A step of the log writer, of the files, or of the process as a whole. */
  function Logging(s: State, step: Step): State
    requires !OfCoordinator(step) && !OfShard(step) && LogMay(s, step)
  {
    match step
    case WriteBatch(rs) => WriteAll(s, rs)
    case RefuseBatch(n) => RefuseAll(s, n)
    case BreakBatch(n, rs, torn, counted, next) =>
      RefuseAll(s, n).(disk := GivenUp(s, n, rs, torn, counted, next), writing := next.Opened?)
    case Rotate => s.(disk := s.disk + [Segment(EndLsn(s.disk), true, [], CleanEnd)])
    case DeleteSegment(i, _) => s.(disk := Without(s.disk, i))
    case BitRot(i, rot) => Lose(s, Damaged(s.disk, i, rot))
    case Crash(rs, torn) =>
      var s1 := Crashed(WriteAll(s, rs));
      if torn then s1.(disk := TornLast(s1.disk)) else s1
    case CrashInCreation => Crashed(s.(disk := HalfLast(s.disk)))
    case CrashInRecovery(k) => Lose(s, Sifted(s.disk, k))
    case Recover(order) => Recovering(s, order)
  }

  function Do(s: State, step: Step): State
    requires Enabled(s, step)
  {
    if OfCoordinator(step) then Coordinated(s, step) else if OfShard(step) then AtShard(s, step) else Logging(s, step)
  }

  /** A run of the system from its initial state. */
  predicate Run(ss: seq<State>, steps: seq<Step>) {
    && |ss| == |steps| + 1 && Init(ss[0])
    && forall i :: 0 <= i < |steps| ==> Enabled(ss[i], steps[i]) && ss[i + 1] == Do(ss[i], steps[i])
  }

  /** Some shard has not committed, some may have, and the recovery after the next one would roll back. */
  predicate InvertedBy(s: State, d: Table, e: Table, t: Txn) {
    && Undecided(e, t) && !CommittedEverywhere(s, t)
    && (t in s.commitSent || Decided(d, t) || (t in s.mem && s.mem[t] == Phase2 && t !in s.drivers))
  }

  ghost predicate InvertsSome(s: State) {
    exists t :: InvertedBy(s, ReplayDisk(s.disk), Reread(s.disk), t)
  }

  /**
   The events the protocol does not survive. A client is interrupted after the manager's memory says
   "commit" and before the log does, while the log may still say otherwise. A commit record lands in
   the log although its append is reported as failed, because the rewind failed too. Or files are
   damaged, given up or deleted such that a decision the log had made is gone for some recovery,
   noticed or not, while what began the transaction is still there.
   */
  ghost predicate Hazard(s: State, step: Step)
    requires Enabled(s, step)
  {
    match step
    case Abandon(t) => Deciding(s, t) && (s.writing || Undecided(Reread(s.disk), t))
    case BreakBatch(_, rs, _, _, _) => (exists i :: 0 <= i < |rs| && rs[i].Committing?) || InvertsSome(Do(s, step))
    case DeleteSegment(_, _) => InvertsSome(Do(s, step))
    case BitRot(_, _) => InvertsSome(Do(s, step))
    case CrashInRecovery(_) => InvertsSome(Do(s, step))
    case _ => false
  }

  ghost predicate SafeRun(ss: seq<State>, steps: seq<Step>) {
    Run(ss, steps) && forall i :: 0 <= i < |steps| ==> !Hazard(ss[i], steps[i])
  }

  // ---- what the protocol promises ----------------------------------------------

  /** No transaction is committed on one shard and rolled back on another. */
  ghost predicate Atomic(s: State) {
    forall t: Txn, i: nat, j: nat ::
      i < s.shards && j < s.shards && PartOf(s, t, i) == Committed ==> PartOf(s, t, j) != RolledBack
  }

  predicate CommittedEverywhere(s: State, t: Txn) {
    forall i: nat :: i < s.shards ==> PartOf(s, t, i) == Committed
  }

  /** A shard that has nothing left to do for the transaction. */
  predicate Settled(s: State, t: Txn, i: nat) {
    PartOf(s, t, i) == Committed || PartOf(s, t, i) == RolledBack || (t, i) in s.overtaken
  }

  predicate Resolved(s: State, t: Txn) {
    t in s.dropped || forall i: nat :: i < s.shards ==> Settled(s, t, i)
  }
}
