/**
 The two-phase commit log as a whole: the writer's snapshot and group commit, checkpoints and
 garbage collection, and replay after a crash.
 */
module WalLog {
  import opened Common
  import opened Bytes
  import opened WalRecord

  datatype Entry = Entry(user: string, database: string, decided: bool)

  /** The in-flight transactions, as replay rebuilds them and as the writer's snapshot holds them. */
  type Table = map<Txn, Entry>

  predicate Decided(w: Table, t: Txn) {
    t in w && w[t].decided
  }

  predicate Undecided(w: Table, t: Txn) {
    t in w && !w[t].decided
  }

  // ---- replay ------------------------------------------------------------

  function FromEntries(es: seq<CheckpointEntry>): Table {
    if es == [] then map[]
    else
      var e := es[|es| - 1];
      FromEntries(es[..|es| - 1])[e.txn := Entry(e.user, e.database, e.decided)]
  }

  function Apply(w: Table, r: Record): Table {
    match r
    case Begin(t, u, d) => w[t := Entry(u, d, false)]
    case Committing(t) => if t in w then w[t := w[t].(decided := true)] else w
    case End(t) => w - {t}
    case Checkpoint(es) => FromEntries(es)
  }

  function Replay(w: Table, rs: seq<Record>): Table {
    if rs == [] then w else Apply(Replay(w, rs[..|rs| - 1]), rs[|rs| - 1])
  }

  lemma {:induction false} ReplayAppend(w: Table, rs: seq<Record>, ss: seq<Record>)
    ensures Replay(w, rs + ss) == Replay(Replay(w, rs), ss)
  {
    if ss == [] {
      assert rs + ss == rs;
    } else {
      ReplayAppend(w, rs, ss[..|ss| - 1]);
      assert (rs + ss)[..|rs + ss| - 1] == rs + ss[..|ss| - 1];
    }
  }

  /** A checkpoint makes everything before it irrelevant to replay. */
  lemma {:induction false} CheckpointForgetsPast(w: Table, v: Table, rs: seq<Record>, i: nat)
    requires i < |rs| && rs[i].Checkpoint?
    ensures Replay(w, rs) == Replay(v, rs)
  {
    if i < |rs| - 1 {
      CheckpointForgetsPast(w, v, rs[..|rs| - 1], i);
    }
  }

  /** Replay of one record into the working table, as recovery does it. */
  method ApplyInPlace(working: Table, record: Record) returns (w: Table)
    ensures w == Apply(working, record)
  {
    w := working;
    match record {
      case Begin(t, u, d) => w := w[t := Entry(u, d, false)];
      case Committing(t) => if t in w { w := w[t := w[t].(decided := true)]; }
      case End(t) => w := w - {t};
      case Checkpoint(es) =>
        w := map[];
        for i := 0 to |es|
          invariant w == FromEntries(es[..i])
        {
          w := w[es[i].txn := Entry(es[i].user, es[i].database, es[i].decided)];
          assert es[..i + 1][..i] == es[..i];
        }
        assert es[..|es|] == es;
    }
  }

  // ---- the writer's snapshot and its undo log ------------------------------

  /** What a caller asks the writer to append. */
  datatype Append = Rec(record: Record) | TakeCheckpoint

  datatype Undo = Undo(txn: Txn, prior: Option<Entry>)

  function UndoOne(w: Table, u: Undo): Table {
    match u.prior
    case Some(e) => w[u.txn := e]
    case None => w - {u.txn}
  }

  /** Undo entries are reverted newest first. */
  function UndoAll(w: Table, us: seq<Undo>): Table
    decreases |us|
  {
    if us == [] then w else UndoAll(UndoOne(w, us[|us| - 1]), us[..|us| - 1])
  }

  method ReplayUndo(snapshot: Table, us: seq<Undo>) returns (w: Table)
    ensures w == UndoAll(snapshot, us)
  {
    w := snapshot;
    var i := |us|;
    assert us[..i] == us;
    while i > 0
      invariant 0 <= i <= |us|
      invariant UndoAll(w, us[..i]) == UndoAll(snapshot, us)
    {
      assert us[..i][..i - 1] == us[..i - 1];
      w := UndoOne(w, us[i - 1]);
      i := i - 1;
    }
  }

  /** A record a caller may hand over directly; checkpoints are only ever made by the writer. */
  predicate Appendable(a: Append) {
    a.Rec? ==> !a.record.Checkpoint?
  }

  /** Apply a record to the snapshot, remembering how to revert it. */
  method ApplyToSnapshot(snapshot: Table, record: Record, undo: seq<Undo>) returns (w: Table, us: seq<Undo>)
    ensures !record.Checkpoint? ==> w == Apply(snapshot, record)
    ensures record.Checkpoint? ==> w == snapshot
    ensures UndoAll(w, us) == UndoAll(snapshot, undo)
  {
    w, us := snapshot, undo;
    match record {
      case Begin(t, u, d) =>
        us := us + [Undo(t, if t in w then Some(w[t]) else None)];
        w := w[t := Entry(u, d, false)];
      case Committing(t) =>
        if t in w {
          us := us + [Undo(t, Some(w[t]))];
          w := w[t := w[t].(decided := true)];
        }
      case End(t) =>
        if t in w {
          us := us + [Undo(t, Some(w[t]))];
          w := w - {t};
        }
      case Checkpoint(_) =>
    }
    if us != undo {
      assert us[..|us| - 1] == undo;
      assert UndoOne(w, us[|us| - 1]) == snapshot;
    }
  }

  /** `r` is what the writer logs for `a` when its snapshot is `w`. */
  predicate Materializes(w: Table, a: Append, r: Record) {
    match a
    case Rec(rec) => r == rec
    case TakeCheckpoint => r.Checkpoint? && FromEntries(r.active) == w
  }

  /** `rs` is what the writer logs for the whole batch, starting from snapshot `w`. */
  predicate MaterializesAll(w: Table, batch: seq<Append>, rs: seq<Record>) {
    && |rs| == |batch|
    && forall i :: 0 <= i < |batch| ==> Materializes(Replay(w, rs[..i]), batch[i], rs[i])
  }

  /** The position of the batch's last checkpoint request. */
  function LastCheckpoint(batch: seq<Append>): Option<nat> {
    if batch == [] then None
    else if batch[|batch| - 1].TakeCheckpoint? then Some(|batch| - 1)
    else LastCheckpoint(batch[..|batch| - 1])
  }

  /** List a table's rows in the arbitrary order a hash map yields them. */
  method ListEntries(w: Table) returns (es: seq<CheckpointEntry>)
    ensures FromEntries(es) == w
  {
    es := [];
    assert FromEntries(es) == map[];
    hide FromEntries;
    var todo := w.Keys;
    while todo != {}
      invariant todo <= w.Keys
      invariant FromEntries(es) == map t | t in w.Keys - todo :: w[t]
      decreases |todo|
    {
      var t :| t in todo;
      var e := CheckpointEntry(t, w[t].user, w[t].database, w[t].decided);
      FromEntriesSnoc(es, e);
      es, todo := es + [e], todo - {t};
    }
  }

  lemma FromEntriesSnoc(es: seq<CheckpointEntry>, e: CheckpointEntry)
    ensures FromEntries(es + [e]) == FromEntries(es)[e.txn := Entry(e.user, e.database, e.decided)]
  {
    assert (es + [e])[..|es|] == es;
  }

  // ---- group commit --------------------------------------------------------

  /** What the operating system does with one batch. */
  datatype Os = Os(
    writes: bool,   // the write succeeds
    landed: nat,    // bytes of the batch in the file after a failed write
    syncs: bool,    // the fsync succeeds
    rewinds: bool,  // cutting the file back and making the cut durable succeeds
    left: nat)      // bytes of the batch in the file after a failed rewind

  datatype WriteError = EncodeFailed | IoFailed | SegmentBroken

  /** One request's answer: the LSN of its record, or the batch's error. */
  type Ack = Result<nat, WriteError>

  /** The serializer reads back whatever it wrote. */
  ghost predicate ReadsBack(c: Serde) {
    forall r :: c.de(Tag(r), c.ser(r)) == Some(r)
  }

  class Writer {
    const c: Serde
    /** The open segment's bytes behind its header, as whoever reads the file next finds them. */
    var file: seq<byte>
    var size: nat
    var nextLsn: nat
    var snapshot: Table
    /** The records acknowledged from the open segment. */
    ghost var records: seq<Record>

    ghost predicate Valid()
      reads this
    {
      AllStorable(c, records) && file == EncodeAll(c, records) && size == |file|
    }

    /** Reading the open segment gives `rs`, and then its end or a torn tail. */
    predicate Shows(rs: seq<Record>, torn: bool)
      reads this`file
    {
      ScanStream(c, file) == Scan(rs, if torn then TornTail else CleanEnd, ScanStream(c, file).good)
    }

    /** Take over the segment recovery left, or an empty one. */
    constructor (c: Serde, rs: seq<Record>, nextLsn: nat, snapshot: Table)
      requires AllStorable(c, rs)
      ensures Valid() && records == rs && this.c == c && this.nextLsn == nextLsn && this.snapshot == snapshot
    {
      this.c, this.nextLsn, this.snapshot := c, nextLsn, snapshot;
      this.file, this.size, this.records := EncodeAll(c, rs), |EncodeAll(c, rs)|, rs;
    }

    /** Cut the file back to where it was; a failure leaves the segment in an unknown state. */
    method RewindTo(size: nat, lsn: nat, os: Os) returns (ok: bool)
      requires size <= |file|
      modifies this`file, this`size, this`nextLsn
      ensures ok == os.rewinds
      ensures ok ==> file == old(file[..size]) && this.size == size && nextLsn == lsn
      ensures !ok ==> size <= |file| && file <= old(file) && this.size == old(this.size) && nextLsn == old(nextLsn)
    {
      if !os.rewinds {
        file := file[..size + Min(os.left, |file| - size)];
        return false;
      }
      file, this.size, nextLsn := file[..size], size, lsn;
      return true;
    }

    /**
     Append an encoded batch and fsync. An error other than a broken segment means the file is what
     it was; after a broken segment the file reads as the acknowledged records and some prefix of
     the refused batch, never as corrupt.
     */
    method Commit(encoded: seq<byte>, count: nat, os: Os, ghost rs: seq<Record>) returns (r: Result<nat, WriteError>)
      requires Valid() && AllStorable(c, rs) && encoded == EncodeAll(c, rs) && count == |rs|
      modifies this`file, this`size, this`nextLsn, this`records
      ensures r == if os.writes && os.syncs then Ok(old(nextLsn)) else if os.rewinds then Err(IoFailed) else Err(SegmentBroken)
      ensures r.Ok? ==> Valid() && records == old(records) + rs && nextLsn == old(nextLsn) + count && Shows(records, false)
      ensures r.Err? ==> records == old(records)
      ensures r == Err(IoFailed) ==> Valid() && nextLsn == old(nextLsn) && Shows(records, false)
      ensures r == Err(SegmentBroken) ==>
                && nextLsn == old(nextLsn) + (if os.writes then count else 0)
                && exists m: nat, torn: bool :: m <= |rs| && (torn ==> m < |rs|) && Shows(records + rs[..m], torn)
    {
      var size0, lsn0 := size, nextLsn;
      ghost var before := file;
      ghost var k: nat;
      ShowsRecords();
      if !os.writes {
        file := file + encoded[..Min(os.landed, |encoded|)];
        var ok := RewindTo(size0, lsn0, os);
        if !ok {
          k := |file| - size0;
          assert file == before + encoded[..k];
          ShowsCut(rs, k);
          return Err(SegmentBroken);
        }
        assert file == before;
        return Err(IoFailed);
      }
      file, size, nextLsn := file + encoded, size + |encoded|, nextLsn + count;
      if !os.syncs {
        var ok := RewindTo(size0, lsn0, os);
        if !ok {
          k := |file| - size0;
          assert file == before + encoded[..k];
          ShowsCut(rs, k);
          return Err(SegmentBroken);
        }
        assert file == before;
        return Err(IoFailed);
      }
      EncodeAllAppend(c, records, rs);
      records := records + rs;
      ShowsRecords();
      return Ok(lsn0);
    }

    lemma ShowsRecords()
      requires Valid()
      ensures Shows(records, false)
    {
      var none: seq<Record> := [];
      ScanCutBatch(c, records, none, 0);
      assert file + EncodeAll(c, none)[..0] == file && records + none[..0] == records;
    }

    lemma ShowsCut(rs: seq<Record>, k: nat)
      requires AllStorable(c, records) && AllStorable(c, rs) && k <= |EncodeAll(c, rs)|
      requires file == EncodeAll(c, records) + EncodeAll(c, rs)[..k]
      ensures exists m: nat, torn: bool :: m <= |rs| && (torn ==> m < |rs|) && Shows(records + rs[..m], torn)
    {
      ScanCutBatch(c, records, rs, k);
      var m := Whole(c, rs, k);
      assert Shows(records + rs[..m], |EncodeAll(c, rs[..m])| < k);
    }

    /** Turn one request into the record to log and move the snapshot over it. */
    method StageOne(a: Append, undo: seq<Undo>) returns (record: Record, us: seq<Undo>)
      requires Appendable(a)
      modifies this`snapshot
      ensures Materializes(old(snapshot), a, record) && snapshot == Apply(old(snapshot), record)
      ensures UndoAll(snapshot, us) == UndoAll(old(snapshot), undo)
    {
      match a {
        case Rec(r) =>
          snapshot, us := ApplyToSnapshot(snapshot, r, undo);
          record := r;
        case TakeCheckpoint =>
          var es := ListEntries(snapshot);
          record, us := Checkpoint(es), undo;
      }
    }

    /** Encode the batch request by request, stopping at the first record that cannot be encoded. */
    method Stage(batch: seq<Append>)
      returns (complete: bool, encoded: seq<byte>, undo: seq<Undo>, checkpoint: Option<nat>, ghost rs: seq<Record>)
      requires ReadsBack(c)
      requires forall i :: 0 <= i < |batch| ==> Appendable(batch[i])
      modifies this`snapshot
      ensures |rs| <= |batch| && MaterializesAll(old(snapshot), batch[..|rs|], rs)
      ensures complete <==> |rs| == |batch|
      ensures AllStorable(c, rs) && encoded == EncodeAll(c, rs)
      ensures UndoAll(snapshot, undo) == old(snapshot)
      ensures |rs| == |batch| ==> snapshot == Replay(old(snapshot), rs)
      ensures |rs| == |batch| ==> checkpoint == LastCheckpoint(batch)
      ensures checkpoint.Some? && |rs| == |batch| ==> checkpoint.value < |rs| && rs[checkpoint.value].Checkpoint?
    {
      hide Replay, EncodeRecord;
      complete, encoded, undo, checkpoint, rs := false, [], [], None, [];
      ReplayNone();
      for i := 0 to |batch|
        invariant |rs| == i && MaterializesAll(old(snapshot), batch[..i], rs)
        invariant AllStorable(c, rs) && encoded == EncodeAll(c, rs)
        invariant snapshot == Replay(old(snapshot), rs)
        invariant UndoAll(snapshot, undo) == old(snapshot)
        invariant checkpoint == LastCheckpoint(batch[..i])
        invariant checkpoint.Some? ==> checkpoint.value < i && rs[checkpoint.value].Checkpoint?
      {
        var record;
        record, undo := StageOne(batch[i], undo);
        var frame := EncodeRecord(c, record);
        if frame.Err? {
          return;
        }
        if batch[i].TakeCheckpoint? {
          checkpoint := Some(i);
        }
        ExtendBatch(old(snapshot), batch[..i], rs, batch[i], record);
        EncodeAllSnoc(c, rs, record);
        ReplaySnoc(old(snapshot), rs, record);
        assert batch[..i + 1] == batch[..i] + [batch[i]];
        assert batch[..i + 1][..i] == batch[..i];
        encoded := encoded + frame.value;
        rs := rs + [record];
      }
      complete := true;
      assert batch[..|batch|] == batch;
    }

    /**
     One group commit. Either every request is durable, in order, under consecutive LSNs and the
     snapshot has moved with them, or every request is refused and the snapshot is what it was.
     */
    method ProcessBatch(batch: seq<Append>, os: Os)
      returns (acks: seq<Ack>, checkpoint: Option<nat>, ghost rs: seq<Record>)
      requires Valid() && ReadsBack(c)
      requires forall i :: 0 <= i < |batch| ==> Appendable(batch[i])
      modifies this
      ensures |acks| == |batch| && |rs| <= |batch|
      ensures MaterializesAll(old(snapshot), batch[..|rs|], rs)
      ensures |rs| == |batch| && os.writes && os.syncs ==>
                && Valid() && records == old(records) + rs && nextLsn == old(nextLsn) + |batch|
                && snapshot == Replay(old(snapshot), rs)
                && (forall i :: 0 <= i < |acks| ==> acks[i] == Ok(old(nextLsn) + i))
                && checkpoint == match LastCheckpoint(batch) case Some(i) => Some(old(nextLsn) + i) case None => None
      ensures batch != [] ==>
                (acks[0] == Err(SegmentBroken) <==> |rs| == |batch| && !os.rewinds && !(os.writes && os.syncs))
      ensures |rs| < |batch| || !(os.writes && os.syncs) ==>
                && snapshot == old(snapshot) && records == old(records)
                && (forall i :: 0 <= i < |acks| ==> acks[i].Err?) && checkpoint == None
      ensures |rs| < |batch| || os.rewinds || (os.writes && os.syncs) ==> Valid() && Shows(records, false)
      ensures |rs| < |batch| || (os.rewinds && !(os.writes && os.syncs)) ==> nextLsn == old(nextLsn)
      ensures |rs| == |batch| && !os.rewinds && !(os.writes && os.syncs) ==>
                nextLsn == old(nextLsn) + if os.writes then |batch| else 0
      ensures exists m: nat, torn: bool :: m <= |rs| && (torn ==> m < |rs|) && Shows(old(records) + rs[..m], torn)
      ensures checkpoint.Some? ==>
                && old(nextLsn) <= checkpoint.value < old(nextLsn) + |rs|
                && rs[checkpoint.value - old(nextLsn)].Checkpoint?
    {
      hide Replay, ScanStream, UndoAll, LastCheckpoint, MaterializesAll, EncodeAll, ReadsBack, Shows;
      var complete, encoded, undo, lastCheckpoint;
      ShowsRecords();
      complete, encoded, undo, lastCheckpoint, rs := Stage(batch);
      assert records + rs[..0] == records && rs[..|rs|] == rs && Shows(records + rs[..0], false);
      if !complete {
        snapshot := ReplayUndo(snapshot, undo);
        acks := seq(|batch|, _ => Err(EncodeFailed));
        return acks, None, rs;
      }
      var r := Commit(encoded, |batch|, os, rs);
      ghost var m: nat, torn: bool := if r.Ok? then |rs| else 0, false;
      if r == Err(SegmentBroken) {
        m, torn :| m <= |rs| && (torn ==> m < |rs|) && Shows(records + rs[..m], torn);
      }
      assert Shows(old(records) + rs[..m], torn);
      match r {
        case Ok(start) =>
          acks := seq(|batch|, j requires 0 <= j < |batch| => Ok(start + j));
          checkpoint := match lastCheckpoint case Some(j) => Some(start + j) case None => None;
        case Err(e) =>
          snapshot := ReplayUndo(snapshot, undo);
          acks := seq(|batch|, _ => Err(e));
          checkpoint := None;
      }
      assert Shows(old(records) + rs[..m], torn);
    }

    /**
     One turn of the writer: a group commit and, if that broke the segment, the creation of the next
     one under the current LSN. A writer that cannot go on stops, and whoever asked has been refused.
     */
    method Serve(batch: seq<Append>, os: Os, creates: bool)
      returns (alive: bool, acks: seq<Ack>, checkpoint: Option<nat>, ghost rs: seq<Record>)
      requires Valid() && ReadsBack(c) && batch != []
      requires forall i :: 0 <= i < |batch| ==> Appendable(batch[i])
      modifies this
      ensures |acks| == |batch| && |rs| <= |batch| && MaterializesAll(old(snapshot), batch[..|rs|], rs)
      ensures var broken := |rs| == |batch| && !os.rewinds && !(os.writes && os.syncs);
              && (alive <==> !broken || creates)
              && (alive ==> Valid())
              && (broken && creates ==> records == [] && nextLsn == old(nextLsn) + if os.writes then |batch| else 0)
      ensures if |rs| == |batch| && os.writes && os.syncs
              then snapshot == Replay(old(snapshot), rs) && forall i :: 0 <= i < |acks| ==> acks[i] == Ok(old(nextLsn) + i)
              else snapshot == old(snapshot) && forall i :: 0 <= i < |acks| ==> acks[i].Err?
    {
      hide Replay, ScanStream, MaterializesAll, EncodeAll, ReadsBack, Shows, LastCheckpoint;
      acks, checkpoint, rs := ProcessBatch(batch, os);
      alive := true;
      if acks[0] == Err(SegmentBroken) {
        if !creates {
          return false, acks, checkpoint, rs;
        }
        file, size, records := [], 0, [];
        EncodeNothing();
      }
    }

    lemma EncodeNothing()
      ensures EncodeAll(c, []) == []
    {
    }
  }

  lemma ReplayNone()
    ensures forall w :: Replay(w, []) == w
  {
  }

  lemma ReplaySnoc(w: Table, rs: seq<Record>, r: Record)
    ensures Replay(w, rs + [r]) == Apply(Replay(w, rs), r)
  {
    assert (rs + [r])[..|rs|] == rs;
  }

  lemma EncodeAllSnoc(c: Serde, rs: seq<Record>, r: Record)
    requires ReadsBack(c) && AllStorable(c, rs) && EncodeRecord(c, r).Ok?
    ensures AllStorable(c, rs + [r]) && EncodeAll(c, rs + [r]) == EncodeAll(c, rs) + EncodeRecord(c, r).value
  {
    hide EncodeRecord;
    assert Storable(c, r);
    EncodeAllAppend(c, rs, [r]);
    assert [r][1..] == [] && EncodeAll(c, []) == [];
    assert EncodeAll(c, [r]) == Encoded(c, r) + [] == Encoded(c, r);
  }

  lemma ExtendBatch(w: Table, batch: seq<Append>, rs: seq<Record>, a: Append, r: Record)
    requires MaterializesAll(w, batch, rs) && Materializes(Replay(w, rs), a, r)
    ensures MaterializesAll(w, batch + [a], rs + [r])
  {
    var bs, qs := batch + [a], rs + [r];
    forall i | 0 <= i < |bs|
      ensures Materializes(Replay(w, qs[..i]), bs[i], qs[i])
    {
      assert qs[..i] == if i == |rs| then rs else rs[..i];
    }
  }

  /** Logging a batch moves replay exactly as it moves the snapshot, and a checkpoint moves neither. */
  lemma {:induction false} BatchMirrorsLog(w: Table, batch: seq<Append>, rs: seq<Record>, log: seq<Record>)
    requires MaterializesAll(w, batch, rs) && Replay(map[], log) == w
    ensures Replay(map[], log + rs) == Replay(w, rs)
    ensures forall i :: 0 <= i < |batch| && batch[i].TakeCheckpoint? ==> Replay(w, rs[..i + 1]) == Replay(w, rs[..i])
  {
    ReplayAppend(map[], log, rs);
    forall i | 0 <= i < |batch| && batch[i].TakeCheckpoint?
      ensures Replay(w, rs[..i + 1]) == Replay(w, rs[..i])
    {
      assert rs[..i + 1][..i] == rs[..i];
    }
  }

  // ---- segments on disk ----------------------------------------------------

  /** A segment file as its reader sees it. */
  datatype Segment = Segment(start: nat, header: bool, records: seq<Record>, ending: Ending)

  function Flatten(disk: seq<Segment>): seq<Record> {
    if disk == [] then [] else Flatten(disk[..|disk| - 1]) + disk[|disk| - 1].records
  }

  function ReplayDisk(disk: seq<Segment>): Table {
    Replay(map[], Flatten(disk))
  }

  /** LSNs run on from each segment to the next. */
  predicate Contiguous(disk: seq<Segment>) {
    forall i :: 0 < i < |disk| ==> disk[i].start == disk[i - 1].start + |disk[i - 1].records|
  }

  /** Segment files are named by their first LSN, so no two share it, and are listed in its order. */
  predicate Increasing(disk: seq<Segment>) {
    forall i, j :: 0 <= i < j < |disk| ==> disk[i].start < disk[j].start
  }

  predicate HasCheckpoint(s: Segment) {
    exists i :: 0 <= i < |s.records| && s.records[i].Checkpoint?
  }

  /** The record with LSN `lsn` is on disk in segment `i` and is a checkpoint. */
  predicate CheckpointAt(disk: seq<Segment>, i: nat, lsn: nat) {
    && i < |disk| && disk[i].start <= lsn < disk[i].start + |disk[i].records|
    && disk[i].records[lsn - disk[i].start].Checkpoint?
  }

  /** The segments garbage collection keeps: from the last one that starts at or before `lsn`. */
  function Kept(disk: seq<Segment>, lsn: nat): (k: nat)
    ensures k <= |disk|
  {
    if disk == [] || disk[0].start > lsn then 0
    else if |disk| > 1 && disk[1].start <= lsn then 1 + Kept(disk[1..], lsn)
    else 0
  }

  /** The files a deletion pass leaves behind because deleting them fails. */
  function Stuck(disk: seq<Segment>, fails: Segment -> bool): seq<Segment> {
    if disk == [] then []
    else Stuck(disk[..|disk| - 1], fails) + if fails(disk[|disk| - 1]) then [disk[|disk| - 1]] else []
  }

  /** The last segment that starts at or before `lsn`. */
  method LastKept(disk: seq<Segment>, lsn: nat) returns (keep: Option<nat>)
    ensures keep == None ==> Kept(disk, lsn) == 0
    ensures keep.Some? ==> keep.value == Kept(disk, lsn) < |disk|
  {
    keep := None;
    var i := 0;
    while i < |disk| && disk[i].start <= lsn
      invariant 0 <= i <= |disk|
      invariant keep == if i == 0 then None else Some(i - 1)
      invariant i == 0 || disk[i - 1].start <= lsn
      invariant Kept(disk, lsn) == (if i == 0 then 0 else i - 1) + Kept(disk[if i == 0 then 0 else i - 1..], lsn)
    {
      if i > 0 {
        assert disk[i - 1..][1..] == disk[i..];
      }
      keep := Some(i);
      i := i + 1;
    }
  }

  /** Delete every segment that lies wholly before `lsn`; a file that cannot be deleted is passed over. */
  method GcBeforeLsn(disk: seq<Segment>, lsn: nat, fails: Segment -> bool) returns (left: seq<Segment>)
    ensures left == Stuck(disk[..Kept(disk, lsn)], fails) + disk[Kept(disk, lsn)..]
  {
    hide Kept;
    var lastKept := LastKept(disk, lsn);
    if lastKept == None {
      assert disk[..0] == [] && [] + disk[0..] == disk;
      return disk;
    }
    var keep := lastKept.value;
    left := [];
    for j := 0 to keep
      invariant left == Stuck(disk[..j], fails)
    {
      assert disk[..j + 1][..j] == disk[..j];
      if fails(disk[j]) {
        left := left + [disk[j]];
      }
    }
    left := left + disk[keep..];
  }

  lemma {:induction false} FlattenAppend(xs: seq<Segment>, ys: seq<Segment>)
    ensures Flatten(xs + ys) == Flatten(xs) + Flatten(ys)
  {
    FlattenNone();
    hide Flatten;
    if ys == [] {
      assert xs + ys == xs && Flatten(xs) + [] == Flatten(xs);
    } else {
      var front, last := ys[..|ys| - 1], ys[|ys| - 1];
      FlattenAppend(xs, front);
      assert ys == front + [last] && xs + ys == xs + front + [last];
      FlattenSnoc(front, last);
      FlattenSnoc(xs + front, last);
      assert Flatten(xs) + Flatten(front) + last.records == Flatten(xs) + (Flatten(front) + last.records);
    }
  }

  lemma FlattenNone()
    ensures Flatten([]) == []
  {
  }

  lemma FlattenSnoc(xs: seq<Segment>, x: Segment)
    ensures Flatten(xs + [x]) == Flatten(xs) + x.records
  {
    assert (xs + [x])[..|xs|] == xs;
  }

  lemma {:induction false} KeptBeforeCheckpoint(disk: seq<Segment>, i: nat, lsn: nat)
    requires Increasing(disk) && CheckpointAt(disk, i, lsn) && (i + 1 < |disk| ==> lsn < disk[i + 1].start)
    ensures Kept(disk, lsn) == i
  {
    if i > 0 {
      assert disk[0].start < disk[i].start && disk[1].start <= disk[i].start;
      KeptBeforeCheckpoint(disk[1..], i - 1, lsn);
    }
  }

  /**
   Garbage collection keeps the segment that holds the checkpoint exactly when no later file has a
   name at or below the checkpoint's LSN.
   */
  lemma KeepsCheckpointIff(disk: seq<Segment>, i: nat, lsn: nat)
    requires Increasing(disk) && CheckpointAt(disk, i, lsn)
    ensures Kept(disk, lsn) <= i <==> (i + 1 < |disk| ==> lsn < disk[i + 1].start)
  {
    if i + 1 < |disk| && disk[i + 1].start <= lsn {
      KeptBeyond(disk, i + 1, lsn);
    } else {
      KeptBeforeCheckpoint(disk, i, lsn);
    }
  }

  lemma {:induction false} KeptBeyond(disk: seq<Segment>, i: nat, lsn: nat)
    requires Increasing(disk) && i < |disk| && disk[i].start <= lsn
    ensures Kept(disk, lsn) >= i
  {
    if i > 0 {
      assert disk[0].start < disk[i].start && disk[1].start <= disk[i].start;
      KeptBeyond(disk[1..], i - 1, lsn);
    }
  }

  /**
   A rotation that failed after creating its file leaves such a name behind the segment that goes on
   being written. The next checkpoint then deletes the segment it is in.
   */
  lemma StrayFileTakesCheckpoint(disk: seq<Segment>, t: Txn, es: seq<CheckpointEntry>)
    requires FromEntries(es) == map[t := Entry("u", "d", true)]
    requires disk == [Segment(0, true, [Begin(t, "u", "d"), Committing(t), Checkpoint(es)], CleanEnd), Segment(1, false, [], CleanEnd)]
    ensures CheckpointAt(disk, 0, 2) && Kept(disk, 2) == 1
    ensures Decided(ReplayDisk(disk), t) && ReplayDisk(disk[Kept(disk, 2)..]) == map[]
  {
    var rs := disk[0].records;
    assert disk[..1] == [disk[0]] && [disk[0]][..0] == [] && disk[1..] == [disk[1]] && [disk[1]][..0] == [];
    assert Flatten([disk[0]]) == rs && Flatten(disk) == rs + [] == rs;
    assert Flatten([disk[1]]) == [];
    assert Kept(disk[1..], 2) == 0;
  }

  /**
   Collecting garbage behind a durable checkpoint does not change what recovery rebuilds, whichever
   of the files it should have deleted are still there, and the checkpoint is among what is kept.
   */
  lemma GcPreservesReplay(disk: seq<Segment>, i: nat, lsn: nat, fails: Segment -> bool)
    requires Increasing(disk) && CheckpointAt(disk, i, lsn) && (i + 1 < |disk| ==> lsn < disk[i + 1].start)
    ensures var kept := disk[Kept(disk, lsn)..];
            && ReplayDisk(Stuck(disk[..Kept(disk, lsn)], fails) + kept) == ReplayDisk(disk)
            && CheckpointAt(kept, 0, lsn) && (Contiguous(disk) ==> Contiguous(kept))
  {
    hide Kept, Stuck, ReplayDisk, Increasing;
    KeptBeforeCheckpoint(disk, i, lsn);
    var kept := disk[i..];
    assert disk == disk[..i] + kept;
    assert kept[0].records[lsn - kept[0].start].Checkpoint?;
    CheckpointSegmentForgets(disk[..i], Stuck(disk[..i], fails), kept, 0);
  }

  lemma ReplayDiskAppend(xs: seq<Segment>, ys: seq<Segment>)
    ensures ReplayDisk(xs + ys) == Replay(ReplayDisk(xs), Flatten(ys))
  {
    hide Replay, Flatten;
    FlattenAppend(xs, ys);
    ReplayAppend(map[], Flatten(xs), Flatten(ys));
  }

  /** What lies before a segment that holds a checkpoint does not matter to replay. */
  lemma CheckpointSegmentForgets(xs: seq<Segment>, ys: seq<Segment>, rest: seq<Segment>, j: nat)
    requires j < |rest| && HasCheckpoint(rest[j])
    ensures ReplayDisk(xs + rest) == ReplayDisk(ys + rest)
  {
    hide Replay, Flatten, ReplayDisk;
    ReplayDiskAppend(xs, rest);
    ReplayDiskAppend(ys, rest);
    var k := CheckpointInside(rest, j);
    CheckpointForgetsPast(ReplayDisk(xs), ReplayDisk(ys), Flatten(rest), k);
  }

  lemma CheckpointInside(disk: seq<Segment>, j: nat) returns (k: nat)
    requires j < |disk| && HasCheckpoint(disk[j])
    ensures k < |Flatten(disk)| && Flatten(disk)[k].Checkpoint?
  {
    hide Flatten;
    var head, tail := disk[..j], disk[j..];
    assert disk == head + tail;
    FlattenAppend(head, tail);
    FlattenFirst(tail);
    var i :| 0 <= i < |tail[0].records| && tail[0].records[i].Checkpoint?;
    k := |Flatten(head)| + i;
  }

  lemma FlattenFirst(disk: seq<Segment>)
    requires disk != []
    ensures disk[0].records <= Flatten(disk)
  {
    assert disk == [disk[0]] + disk[1..];
    FlattenAppend([disk[0]], disk[1..]);
    assert Flatten([disk[0]]) == [] + disk[0].records;
  }
}
