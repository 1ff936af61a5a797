/** What the records of a log say about one transaction, and what is left of it when records are lost. */
module WalHistory {
  import opened WalRecord
  import opened WalLog
  import opened WalRecovery

  /** The record says that the transaction commits. */
  predicate Decides(r: Record, t: Txn) {
    match r
    case Committing(x) => x == t
    case Checkpoint(es) => Decided(FromEntries(es), t)
    case _ => false
  }

  /** The record puts the transaction into the table as one that may still be rolled back. */
  predicate Reopens(r: Record, t: Txn) {
    match r
    case Begin(x, _, _) => x == t
    case Checkpoint(es) => Undecided(FromEntries(es), t)
    case _ => false
  }

  predicate Mentions(r: Record, t: Txn) {
    match r
    case Begin(x, _, _) => x == t
    case Committing(x) => x == t
    case End(x) => x == t
    case Checkpoint(es) => t in FromEntries(es)
  }

  predicate HasDecision(rs: seq<Record>, t: Txn) {
    exists i :: 0 <= i < |rs| && Decides(rs[i], t)
  }

  predicate Mentioned(rs: seq<Record>, t: Txn) {
    exists i :: 0 <= i < |rs| && Mentions(rs[i], t)
  }

  /** Once decided, never reopened. */
  predicate Ordered(rs: seq<Record>, t: Txn) {
    rs == [] ||
    var front, last := rs[..|rs| - 1], rs[|rs| - 1];
    Ordered(front, t) && (Reopens(last, t) ==> !HasDecision(front, t))
  }

  /** `sub` is `rs` with some records missing. */
  predicate SubLog(sub: seq<Record>, rs: seq<Record>) {
    sub == [] ||
    (rs != [] &&
     var front := rs[..|rs| - 1];
     || SubLog(sub, front)
     || (sub[|sub| - 1] == rs[|rs| - 1] && SubLog(sub[..|sub| - 1], front)))
  }

  // ---- tables and records ----------------------------------------------------------

  lemma HasDecisionSnoc(rs: seq<Record>, r: Record, t: Txn)
    ensures HasDecision(rs + [r], t) <==> HasDecision(rs, t) || Decides(r, t)
    ensures Mentioned(rs + [r], t) <==> Mentioned(rs, t) || Mentions(r, t)
  {
    var all := rs + [r];
    assert all[|rs|] == r;
    if i :| 0 <= i < |rs| && Decides(rs[i], t) { assert Decides(all[i], t); }
    if i :| 0 <= i < |rs| && Mentions(rs[i], t) { assert Mentions(all[i], t); }
  }

  lemma OrderedSnoc(rs: seq<Record>, r: Record, t: Txn)
    ensures Ordered(rs + [r], t) <==> Ordered(rs, t) && (Reopens(r, t) ==> !HasDecision(rs, t))
  {
    assert (rs + [r])[..|rs|] == rs;
  }

  /** A transaction replays as decided only if some record decides it. */
  lemma {:induction false} ReplayedHasRecord(rs: seq<Record>, t: Txn)
    ensures t in Replay(map[], rs) ==> Mentioned(rs, t)
    ensures Decided(Replay(map[], rs), t) ==> HasDecision(rs, t)
  {
    if rs != [] {
      var front, last := rs[..|rs| - 1], rs[|rs| - 1];
      assert rs == front + [last];
      ReplayedHasRecord(front, t);
      HasDecisionSnoc(front, last, t);
    }
  }

  /** In an ordered log, it replays as undecided only if no record decides it. */
  lemma {:induction false} UndecidedHasNoDecision(rs: seq<Record>, t: Txn)
    requires Ordered(rs, t) && Undecided(Replay(map[], rs), t)
    ensures !HasDecision(rs, t)
  {
    var front, last := rs[..|rs| - 1], rs[|rs| - 1];
    assert rs == front + [last];
    HasDecisionSnoc(front, last, t);
    if !Reopens(last, t) {
      UndecidedHasNoDecision(front, t);
    }
  }

  // ---- lost records ------------------------------------------------------------------

  lemma {:induction false} SubLogSelf(rs: seq<Record>)
    ensures SubLog(rs, rs)
  {
    if rs != [] { SubLogSelf(rs[..|rs| - 1]); }
  }

  lemma {:induction false} SubLogPrefix(rs: seq<Record>, n: nat)
    requires n <= |rs|
    ensures SubLog(rs[..n], rs)
  {
    if n == |rs| {
      assert rs[..n] == rs;
      SubLogSelf(rs);
    } else {
      var front := rs[..|rs| - 1];
      assert front[..n] == rs[..n];
      SubLogPrefix(front, n);
    }
  }

  lemma {:induction false} SubLogAppend(a: seq<Record>, rs: seq<Record>, b: seq<Record>, qs: seq<Record>)
    requires SubLog(a, rs) && SubLog(b, qs)
    ensures SubLog(a + b, rs + qs)
    decreases |qs|
  {
    if qs == [] {
      assert a + b == a && rs + qs == rs;
    } else {
      var front, all := qs[..|qs| - 1], rs + qs;
      assert all[..|all| - 1] == rs + front;
      if SubLog(b, front) {
        SubLogAppend(a, rs, b, front);
      } else {
        var ab := a + b;
        SubLogAppend(a, rs, b[..|b| - 1], front);
        assert ab[..|ab| - 1] == a + b[..|b| - 1];
      }
    }
  }

  /** Losing records never adds a mention or a decision, and leaves the log in order. */
  lemma {:induction false} SubLogKeeps(sub: seq<Record>, rs: seq<Record>, t: Txn)
    requires SubLog(sub, rs)
    ensures HasDecision(sub, t) ==> HasDecision(rs, t)
    ensures Mentioned(sub, t) ==> Mentioned(rs, t)
    ensures Ordered(rs, t) ==> Ordered(sub, t)
    decreases |rs|
  {
    if sub != [] {
      var front, last := rs[..|rs| - 1], rs[|rs| - 1];
      assert rs == front + [last];
      HasDecisionSnoc(front, last, t);
      if SubLog(sub, front) {
        SubLogKeeps(sub, front, t);
      } else {
        var less := sub[..|sub| - 1];
        assert sub == less + [last];
        SubLogKeeps(less, front, t);
        HasDecisionSnoc(less, last, t);
      }
    }
  }

  lemma {:induction false} SurvivorsSubLog(disk: seq<Segment>)
    ensures SubLog(Flatten(Survivors(disk)), Flatten(disk))
  {
    if disk != [] {
      var front, last := disk[..|disk| - 1], disk[|disk| - 1];
      SurvivorsSubLog(front);
      var xs := Survivors(front);
      var rs := if Intact(last) then last.records else [];
      SubLogPrefix(last.records, if Intact(last) then |last.records| else 0);
      assert last.records[..|last.records|] == last.records && last.records[..0] == [];
      SubLogAppend(Flatten(xs), Flatten(front), rs, last.records);
      FlattenSnoc(xs, last);
      assert xs + [] == xs && Flatten(xs) + [] == Flatten(xs);
    }
  }

  lemma AfterSubLog(disk: seq<Segment>)
    ensures SubLog(Flatten(After(disk)), Flatten(disk))
  {
    if disk != [] {
      var front, last := disk[..|disk| - 1], disk[|disk| - 1];
      hide Survivors;
      SurvivorsSubLog(front);
      var rs := if Writable(last) then last.records else [];
      SubLogPrefix(last.records, |rs|);
      assert last.records[..|rs|] == rs;
      SubLogAppend(Flatten(Survivors(front)), Flatten(front), rs, last.records);
      FlattenSnoc(Survivors(front), After(disk)[|After(disk)| - 1]);
    } else {
      FlattenSnoc([], Segment(0, true, [], CleanEnd));
      assert [] + After(disk) == After(disk);
    }
  }

  /**
   Which decisions a quarantine inverts. In a log whose decisions are never reopened it is those
   whose every deciding record was in a segment that is gone, while the record that began them is
   in one that stayed.
   */
  lemma InvertedIff(disk: seq<Segment>, t: Txn)
    requires Ordered(Flatten(disk), t)
    ensures Inverts(disk, t) <==>
            && Decided(ReplayDisk(disk), t) && t in ReplayDisk(After(disk))
            && !HasDecision(Flatten(After(disk)), t)
  {
    hide Replay, Flatten, After;
    AfterSubLog(disk);
    SubLogKeeps(Flatten(After(disk)), Flatten(disk), t);
    InvertsIff(disk, t);
    ReplayedHasRecord(Flatten(After(disk)), t);
    if Undecided(ReplayDisk(After(disk)), t) {
      UndecidedHasNoDecision(Flatten(After(disk)), t);
    }
  }
}
