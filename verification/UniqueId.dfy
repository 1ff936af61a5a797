/**
 The distributed id generator: a timestamp, a node number and a sequence packed into one integer.

 The clock is an arbitrary stream of readings. It may stall, jump and run backwards; a call waits
 until a reading reaches the time it needs.
 */
module UniqueId {
  import opened Common
  import opened Arithmetic
  import opened Bits

  /** Field widths after the 41 timestamp bits. */
  datatype Layout = Layout(nodeBits: nat, sequenceBits: nat)

  const STANDARD := Layout(10, 12)
  const COMPACT := Layout(6, 6)

  const MAX_TIMESTAMP: nat := 0x1FF_FFFF_FFFF
  const PGDOG_EPOCH: nat := 1764184395000
  const U64: nat := 0x1_0000_0000_0000_0000

  function MaxNode(l: Layout): nat { Pow2(l.nodeBits) - 1 }

  function MaxSequence(l: Layout): nat { Pow2(l.sequenceBits) - 1 }

  predicate Supported(l: Layout) { l == STANDARD || l == COMPACT }

  function Shl(x: nat, k: nat): nat { x * Pow2(k) % U64 }

  function Quotient(x: nat, p: nat): nat
    requires p > 0
  {
    x / p
  }

  function Shr(x: nat, k: nat): nat { Quotient(x, Pow2(k)) }

  function Pack(l: Layout, elapsed: nat, node: nat, sequence: nat): nat {
    BitOr(BitOr(Shl(BitAnd(elapsed, MAX_TIMESTAMP), l.sequenceBits + l.nodeBits), Shl(node, l.sequenceBits)), sequence)
  }

  function Elapsed(l: Layout, id: nat): nat { Shr(id, l.sequenceBits + l.nodeBits) }

  function Node(l: Layout, id: nat): nat { BitAnd(Shr(id, l.sequenceBits), MaxNode(l)) }

  function Sequence(l: Layout, id: nat): nat { BitAnd(id, MaxSequence(l)) }

  predicate InFields(l: Layout, elapsed: nat, node: nat, sequence: nat) {
    elapsed <= MAX_TIMESTAMP && node <= MaxNode(l) && sequence <= MaxSequence(l)
  }

  // ---- packing ------------------------------------------------------------------

  lemma {:induction false} Pow2Add(a: nat, b: nat)
    ensures Pow2(a + b) == Pow2(a) * Pow2(b)
  {
    if a > 0 {
      Pow2Add(a - 1, b);
      MulAssoc(2, Pow2(a - 1), Pow2(b));
    }
  }

  lemma SmallPowers()
    ensures Pow2(1) == 2 && Pow2(6) == 64 && Pow2(10) == 1024
  {
    assert Pow2(3) == 8;
    assert Pow2(6) == 64;
  }

  lemma Powers()
    ensures Pow2(6) == 64 && Pow2(10) == 1024 && Pow2(12) == 4096
    ensures Pow2(22) == 0x40_0000 && Pow2(41) == MAX_TIMESTAMP + 1
  {
    SmallPowers();
    hide Pow2;
    Pow2Add(6, 6);
    Pow2Add(12, 10);
    Pow2Add(10, 10);
    Pow2Add(20, 20);
    Pow2Add(40, 1);
  }

  /** The packed fields as one mixed-radix number. */
  function Mixed(l: Layout, elapsed: nat, node: nat, sequence: nat): nat {
    if l == COMPACT then elapsed * 4096 + node * 64 + sequence
    else elapsed * 0x40_0000 + node * 4096 + sequence
  }

  /** Nothing overlaps and nothing is shifted out: the disjunction of the fields is their mixed-radix sum. */
  lemma PackIsSum(l: Layout, elapsed: nat, node: nat, sequence: nat)
    requires Supported(l) && InFields(l, elapsed, node, sequence)
    ensures Pack(l, elapsed, node, sequence) == Mixed(l, elapsed, node, sequence)
    ensures Pack(l, elapsed, node, sequence) <= Ceiling(l)
  {
    hide Pow2, BitOr, BitAnd, Shl;
    Powers();
    MaskedElapsed(elapsed);
    if l == COMPACT {
      ShlExact(elapsed, 12, 4096);
      ShlExact(node, 6, 64);
      OrIsSum(elapsed, node * 64, 12);
      OrIsSum(elapsed * 64 + node, sequence, 6);
    } else {
      ShlExact(elapsed, 22, 0x40_0000);
      ShlExact(node, 12, 4096);
      OrIsSum(elapsed, node * 4096, 22);
      OrIsSum(elapsed * 1024 + node, sequence, 12);
    }
  }

  lemma ShlExact(x: nat, k: nat, p: nat)
    requires Pow2(k) == p && x * p < U64
    ensures Shl(x, k) == x * p
  {
    hide Pow2;
    DivideOff(0, x * p, x * p, U64);
  }

  lemma MaskedElapsed(elapsed: nat)
    requires elapsed <= MAX_TIMESTAMP
    ensures BitAnd(elapsed, MAX_TIMESTAMP) == elapsed
  {
    hide Pow2, BitAnd;
    Powers();
    AndIsMod(elapsed, 41);
    DivideOff(0, elapsed, elapsed, MAX_TIMESTAMP + 1);
  }

  /** Shift and mask give the fields back. */
  lemma UnpackPack(l: Layout, elapsed: nat, node: nat, sequence: nat)
    requires Supported(l) && InFields(l, elapsed, node, sequence)
    ensures var id := Pack(l, elapsed, node, sequence);
            Elapsed(l, id) == elapsed && Node(l, id) == node && Sequence(l, id) == sequence
  {
    PackIsSum(l, elapsed, node, sequence);
    hide Pow2, BitOr, BitAnd, Pack;
    Powers();
    var id := Pack(l, elapsed, node, sequence);
    AndIsMod(id, l.sequenceBits);
    AndIsMod(Shr(id, l.sequenceBits), l.nodeBits);
    if l == COMPACT {
      DivideOff(elapsed * 64 + node, sequence, id, 64);
      DivideOff(elapsed, node, elapsed * 64 + node, 64);
      DivideOff(elapsed, node * 64 + sequence, id, 4096);
    } else {
      DivideOff(elapsed * 1024 + node, sequence, id, 4096);
      DivideOff(elapsed, node, elapsed * 1024 + node, 1024);
      DivideOff(elapsed, node * 4096 + sequence, id, 0x40_0000);
    }
  }

  predicate Before(t: nat, s: nat, t': nat, s': nat) {
    t < t' || (t == t' && s < s')
  }

  /** On one node, later time or higher sequence means a larger packed value. */
  lemma PackMonotone(l: Layout, t: nat, s: nat, t': nat, s': nat, node: nat)
    requires Supported(l) && InFields(l, t, node, s) && InFields(l, t', node, s') && Before(t, s, t', s')
    ensures Pack(l, t, node, s) < Pack(l, t', node, s')
  {
    PackIsSum(l, t, node, s);
    PackIsSum(l, t', node, s');
    hide Pow2, BitOr, BitAnd, Pack;
    Powers();
  }

  // ---- configuration ---------------------------------------------------------------

  datatype ConfigError = NodeIdTooLarge(node: nat) | OffsetTooLarge(offset: nat)

  /** The largest value the packed fields can take, and the ceiling it must stay under. */
  function Ceiling(l: Layout): nat {
    if l == COMPACT then 0x1F_FFFF_FFFF_FFFF else 0x7FFF_FFFF_FFFF_FFFF
  }

  function MaxOffset(l: Layout): int {
    Ceiling(l) - Pack(l, MAX_TIMESTAMP, MaxNode(l), MaxSequence(l))
  }

  function Accept(l: Layout, node: nat, minId: nat): Result<(nat, nat), ConfigError> {
    if node > MaxNode(l) then Err(NodeIdTooLarge(node))
    else if minId > MaxOffset(l) then Err(OffsetTooLarge(minId))
    else Ok((node, minId))
  }

  /** The fields fill the integer, so the room for an offset is nil and only a zero minimum is accepted. */
  lemma OnlyZeroOffsetAccepted(l: Layout, node: nat, minId: nat)
    requires Supported(l)
    ensures MaxOffset(l) == 0
    ensures Accept(l, node, minId).Ok? <==> node <= MaxNode(l) && minId == 0
  {
    PackIsSum(l, MAX_TIMESTAMP, MaxNode(l), MaxSequence(l));
    hide Pow2, BitOr, BitAnd, Pack;
    Powers();
  }

  // ---- one generator ------------------------------------------------------------------

  datatype St = St(last: nat, sequence: nat)

  /** The first reading that reaches the target, and the readings after it. */
  function Wait(readings: seq<nat>, target: nat): (r: Option<(nat, seq<nat>)>)
    ensures r.Some? ==> r.value.0 >= target
  {
    if readings == [] then None
    else if readings[0] >= target then Some((readings[0], readings[1..]))
    else Wait(readings[1..], target)
  }

  /** The state after a call whose first wait ended at `first` and whose second, if any, at `second`. */
  function Tick(l: Layout, s: St, first: nat, second: nat): St {
    if first == s.last then
      var next := BitAnd(s.sequence + 1, MaxSequence(l));
      if next == 0 then St(second, 0) else St(first, next)
    else St(first, 0)
  }

  predicate Wraps(l: Layout, s: St, first: nat) {
    first == s.last && BitAnd(s.sequence + 1, MaxSequence(l)) == 0
  }

  /** Within a millisecond the sequence goes up by one; a new millisecond starts it at zero; it never leaves its field. */
  lemma TickAdvances(l: Layout, s: St, first: nat, second: nat)
    requires Supported(l) && s.sequence <= MaxSequence(l) && first >= s.last && second > first
    ensures var s' := Tick(l, s, first, second);
            && s'.sequence <= MaxSequence(l)
            && if s'.last == s.last then s'.sequence == s.sequence + 1 else s'.last > s.last && s'.sequence == 0
    ensures Wraps(l, s, first) <==> first == s.last && s.sequence == MaxSequence(l)
  {
    hide Pow2, BitAnd;
    Powers();
    AndIsMod(s.sequence + 1, l.sequenceBits);
    if s.sequence == MaxSequence(l) {
      DivideOff(1, 0, s.sequence + 1, Pow2(l.sequenceBits));
    } else {
      DivideOff(0, s.sequence + 1, s.sequence + 1, Pow2(l.sequenceBits));
    }
  }

  /** Where the waits of a call that returns ended, and the readings it left. */
  datatype Waits = Waits(first: nat, second: nat, rest: seq<nat>)

  function Ended(l: Layout, s: St, readings: seq<nat>): Option<Waits> {
    var w := Wait(readings, s.last);
    if w.None? then None
    else if !Wraps(l, s, w.value.0) then Some(Waits(w.value.0, w.value.0 + 1, w.value.1))
    else
      var w2 := Wait(w.value.1, w.value.0 + 1);
      if w2.None? then None else Some(Waits(w.value.0, w2.value.0, w2.value.1))
  }

  /** The clock is in the 41-bit window after the epoch; outside it the call panics instead of issuing. */
  predicate InWindow(s: St) {
    PGDOG_EPOCH <= s.last <= PGDOG_EPOCH + MAX_TIMESTAMP
  }

  function IdOf(l: Layout, elapsed: nat, node: nat, sequence: nat, offset: nat): nat {
    (Pack(l, elapsed, node, sequence) + offset) % U64
  }

  datatype Outcome = Issued(id: nat) | Panicked | Waiting

  /** What a call that ended in state `s` returns. */
  function Answer(l: Layout, s: St, node: nat, offset: nat): Outcome {
    if InWindow(s) then Issued(IdOf(l, s.last - PGDOG_EPOCH, node, s.sequence, offset)) else Panicked
  }

  /** One generator's mutable state; both layouts share the code. */
  class State {
    const l: Layout
    var lastTimestampMs: nat
    var sequence: nat

    constructor (l: Layout)
      ensures this.l == l && lastTimestampMs == 0 && sequence == 0
    {
      this.l := l;
      lastTimestampMs, sequence := 0, 0;
    }

    function Value(): St
      reads this
    {
      St(lastTimestampMs, sequence)
    }

    /** Poll the clock until a reading reaches the target; `None` while it has not. */
    method WaitUntil(target: nat, readings: seq<nat>) returns (now: Option<nat>, rest: seq<nat>)
      ensures var w := Wait(readings, target);
              if w.None? then now == None else now == Some(w.value.0) && rest == w.value.1
    {
      rest := readings;
      while rest != []
        invariant Wait(readings, target) == Wait(rest, target)
      {
        var t := rest[0];
        rest := rest[1..];
        if t >= target {
          return Some(t), rest;
        }
      }
      return None, [];
    }

    /** Next id. A call that is still waiting when the readings run out has not returned. */
    method NextId(node: nat, offset: nat, readings: seq<nat>) returns (out: Outcome, rest: seq<nat>)
      modifies this
      ensures Wait(readings, old(lastTimestampMs)) == None ==> Value() == old(Value())
      ensures var e := Ended(l, old(Value()), readings);
              if e.None? then out == Waiting
              else
                && Value() == Tick(l, old(Value()), e.value.first, e.value.second) && rest == e.value.rest
                && out == Answer(l, Value(), node, offset)
    {
      var now;
      now, rest := WaitUntil(lastTimestampMs, readings);
      if now == None {
        return Waiting, rest;
      }
      if now.value == lastTimestampMs {
        sequence := BitAnd(sequence + 1, MaxSequence(l));
        if sequence == 0 {
          now, rest := WaitUntil(now.value + 1, rest);
          if now == None {
            return Waiting, rest;
          }
        }
      } else {
        sequence := 0;
      }
      lastTimestampMs := now.value;
      if lastTimestampMs < PGDOG_EPOCH {
        return Panicked, rest;
      }
      var elapsed := lastTimestampMs - PGDOG_EPOCH;
      if elapsed > MAX_TIMESTAMP {
        return Panicked, rest;
      }
      var timestampPart := Shl(BitAnd(elapsed, MAX_TIMESTAMP), l.sequenceBits + l.nodeBits);
      var nodePart := Shl(node, l.sequenceBits);
      var base := BitOr(BitOr(timestampPart, nodePart), sequence);
      return Issued((base + offset) % U64), rest;
    }
  }

  // ---- a cluster of generators --------------------------------------------------------

  /** One completed call: which node made it and where its waits ended. */
  datatype Call = Call(node: nat, first: nat, second: nat)

  datatype Issue = Issue(node: nat, elapsed: nat, sequence: nat, id: nat)

  /** Every node's generator, and every id handed out so far in order. */
  datatype Cluster = Cluster(states: map<nat, St>, issued: seq<Issue>)

  function StateOf(c: Cluster, node: nat): St {
    if node in c.states then c.states[node] else St(0, 0)
  }

  /** Waits end no earlier than their targets; nothing else is asked of the clocks. */
  predicate Possible(l: Layout, c: Cluster, call: Call) {
    call.node <= MaxNode(l) && call.first >= StateOf(c, call.node).last && call.second > call.first
  }

  function Perform(l: Layout, offset: nat, c: Cluster, call: Call): Cluster {
    var s := Tick(l, StateOf(c, call.node), call.first, call.second);
    var states := c.states[call.node := s];
    if InWindow(s) then
      var elapsed := s.last - PGDOG_EPOCH;
      Cluster(states, c.issued + [Issue(call.node, elapsed, s.sequence, IdOf(l, elapsed, call.node, s.sequence, offset))])
    else Cluster(states, c.issued)
  }

  /**
   A call that returns, whatever its clock showed, is a possible call of the cluster with the same
   effect: the generator is left as the cluster has it, and an id is returned exactly if it is the
   one the cluster records as issued next.
   */
  lemma ReturnedIsPossible(l: Layout, offset: nat, c: Cluster, node: nat, readings: seq<nat>)
    requires node <= MaxNode(l) && Ended(l, StateOf(c, node), readings).Some?
    ensures var e := Ended(l, StateOf(c, node), readings).value;
            var call := Call(node, e.first, e.second);
            var c' := Perform(l, offset, c, call);
            && Possible(l, c, call) && StateOf(c', node) == Tick(l, StateOf(c, node), e.first, e.second)
            && (forall n :: n != node ==> StateOf(c', n) == StateOf(c, n))
            && match Answer(l, StateOf(c', node), node, offset)
               case Issued(id) => |c'.issued| == |c.issued| + 1 && c.issued <= c'.issued && c'.issued[|c.issued|].id == id
               case _ => c'.issued == c.issued
  {
    hide Tick, Pack, Pow2, Wraps;
  }

  function Run(l: Layout, offset: nat, calls: seq<Call>): Cluster {
    if calls == [] then Cluster(map[], [])
    else Perform(l, offset, Run(l, offset, calls[..|calls| - 1]), calls[|calls| - 1])
  }

  predicate PossibleRun(l: Layout, offset: nat, calls: seq<Call>) {
    calls == [] ||
    var rest := calls[..|calls| - 1];
    PossibleRun(l, offset, rest) && Possible(l, Run(l, offset, rest), calls[|calls| - 1])
  }

  predicate Later(i: Issue, s: St) {
    i.elapsed + PGDOG_EPOCH < s.last || (i.elapsed + PGDOG_EPOCH == s.last && i.sequence <= s.sequence)
  }

  predicate WellIssued(l: Layout, offset: nat, a: Issue) {
    InFields(l, a.elapsed, a.node, a.sequence) && a.id == IdOf(l, a.elapsed, a.node, a.sequence, offset)
  }

  /** Ids carry their fields, no node is behind what it issued, and each node's issues strictly advance. */
  ghost predicate Inv(l: Layout, offset: nat, c: Cluster) {
    && (forall n <- c.states :: c.states[n].sequence <= MaxSequence(l))
    && (forall i <- c.issued ::
          WellIssued(l, offset, i) && Later(i, StateOf(c, i.node)))
    && (forall i, j :: 0 <= i < j < |c.issued| && c.issued[i].node == c.issued[j].node ==>
          Before(c.issued[i].elapsed, c.issued[i].sequence, c.issued[j].elapsed, c.issued[j].sequence))
  }

  lemma PerformKeeps(l: Layout, offset: nat, c: Cluster, call: Call)
    requires Supported(l) && Inv(l, offset, c) && Possible(l, c, call)
    ensures Inv(l, offset, Perform(l, offset, c, call))
  {
    hide Tick, IdOf, Pow2;
    TickAdvances(l, StateOf(c, call.node), call.first, call.second);
  }

  lemma {:induction false} RunKeeps(l: Layout, offset: nat, calls: seq<Call>)
    requires Supported(l) && PossibleRun(l, offset, calls)
    ensures Inv(l, offset, Run(l, offset, calls))
  {
    if calls != [] {
      var rest := calls[..|calls| - 1];
      RunKeeps(l, offset, rest);
      PerformKeeps(l, offset, Run(l, offset, rest), calls[|calls| - 1]);
    }
  }

  lemma IdsDiffer(l: Layout, offset: nat, a: Issue, b: Issue)
    requires Supported(l) && WellIssued(l, offset, a) && WellIssued(l, offset, b) && a.id == b.id
    ensures a == b
  {
    hide Pack, Elapsed, Node, Sequence, Mixed, Supported, InFields;
    PackBelowWrap(l, a.elapsed, a.node, a.sequence);
    PackBelowWrap(l, b.elapsed, b.node, b.sequence);
    WrapInjective(Pack(l, a.elapsed, a.node, a.sequence), Pack(l, b.elapsed, b.node, b.sequence), offset);
    UnpackPack(l, a.elapsed, a.node, a.sequence);
    UnpackPack(l, b.elapsed, b.node, b.sequence);
  }

  lemma PackBelowWrap(l: Layout, elapsed: nat, node: nat, sequence: nat)
    requires Supported(l) && InFields(l, elapsed, node, sequence)
    ensures Pack(l, elapsed, node, sequence) < U64
  {
    hide Pack, Mixed;
    PackIsSum(l, elapsed, node, sequence);
  }

  lemma WrapInjective(x: nat, y: nat, offset: nat)
    requires x < U64 && y < U64 && (x + offset) % U64 == (y + offset) % U64
    ensures x == y
  {
  }

  /**
   Whatever the clocks of the nodes do, no id is ever handed out twice, across the whole cluster,
   and with the only offset the configuration accepts every id stays within its ceiling and each
   node's ids strictly increase.
   */
  lemma ClusterUnique(l: Layout, offset: nat, calls: seq<Call>, i: nat, j: nat)
    requires Supported(l) && PossibleRun(l, offset, calls)
    requires i < j < |Run(l, offset, calls).issued|
    ensures var out := Run(l, offset, calls).issued;
            && out[i].id != out[j].id
            && (offset == 0 ==> out[i].id <= Ceiling(l) && (out[i].node == out[j].node ==> out[i].id < out[j].id))
  {
    RunKeeps(l, offset, calls);
    hide Run, PossibleRun, Pack;
    var out := Run(l, offset, calls).issued;
    assert out[i] in out && out[j] in out;
    IssuesApart(l, offset, out[i], out[j]);
  }

  lemma IssuesApart(l: Layout, offset: nat, a: Issue, b: Issue)
    requires Supported(l) && WellIssued(l, offset, a) && WellIssued(l, offset, b)
    requires a.node == b.node ==> Before(a.elapsed, a.sequence, b.elapsed, b.sequence)
    ensures a.id != b.id
    ensures offset == 0 ==> a.id <= Ceiling(l) && (a.node == b.node ==> a.id < b.id)
  {
    hide InFields, IdOf, Ceiling, Supported;
    if a.id == b.id {
      IdsDiffer(l, offset, a, b);
    }
    if offset == 0 {
      PlainId(l, a);
      PlainId(l, b);
      if a.node == b.node {
        PackMonotone(l, a.elapsed, a.sequence, b.elapsed, b.sequence, a.node);
      }
    }
  }

  /** Without an offset the id is the packed fields. */
  lemma PlainId(l: Layout, a: Issue)
    requires Supported(l) && WellIssued(l, 0, a)
    ensures a.id == Pack(l, a.elapsed, a.node, a.sequence) <= Ceiling(l)
  {
    hide Pack;
    PackIsSum(l, a.elapsed, a.node, a.sequence);
  }

  /** Ids one node issued in one millisecond. */
  function IssuedAt(out: seq<Issue>, node: nat, elapsed: nat): nat {
    if out == [] then 0
    else
      var last := out[|out| - 1];
      IssuedAt(out[..|out| - 1], node, elapsed) + if last.node == node && last.elapsed == elapsed then 1 else 0
  }

  /** The sequence counts what the current millisecond has issued. */
  ghost predicate Counted(l: Layout, c: Cluster) {
    forall n: nat, t: nat :: CountedAt(l, c, n, t)
  }

  predicate CountedAt(l: Layout, c: Cluster, n: nat, t: nat) {
    && IssuedAt(c.issued, n, t) <= MaxSequence(l) + 1
    && var s := StateOf(c, n);
       && (t + PGDOG_EPOCH == s.last ==> IssuedAt(c.issued, n, t) <= s.sequence + 1)
       && (t + PGDOG_EPOCH > s.last ==> IssuedAt(c.issued, n, t) == 0)
  }

  lemma IssuedAtSnoc(out: seq<Issue>, x: Issue, node: nat, elapsed: nat)
    ensures IssuedAt(out + [x], node, elapsed)
         == IssuedAt(out, node, elapsed) + if x.node == node && x.elapsed == elapsed then 1 else 0
  {
    assert (out + [x])[..|out|] == out;
  }

  lemma PerformCounts(l: Layout, offset: nat, c: Cluster, call: Call)
    requires Supported(l) && Inv(l, offset, c) && Possible(l, c, call) && Counted(l, c)
    ensures Counted(l, Perform(l, offset, c, call))
  {
    hide Tick, IdOf, Pow2, Perform;
    forall n: nat, t: nat
      ensures CountedAt(l, Perform(l, offset, c, call), n, t)
    {
      assert CountedAt(l, c, n, t);
      CountStep(l, offset, c, call, n, t);
    }
  }

  lemma CountStep(l: Layout, offset: nat, c: Cluster, call: Call, n: nat, t: nat)
    requires Supported(l) && Inv(l, offset, c) && Possible(l, c, call) && CountedAt(l, c, n, t)
    ensures CountedAt(l, Perform(l, offset, c, call), n, t)
  {
    var s := StateOf(c, call.node);
    TickAdvances(l, s, call.first, call.second);
    hide Tick, IdOf, Pow2, IssuedAt;
    var s' := Tick(l, s, call.first, call.second);
    if InWindow(s') {
      IssuedAtSnoc(c.issued, Perform(l, offset, c, call).issued[|c.issued|], n, t);
    }
  }

  lemma {:induction false} RunCounts(l: Layout, offset: nat, calls: seq<Call>)
    requires Supported(l) && PossibleRun(l, offset, calls)
    ensures Counted(l, Run(l, offset, calls))
  {
    if calls != [] {
      var rest := calls[..|calls| - 1];
      RunCounts(l, offset, rest);
      RunKeeps(l, offset, rest);
      PerformCounts(l, offset, Run(l, offset, rest), calls[|calls| - 1]);
    }
  }

  /** No node issues more than 4096 ids (64 compact ones) in one millisecond. */
  lemma RateBounded(l: Layout, offset: nat, calls: seq<Call>, node: nat, elapsed: nat)
    requires Supported(l) && PossibleRun(l, offset, calls)
    ensures IssuedAt(Run(l, offset, calls).issued, node, elapsed) <= if l == COMPACT then 64 else 4096
  {
    RunCounts(l, offset, calls);
    assert CountedAt(l, Run(l, offset, calls), node, elapsed);
    Powers();
  }
}
