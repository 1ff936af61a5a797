/** Routing a sharding-key value by explicit lists of values. */
module ListShards {
  import opened Common

  datatype Value = Integer(i: int) | Uuid(bytes: seq<int>) | Text(s: string)

  datatype Kind = List | Range | Default

  datatype Rule = Rule(kind: Kind, values: set<Value>, shard: nat)

  // ---- reference: scan the rules ------------------------------------------------------

  /** The shard of the last list rule holding the value. */
  function LastList(rules: seq<Rule>, v: Value): Option<nat> {
    if rules == [] then None
    else
      var last := rules[|rules| - 1];
      if last.kind == List && v in last.values then Some(last.shard) else LastList(rules[..|rules| - 1], v)
  }

  /** The shard of the first catch-all rule. */
  function FirstDefault(rules: seq<Rule>): Option<nat> {
    if rules == [] then None
    else if rules[0].kind == Default then Some(rules[0].shard)
    else FirstDefault(rules[1..])
  }

  /** Where a value belongs, read off the rules directly. */
  function Route(rules: seq<Rule>, v: Value): Option<nat> {
    if LastList(rules, v).Some? then LastList(rules, v) else FirstDefault(rules)
  }

  // ---- the index ------------------------------------------------------------------

  datatype Index = Index(mapping: map<Value, nat>, fallback: Option<nat>)

  function Lookup(m: map<Value, nat>, v: Value): Option<nat> {
    if v in m then Some(m[v]) else None
  }

  function Shard(index: Index, v: Value): Option<nat> {
    if v in index.mapping then Some(index.mapping[v])
    else if index.fallback.Some? then Some(index.fallback.value)
    else None
  }

  /** All values of one rule, taken in whatever order the set yields them. */
  method InsertAll(mapping: map<Value, nat>, values: set<Value>, shard: nat) returns (r: map<Value, nat>)
    ensures forall v :: Lookup(r, v) == if v in values then Some(shard) else Lookup(mapping, v)
  {
    r := mapping;
    var left := values;
    while left != {}
      invariant left <= values
      invariant forall v :: Lookup(r, v) == if v in values - left then Some(shard) else Lookup(mapping, v)
      decreases |left|
    {
      var v :| v in left;
      r := r[v := shard];
      left := left - {v};
    }
  }

  method FindDefault(rules: seq<Rule>) returns (r: Option<nat>)
    ensures r == FirstDefault(rules)
  {
    assert rules[0..] == rules;
    for i := 0 to |rules|
      invariant FirstDefault(rules) == FirstDefault(rules[i..])
    {
      if rules[i].kind == Default {
        return Some(rules[i].shard);
      }
    }
    return None;
  }

  /** Looking a value up in the index answers what scanning the rules would, for every value. */
  method New(rules: seq<Rule>) returns (index: Index)
    ensures forall v :: Shard(index, v) == Route(rules, v)
  {
    var mapping := map[];
    assert rules[..|rules|] == rules;
    for i := 0 to |rules|
      invariant forall v :: Lookup(mapping, v) == LastList(rules[..i], v)
    {
      assert rules[..i + 1][..i] == rules[..i];
      if rules[i].kind == List {
        mapping := InsertAll(mapping, rules[i].values, rules[i].shard);
      }
    }
    var fallback := FindDefault(rules);
    index := Index(mapping, fallback);
    forall v ensures Shard(index, v) == Route(rules, v) {
      assert Lookup(mapping, v) == LastList(rules, v);
    }
  }

  /** Only rules that mention a value, and catch-alls, bear on it: other rules can be moved or dropped. */
  lemma {:induction false} UnrelatedRule(before: seq<Rule>, rule: Rule, after: seq<Rule>, v: Value)
    requires rule.kind == Range || (rule.kind == List && v !in rule.values)
    ensures Route(before + [rule] + after, v) == Route(before + after, v)
  {
    LastListSkips(before, rule, after, v);
    FirstDefaultSkips(before, rule, after);
  }

  lemma {:induction false} LastListSkips(before: seq<Rule>, rule: Rule, after: seq<Rule>, v: Value)
    requires !(rule.kind == List && v in rule.values)
    ensures LastList(before + [rule] + after, v) == LastList(before + after, v)
  {
    if after == [] {
      assert (before + [rule] + after)[..|before|] == before && before + after == before;
    } else {
      var front := after[..|after| - 1];
      LastListSkips(before, rule, front, v);
      assert (before + [rule] + after)[..|before| + |after|] == before + [rule] + front;
      assert (before + after)[..|before| + |after| - 1] == before + front;
    }
  }

  lemma {:induction false} FirstDefaultSkips(before: seq<Rule>, rule: Rule, after: seq<Rule>)
    requires rule.kind != Default
    ensures FirstDefault(before + [rule] + after) == FirstDefault(before + after)
  {
    if before == [] {
      assert (before + [rule] + after)[1..] == after && before + after == after;
    } else {
      FirstDefaultSkips(before[1..], rule, after);
      assert (before + [rule] + after)[1..] == before[1..] + [rule] + after;
      assert (before + after)[1..] == before[1..] + after;
    }
  }

  // ---- hashing ---------------------------------------------------------------------

  type Entry = (Value, nat)

  function Xor(x: bv64, y: bv64): bv64 { x ^ y }

  /** The exclusive or of the hashes of entries, in the order given. */
  function XorEntries(es: seq<Entry>, hash: Entry -> bv64): bv64 {
    if es == [] then 0 else Xor(hash(es[0]), XorEntries(es[1..], hash))
  }

  lemma XorSwap(x: bv64, y: bv64, z: bv64)
    ensures Xor(x, Xor(y, z)) == Xor(y, Xor(x, z))
  {
  }

  lemma XorCommutes(x: bv64, y: bv64)
    ensures Xor(x, y) == Xor(y, x)
  {
  }

  lemma {:induction false} XorExtract(es: seq<Entry>, hash: Entry -> bv64, i: nat)
    requires i < |es|
    ensures XorEntries(es, hash) == Xor(hash(es[i]), XorEntries(es[..i] + es[i + 1..], hash))
  {
    hide Xor;
    if i == 0 {
      assert es[..0] + es[1..] == es[1..];
    } else {
      var rest := es[1..];
      XorExtract(rest, hash, i - 1);
      var without := es[..i] + es[i + 1..];
      assert without[1..] == rest[..i - 1] + rest[i..];
      XorSwap(hash(es[0]), hash(es[i]), XorEntries(without[1..], hash));
    }
  }

  lemma DropOne(xs: seq<Entry>, ys: seq<Entry>, i: nat)
    requires xs != [] && i < |ys| && ys[i] == xs[0] && multiset(xs) == multiset(ys)
    ensures multiset(xs[1..]) == multiset(ys[..i] + ys[i + 1..])
  {
    assert ys == ys[..i] + [ys[i]] + ys[i + 1..] && xs == [] + [xs[0]] + xs[1..];
    Around(ys[..i], ys[i], ys[i + 1..]);
    Around([], xs[0], xs[1..]);
    assert [] + xs[1..] == xs[1..];
    CancelOne(multiset(xs[1..]), multiset(ys[..i] + ys[i + 1..]), xs[0]);
  }

  lemma Around(a: seq<Entry>, x: Entry, b: seq<Entry>)
    ensures multiset(a + [x] + b) == multiset(a + b) + multiset{x}
  {
  }

  lemma CancelOne(a: multiset<Entry>, b: multiset<Entry>, x: Entry)
    requires a + multiset{x} == b + multiset{x}
    ensures a == b
  {
    assert a == a + multiset{x} - multiset{x} && b == b + multiset{x} - multiset{x};
  }

  lemma FindFirst(xs: seq<Entry>, ys: seq<Entry>) returns (i: nat)
    requires xs != [] && multiset(xs) == multiset(ys)
    ensures i < |ys| && ys[i] == xs[0]
  {
    assert xs[0] in multiset(ys);
    i :| i < |ys| && ys[i] == xs[0];
  }

  /** A map has no order: any two enumerations of the same entries hash alike. */
  lemma {:induction false} HashIgnoresOrder(xs: seq<Entry>, ys: seq<Entry>, hash: Entry -> bv64)
    requires multiset(xs) == multiset(ys)
    ensures XorEntries(xs, hash) == XorEntries(ys, hash)
  {
    hide Xor;
    if xs == [] {
      assert |multiset(ys)| == 0;
    } else {
      var i := FindFirst(xs, ys);
      XorExtract(ys, hash, i);
      DropOne(xs, ys, i);
      HashIgnoresOrder(xs[1..], ys[..i] + ys[i + 1..], hash);
    }
  }

  /** The hash of a table is that of each of its enumerations, so equal tables hash equally. */
  method HashMapping(mapping: map<Value, nat>, hash: Entry -> bv64) returns (x: bv64)
    ensures forall es :: multiset(es) == multiset(mapping.Items) ==> x == XorEntries(es, hash)
  {
    hide Xor;
    x := 0;
    var left := mapping.Items;
    ghost var seen: seq<Entry> := [];
    while left != {}
      invariant left <= mapping.Items
      invariant multiset(seen) == multiset(mapping.Items - left)
      invariant x == XorEntries(seen, hash)
      decreases |left|
    {
      var e :| e in left;
      XorCommutes(x, hash(e));
      x, seen := Xor(x, hash(e)), [e] + seen;
      assert mapping.Items - (left - {e}) == mapping.Items - left + {e};
      left := left - {e};
      assert multiset(seen) == multiset{e} + multiset(seen[1..]);
    }
    assert mapping.Items - left == mapping.Items;
    forall es | multiset(es) == multiset(mapping.Items) ensures x == XorEntries(es, hash) {
      HashIgnoresOrder(seen, es, hash);
    }
  }
}
