/** Configuration: grouping databases by name and shard, and the cutover that exchanges two names. */
module Configuration {
  import opened Common

  datatype Database = Database(name: string, shard: nat, settings: int)

  /** A mapping, a sharded table or an omnisharded table: what it says, and the database it belongs to. */
  datatype Owned = Owned(database: string, column: string, table: Option<string>, rule: int)

  datatype Mirror = Mirror(sourceDb: string, destinationDb: string, settings: int)

  // ---- exchanging two names ---------------------------------------------------------

  /** What the three passes do to one name. */
  function ThroughTmp(name: string, source: string, destination: string, tmp: string): string {
    var first := if name == source then tmp else name;
    var second := if first == destination then source else first;
    if second == tmp then destination else second
  }

  function Exchange(name: string, source: string, destination: string): string {
    if name == source then destination else if name == destination then source else name
  }

  /** The temporary name gets in the way of this name. */
  predicate Collides(name: string, source: string, destination: string, tmp: string) {
    || (name == tmp && name != source && name != destination)
    || (source != destination && name == source && tmp == destination)
    || (source != destination && name == destination && tmp == source)
  }

  /** The passes exchange the two names exactly when the temporary name does not collide. */
  lemma ExchangesIff(name: string, source: string, destination: string, tmp: string)
    ensures ThroughTmp(name, source, destination, tmp) == Exchange(name, source, destination)
       <==> !Collides(name, source, destination, tmp)
  {
  }

  /** Exchanging is its own inverse and does not depend on which name comes first. */
  lemma ExchangeInvolution(name: string, source: string, destination: string)
    ensures Exchange(Exchange(name, source, destination), source, destination) == name
    ensures Exchange(name, source, destination) == Exchange(name, destination, source)
  {
  }

  /** Reading and writing one field of a record. */
  ghost predicate Lens<T(!new)>(get: T -> string, put: (T, string) -> T) {
    && (forall x, s :: get(put(x, s)) == s)
    && (forall x :: put(x, get(x)) == x)
    && (forall x, s, t :: put(put(x, s), t) == put(x, t))
  }

  function Mapped<T>(items: seq<T>, get: T -> string, put: (T, string) -> T,
                     source: string, destination: string, tmp: string): (r: seq<T>)
    ensures |r| == |items|
  {
    seq(|items|, i requires 0 <= i < |items| => put(items[i], ThroughTmp(get(items[i]), source, destination, tmp)))
  }

  /** One pass over a list: every field equal to `from` becomes `to`. */
  method Replace<T(!new)>(items: seq<T>, get: T -> string, put: (T, string) -> T, from: string, to: string)
    returns (r: seq<T>)
    requires Lens(get, put)
    ensures |r| == |items|
    ensures forall i :: 0 <= i < |items| ==> r[i] == put(items[i], if get(items[i]) == from then to else get(items[i]))
  {
    r := items;
    for k := 0 to |items|
      invariant |r| == |items|
      invariant forall i :: 0 <= i < k ==> r[i] == put(items[i], if get(items[i]) == from then to else get(items[i]))
      invariant forall i :: k <= i < |items| ==> r[i] == items[i]
    {
      if get(r[k]) == from {
        r := r[k := put(r[k], to)];
      }
    }
  }

  method SwapField<T(!new)>(items: seq<T>, get: T -> string, put: (T, string) -> T,
                            source: string, destination: string, tmp: string) returns (r: seq<T>)
    requires Lens(get, put)
    ensures r == Mapped(items, get, put, source, destination, tmp)
  {
    var first := Replace(items, get, put, source, tmp);
    var second := Replace(first, get, put, destination, source);
    r := Replace(second, get, put, tmp, destination);
  }

  function DbName(d: Database): string { d.name }
  function SetDbName(d: Database, s: string): Database { d.(name := s) }
  function Owner(o: Owned): string { o.database }
  function SetOwner(o: Owned, s: string): Owned { o.(database := s) }
  function MirrorSource(m: Mirror): string { m.sourceDb }
  function SetMirrorSource(m: Mirror, s: string): Mirror { m.(sourceDb := s) }
  function MirrorDestination(m: Mirror): string { m.destinationDb }
  function SetMirrorDestination(m: Mirror, s: string): Mirror { m.(destinationDb := s) }

  lemma Lenses()
    ensures Lens(DbName, SetDbName) && Lens(Owner, SetOwner)
    ensures Lens(MirrorSource, SetMirrorSource) && Lens(MirrorDestination, SetMirrorDestination)
  {
  }

  // ---- the whole configuration ---------------------------------------------------------

  /** The lists of the configuration that name databases. */
  datatype Lists = Lists(databases: seq<Database>, mappings: seq<Owned>, tables: seq<Owned>, omnisharded: seq<Owned>,
                         mirroring: seq<Mirror>, schemas: seq<Owned>)

  function RenameDatabases(ds: seq<Database>, a: string, b: string): (r: seq<Database>)
    ensures |r| == |ds|
  {
    seq(|ds|, i requires 0 <= i < |ds| => ds[i].(name := Exchange(ds[i].name, a, b)))
  }

  function RenameOwned(os: seq<Owned>, a: string, b: string): (r: seq<Owned>)
    ensures |r| == |os|
  {
    seq(|os|, i requires 0 <= i < |os| => os[i].(database := Exchange(os[i].database, a, b)))
  }

  function RenameMirrors(ms: seq<Mirror>, a: string, b: string): (r: seq<Mirror>)
    ensures |r| == |ms|
  {
    seq(|ms|, i requires 0 <= i < |ms| =>
      Mirror(Exchange(ms[i].sourceDb, a, b), Exchange(ms[i].destinationDb, a, b), ms[i].settings))
  }

  /** The two names exchanged wherever the cutover looks; schema rules keep the name they had. */
  function Renamed(c: Lists, a: string, b: string): Lists {
    Lists(RenameDatabases(c.databases, a, b), RenameOwned(c.mappings, a, b), RenameOwned(c.tables, a, b),
          RenameOwned(c.omnisharded, a, b), RenameMirrors(c.mirroring, a, b), c.schemas)
  }

  function OwnedNames(os: seq<Owned>): set<string> { set o <- os :: o.database }

  function DatabaseNames(ds: seq<Database>): set<string> { set d <- ds :: d.name }

  function MirrorNames(ms: seq<Mirror>): set<string> {
    (set m <- ms :: m.sourceDb) + (set m <- ms :: m.destinationDb)
  }

  predicate Clear(names: set<string>, source: string, destination: string, tmp: string) {
    forall n <- names :: !Collides(n, source, destination, tmp)
  }

  /** The names the cutover looks at. */
  function Names(c: Lists): set<string> {
    DatabaseNames(c.databases) + OwnedNames(c.mappings) + OwnedNames(c.tables)
    + OwnedNames(c.omnisharded) + MirrorNames(c.mirroring)
  }

  /** The random temporary name is none of the names in play. */
  predicate Fresh(c: Lists, source: string, destination: string, tmp: string) {
    tmp !in Names(c) && tmp != source && tmp != destination
  }

  class Config {
    var databases: seq<Database>
    var shardedMappings: seq<Owned>
    var shardedTables: seq<Owned>
    var omnishardedTables: seq<Owned>
    var mirroring: seq<Mirror>
    var shardedSchemas: seq<Owned>

    function Value(): Lists
      reads this
    {
      Lists(databases, shardedMappings, shardedTables, omnishardedTables, mirroring, shardedSchemas)
    }

    method Cutover(source: string, destination: string, tmp: string)
      modifies this
      ensures Value() == CutOver(old(Value()), source, destination, tmp)
    {
      Lenses();
      databases := SwapField(databases, DbName, SetDbName, source, destination, tmp);
      shardedMappings := SwapField(shardedMappings, Owner, SetOwner, source, destination, tmp);
      shardedTables := SwapField(shardedTables, Owner, SetOwner, source, destination, tmp);
      omnishardedTables := SwapField(omnishardedTables, Owner, SetOwner, source, destination, tmp);
      mirroring := SwapField(mirroring, MirrorSource, SetMirrorSource, source, destination, tmp);
      mirroring := SwapField(mirroring, MirrorDestination, SetMirrorDestination, source, destination, tmp);
    }
  }

  function CutOver(c: Lists, source: string, destination: string, tmp: string): Lists {
    Lists(Mapped(c.databases, DbName, SetDbName, source, destination, tmp),
          Mapped(c.mappings, Owner, SetOwner, source, destination, tmp),
          Mapped(c.tables, Owner, SetOwner, source, destination, tmp),
          Mapped(c.omnisharded, Owner, SetOwner, source, destination, tmp),
          Mapped(Mapped(c.mirroring, MirrorSource, SetMirrorSource, source, destination, tmp),
                 MirrorDestination, SetMirrorDestination, source, destination, tmp),
          c.schemas)
  }

  lemma OwnedExchanged(os: seq<Owned>, source: string, destination: string, tmp: string)
    ensures Mapped(os, Owner, SetOwner, source, destination, tmp) == RenameOwned(os, source, destination)
       <==> Clear(OwnedNames(os), source, destination, tmp)
  {
    var r, s := Mapped(os, Owner, SetOwner, source, destination, tmp), RenameOwned(os, source, destination);
    forall i | 0 <= i < |os| ensures r[i] == s[i] <==> !Collides(os[i].database, source, destination, tmp) {
      ExchangesIff(os[i].database, source, destination, tmp);
      assert r[i] == SetOwner(os[i], ThroughTmp(Owner(os[i]), source, destination, tmp));
    }
    if !Clear(OwnedNames(os), source, destination, tmp) {
      var i :| 0 <= i < |os| && Collides(os[i].database, source, destination, tmp);
      assert r[i] != s[i];
    } else {
      assert forall i :: 0 <= i < |os| ==> os[i].database in OwnedNames(os);
    }
  }

  lemma DatabasesExchanged(ds: seq<Database>, source: string, destination: string, tmp: string)
    ensures Mapped(ds, DbName, SetDbName, source, destination, tmp) == RenameDatabases(ds, source, destination)
       <==> Clear(DatabaseNames(ds), source, destination, tmp)
  {
    var r, s := Mapped(ds, DbName, SetDbName, source, destination, tmp), RenameDatabases(ds, source, destination);
    forall i | 0 <= i < |ds| ensures r[i] == s[i] <==> !Collides(ds[i].name, source, destination, tmp) {
      ExchangesIff(ds[i].name, source, destination, tmp);
      assert r[i] == SetDbName(ds[i], ThroughTmp(DbName(ds[i]), source, destination, tmp));
    }
    if !Clear(DatabaseNames(ds), source, destination, tmp) {
      var i :| 0 <= i < |ds| && Collides(ds[i].name, source, destination, tmp);
      assert r[i] != s[i];
    } else {
      assert forall i :: 0 <= i < |ds| ==> ds[i].name in DatabaseNames(ds);
    }
  }

  lemma MirrorsExchanged(ms: seq<Mirror>, source: string, destination: string, tmp: string)
    ensures Mapped(Mapped(ms, MirrorSource, SetMirrorSource, source, destination, tmp),
                   MirrorDestination, SetMirrorDestination, source, destination, tmp) == RenameMirrors(ms, source, destination)
       <==> Clear(MirrorNames(ms), source, destination, tmp)
  {
    var half := Mapped(ms, MirrorSource, SetMirrorSource, source, destination, tmp);
    var r := Mapped(half, MirrorDestination, SetMirrorDestination, source, destination, tmp);
    var s := RenameMirrors(ms, source, destination);
    forall i | 0 <= i < |ms|
      ensures r[i] == s[i]
         <==> !Collides(ms[i].sourceDb, source, destination, tmp) && !Collides(ms[i].destinationDb, source, destination, tmp)
    {
      ExchangesIff(ms[i].sourceDb, source, destination, tmp);
      ExchangesIff(ms[i].destinationDb, source, destination, tmp);
      assert half[i] == SetMirrorSource(ms[i], ThroughTmp(MirrorSource(ms[i]), source, destination, tmp));
      assert r[i] == SetMirrorDestination(half[i], ThroughTmp(MirrorDestination(half[i]), source, destination, tmp));
    }
    if !Clear(MirrorNames(ms), source, destination, tmp) {
      var i :| 0 <= i < |ms| &&
        (Collides(ms[i].sourceDb, source, destination, tmp) || Collides(ms[i].destinationDb, source, destination, tmp));
      assert r[i] != s[i];
    } else {
      assert forall i :: 0 <= i < |ms| ==> ms[i].sourceDb in MirrorNames(ms) && ms[i].destinationDb in MirrorNames(ms);
    }
  }

  /** The cutover exchanges the two names everywhere exactly when the temporary name collides with none. */
  lemma CutoverExchangesIff(c: Lists, source: string, destination: string, tmp: string)
    ensures CutOver(c, source, destination, tmp) == Renamed(c, source, destination)
       <==> Clear(Names(c), source, destination, tmp)
  {
    hide Mapped, RenameDatabases, RenameOwned, RenameMirrors;
    DatabasesExchanged(c.databases, source, destination, tmp);
    OwnedExchanged(c.mappings, source, destination, tmp);
    OwnedExchanged(c.tables, source, destination, tmp);
    OwnedExchanged(c.omnisharded, source, destination, tmp);
    MirrorsExchanged(c.mirroring, source, destination, tmp);
  }

  /** What a cutover that also looked at schema rules would give. */
  function RenamedThroughout(c: Lists, a: string, b: string): Lists {
    Renamed(c, a, b).(schemas := RenameOwned(c.schemas, a, b))
  }

  lemma RenameLeavesIff(os: seq<Owned>, a: string, b: string)
    ensures RenameOwned(os, a, b) == os <==> a == b || (a !in OwnedNames(os) && b !in OwnedNames(os))
  {
    var r := RenameOwned(os, a, b);
    forall i | 0 <= i < |os|
      ensures r[i] == os[i] <==> a == b || (os[i].database != a && os[i].database != b)
    {
    }
    if r == os && a != b {
      forall i | 0 <= i < |os|
        ensures os[i].database != a && os[i].database != b
      {
        assert r[i] == os[i];
      }
    }
    if a == b || (a !in OwnedNames(os) && b !in OwnedNames(os)) {
      forall i | 0 <= i < |os|
        ensures r[i] == os[i]
      {
        assert os[i].database in OwnedNames(os);
      }
    }
  }

  /**
   The cutover is a renaming of the whole configuration exactly when the temporary name collides
   with nothing and there is no schema rule for it to leave behind.
   */
  lemma CutoverRenamesThroughoutIff(c: Lists, source: string, destination: string, tmp: string)
    ensures CutOver(c, source, destination, tmp) == RenamedThroughout(c, source, destination) <==>
            && Clear(Names(c), source, destination, tmp)
            && (source == destination || (source !in OwnedNames(c.schemas) && destination !in OwnedNames(c.schemas)))
  {
    hide Mapped, RenameDatabases, RenameOwned, RenameMirrors, Names, OwnedNames;
    CutoverExchangesIff(c, source, destination, tmp);
    RenameLeavesIff(c.schemas, source, destination);
  }

  lemma RenamedInvolution(c: Lists, a: string, b: string)
    ensures Renamed(Renamed(c, a, b), a, b) == c
    ensures Renamed(c, a, b) == Renamed(c, b, a)
  {
    var r := Renamed(Renamed(c, a, b), a, b);
    assert r.databases == c.databases && r.mappings == c.mappings && r.tables == c.tables;
    assert r.omnisharded == c.omnisharded && r.mirroring == c.mirroring;
    var x, y := Renamed(c, a, b), Renamed(c, b, a);
    assert x.databases == y.databases && x.mappings == y.mappings && x.tables == y.tables;
    assert x.omnisharded == y.omnisharded && x.mirroring == y.mirroring;
  }

  lemma OwnedStaysFresh(os: seq<Owned>, a: string, b: string, tmp: string)
    requires tmp !in OwnedNames(os) && tmp != a && tmp != b
    ensures tmp !in OwnedNames(RenameOwned(os, a, b))
  {
    forall i | 0 <= i < |os| ensures RenameOwned(os, a, b)[i].database != tmp {
      assert os[i].database in OwnedNames(os);
    }
  }

  lemma DatabasesStayFresh(ds: seq<Database>, a: string, b: string, tmp: string)
    requires tmp !in DatabaseNames(ds) && tmp != a && tmp != b
    ensures tmp !in DatabaseNames(RenameDatabases(ds, a, b))
  {
    forall i | 0 <= i < |ds| ensures RenameDatabases(ds, a, b)[i].name != tmp {
      assert ds[i].name in DatabaseNames(ds);
    }
  }

  lemma MirrorsStayFresh(ms: seq<Mirror>, a: string, b: string, tmp: string)
    requires tmp !in MirrorNames(ms) && tmp != a && tmp != b
    ensures tmp !in MirrorNames(RenameMirrors(ms, a, b))
  {
    forall i | 0 <= i < |ms|
      ensures RenameMirrors(ms, a, b)[i].sourceDb != tmp && RenameMirrors(ms, a, b)[i].destinationDb != tmp
    {
      assert ms[i].sourceDb in MirrorNames(ms) && ms[i].destinationDb in MirrorNames(ms);
    }
  }

  lemma RenamedNames(c: Lists, a: string, b: string, tmp: string)
    requires Fresh(c, a, b, tmp)
    ensures Fresh(Renamed(c, a, b), a, b, tmp)
  {
    hide RenameDatabases, RenameOwned, RenameMirrors, Exchange;
    DatabasesStayFresh(c.databases, a, b, tmp);
    OwnedStaysFresh(c.mappings, a, b, tmp);
    OwnedStaysFresh(c.tables, a, b, tmp);
    OwnedStaysFresh(c.omnisharded, a, b, tmp);
    MirrorsStayFresh(c.mirroring, a, b, tmp);
  }

  lemma FreshIsClear(c: Lists, source: string, destination: string, tmp: string)
    requires Fresh(c, source, destination, tmp)
    ensures Clear(Names(c), source, destination, tmp)
  {
    hide Names;
  }

  /** Cutting over and back, in either direction and with whatever temporary names, restores the configuration. */
  lemma CutoverUndone(c: Lists, a: string, b: string, tmp: string, tmp': string)
    requires Fresh(c, a, b, tmp) && Fresh(c, a, b, tmp')
    ensures CutOver(CutOver(c, a, b, tmp), a, b, tmp') == c
    ensures CutOver(CutOver(c, a, b, tmp), b, a, tmp') == c
  {
    hide CutOver, Renamed, Names;
    FreshIsClear(c, a, b, tmp);
    RenamedNames(c, a, b, tmp');
    FreshIsClear(Renamed(c, a, b), a, b, tmp');
    FreshIsClear(Renamed(c, a, b), b, a, tmp');
    CutoverExchangesIff(c, a, b, tmp);
    CutoverExchangesIff(Renamed(c, a, b), a, b, tmp');
    CutoverExchangesIff(Renamed(c, a, b), b, a, tmp');
    RenamedInvolution(c, a, b);
    RenamedInvolution(Renamed(c, a, b), a, b);
  }

  // ---- grouping ----------------------------------------------------------------------

  datatype Enumerated = Enumerated(number: nat, database: Database)

  /** The databases of one name and shard, in configuration order, with their positions. */
  function Slot(ds: seq<Database>, name: string, shard: nat): seq<Enumerated> {
    if ds == [] then []
    else
      var n := |ds| - 1;
      Slot(ds[..n], name, shard) + if ds[n].name == name && ds[n].shard == shard then [Enumerated(n, ds[n])] else []
  }

  /** One more than the highest shard of a name; zero if the name does not occur. */
  function Width(ds: seq<Database>, name: string): nat {
    if ds == [] then 0
    else
      var n := |ds| - 1;
      var w := Width(ds[..n], name);
      if ds[n].name == name && ds[n].shard >= w then ds[n].shard + 1 else w
  }

  /** Every entry of a slot is the database at its position, of that name and shard; positions ascend. */
  lemma {:induction false} SlotSound(ds: seq<Database>, name: string, shard: nat)
    ensures forall e <- Slot(ds, name, shard) ::
              e.number < |ds| && e.database == ds[e.number] && e.database.name == name && e.database.shard == shard
    ensures forall i, j :: 0 <= i < j < |Slot(ds, name, shard)| ==>
              Slot(ds, name, shard)[i].number < Slot(ds, name, shard)[j].number
  {
    if ds != [] {
      SlotSound(ds[..|ds| - 1], name, shard);
    }
  }

  /** Every database is in the slot of its name and shard, and that slot exists. */
  lemma {:induction false} SlotComplete(ds: seq<Database>, k: nat)
    requires k < |ds|
    ensures Enumerated(k, ds[k]) in Slot(ds, ds[k].name, ds[k].shard)
    ensures ds[k].shard < Width(ds, ds[k].name)
  {
    if k < |ds| - 1 {
      SlotComplete(ds[..|ds| - 1], k);
    }
  }

  lemma {:induction false} WidthTight(ds: seq<Database>, name: string)
    ensures Width(ds, name) == 0 <==> forall d <- ds :: d.name != name
    ensures Width(ds, name) > 0 ==> exists d <- ds :: d.name == name && d.shard == Width(ds, name) - 1
  {
    if ds != [] {
      var n := |ds| - 1;
      WidthTight(ds[..n], name);
      assert ds == ds[..n] + [ds[n]];
    }
  }

  lemma {:induction false} SlotBeyondWidth(ds: seq<Database>, name: string, shard: nat)
    requires shard >= Width(ds, name)
    ensures Slot(ds, name, shard) == []
  {
    if ds != [] {
      SlotBeyondWidth(ds[..|ds| - 1], name, shard);
    }
  }

  ghost predicate Grouped(ds: seq<Database>, groups: map<string, seq<seq<Enumerated>>>) {
    && (forall name :: name in groups <==> Width(ds, name) > 0)
    && (forall name <- groups :: |groups[name]| == Width(ds, name))
    && (forall name <- groups, s :: 0 <= s < |groups[name]| ==> groups[name][s] == Slot(ds, name, s))
  }

  lemma Snoc(ds: seq<Database>, d: Database, name: string, shard: nat)
    ensures Slot(ds + [d], name, shard)
         == Slot(ds, name, shard) + if d.name == name && d.shard == shard then [Enumerated(|ds|, d)] else []
    ensures Width(ds + [d], name) == if d.name == name && d.shard >= Width(ds, name) then d.shard + 1 else Width(ds, name)
  {
    assert (ds + [d])[..|ds|] == ds;
  }

  /** The entry with one database pushed onto its shard, shards in between created empty. */
  predicate Pushed(before: seq<seq<Enumerated>>, entry: seq<seq<Enumerated>>, shard: nat, e: Enumerated) {
    && |entry| == (if shard < |before| then |before| else shard + 1)
    && forall s :: 0 <= s < |entry| ==>
         entry[s] == (if s < |before| then before[s] else []) + if s == shard then [e] else []
  }

  lemma GroupStep(ds: seq<Database>, d: Database, entry: seq<seq<Enumerated>>, groups: map<string, seq<seq<Enumerated>>>)
    requires Grouped(ds, groups)
    requires Pushed(if d.name in groups then groups[d.name] else [], entry, d.shard, Enumerated(|ds|, d))
    ensures Grouped(ds + [d], groups[d.name := entry])
  {
    hide Slot, Width;
    var after := groups[d.name := entry];
    forall name
      ensures name in after <==> Width(ds + [d], name) > 0
      ensures name in after ==> |after[name]| == Width(ds + [d], name)
    {
      Snoc(ds, d, name, 0);
    }
    forall name, s | name in after && 0 <= s < |after[name]| ensures after[name][s] == Slot(ds + [d], name, s) {
      Snoc(ds, d, name, s);
      if s >= Width(ds, name) {
        SlotBeyondWidth(ds, name, s);
      }
    }
  }

  /** The databases organised by name and shard number. */
  method Databases(ds: seq<Database>) returns (groups: map<string, seq<seq<Enumerated>>>)
    ensures Grouped(ds, groups)
  {
    groups := map[];
    assert ds[..|ds|] == ds;
    for number := 0 to |ds|
      invariant Grouped(ds[..number], groups)
    {
      var database := ds[number];
      var entry := if database.name in groups then groups[database.name] else [];
      ghost var before := entry;
      while |entry| <= database.shard
        invariant |before| <= |entry| && forall s :: 0 <= s < |before| ==> entry[s] == before[s]
        invariant |entry| <= |before| || |entry| <= database.shard + 1
        invariant forall s :: |before| <= s < |entry| ==> entry[s] == []
        decreases database.shard + 1 - |entry|
      {
        entry := entry + [[]];
      }
      entry := entry[database.shard := entry[database.shard] + [Enumerated(number, database)]];
      GroupStep(ds[..number], database, entry, groups);
      groups := groups[database.name := entry];
      assert ds[..number + 1] == ds[..number] + [database];
    }
  }

  function RenameEntries(es: seq<Enumerated>, a: string, b: string): (r: seq<Enumerated>)
    ensures |r| == |es|
  {
    seq(|es|, i requires 0 <= i < |es| =>
      Enumerated(es[i].number, es[i].database.(name := Exchange(es[i].database.name, a, b))))
  }

  /** Grouping after an exchange of names is the old grouping under the other name, shard by shard. */
  lemma {:induction false} GroupingFollowsExchange(ds: seq<Database>, a: string, b: string, name: string, shard: nat)
    ensures var r := RenameDatabases(ds, a, b);
            && Slot(r, Exchange(name, a, b), shard) == RenameEntries(Slot(ds, name, shard), a, b)
            && Width(r, Exchange(name, a, b)) == Width(ds, name)
  {
    if ds != [] {
      var n := |ds| - 1;
      GroupingFollowsExchange(ds[..n], a, b, name, shard);
      assert RenameDatabases(ds, a, b)[..n] == RenameDatabases(ds[..n], a, b);
      ExchangeInvolution(ds[n].name, a, b);
      ExchangeInvolution(name, a, b);
    }
  }

  // ---- grouping the other lists ----------------------------------------------------------

  /** The items of one key, in configuration order. */
  function Having<K(==), T>(items: seq<T>, key: T -> K, k: K): seq<T> {
    if items == [] then []
    else
      var n := |items| - 1;
      Having(items[..n], key, k) + if key(items[n]) == k then [items[n]] else []
  }

  ghost predicate GroupedBy<K(!new), T>(items: seq<T>, key: T -> K, groups: map<K, seq<T>>) {
    && (forall k :: k in groups <==> Having(items, key, k) != [])
    && (forall k <- groups :: groups[k] == Having(items, key, k))
  }

  /** Tables, mappings and mirrors organised by key. */
  method GroupBy<K(==, !new), T>(items: seq<T>, key: T -> K) returns (groups: map<K, seq<T>>)
    ensures GroupedBy(items, key, groups)
  {
    groups := map[];
    assert items[..|items|] == items;
    for i := 0 to |items|
      invariant GroupedBy(items[..i], key, groups)
    {
      assert items[..i + 1][..i] == items[..i];
      var k := key(items[i]);
      var entry := if k in groups then groups[k] else [];
      groups := groups[k := entry + [items[i]]];
    }
  }

  /** The rules of a name after an exchange are the old rules of the other name, renamed. */
  lemma {:induction false} RulesFollowExchange(os: seq<Owned>, a: string, b: string, name: string)
    ensures Having(RenameOwned(os, a, b), Owner, Exchange(name, a, b)) == RenameOwned(Having(os, Owner, name), a, b)
  {
    if os != [] {
      var n := |os| - 1;
      RulesFollowExchange(os[..n], a, b, name);
      assert RenameOwned(os, a, b)[..n] == RenameOwned(os[..n], a, b);
      ExchangeInvolution(Owner(os[n]), a, b);
      ExchangeInvolution(name, a, b);
    }
  }

  /** Mappings are looked up by database, column and table. */
  function MappingKey(o: Owned): (string, string, Option<string>) {
    (o.database, o.column, o.table)
  }

  /** The mappings of a column and table of a name after an exchange are the other name's, renamed. */
  lemma {:induction false} MappingsFollowExchange(os: seq<Owned>, a: string, b: string, name: string,
                                                  column: string, table: Option<string>)
    ensures Having(RenameOwned(os, a, b), MappingKey, (Exchange(name, a, b), column, table))
         == RenameOwned(Having(os, MappingKey, (name, column, table)), a, b)
  {
    if os != [] {
      var n := |os| - 1;
      MappingsFollowExchange(os[..n], a, b, name, column, table);
      assert RenameOwned(os, a, b)[..n] == RenameOwned(os[..n], a, b);
      ExchangeInvolution(os[n].database, a, b);
      ExchangeInvolution(name, a, b);
    }
  }

  /** So are the mirrors of a source. */
  lemma {:induction false} MirrorsFollowExchange(ms: seq<Mirror>, a: string, b: string, name: string)
    ensures Having(RenameMirrors(ms, a, b), MirrorSource, Exchange(name, a, b))
         == RenameMirrors(Having(ms, MirrorSource, name), a, b)
  {
    if ms != [] {
      var n := |ms| - 1;
      MirrorsFollowExchange(ms[..n], a, b, name);
      assert RenameMirrors(ms, a, b)[..n] == RenameMirrors(ms[..n], a, b);
      ExchangeInvolution(MirrorSource(ms[n]), a, b);
      ExchangeInvolution(name, a, b);
    }
  }
}
