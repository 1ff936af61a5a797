/** The ordering of column values, which merges rows coming from several shards. */
module DatumOrder {
  import opened Common
  import opened IntervalBinary

  datatype Ordering = Less | Equal | Greater

  function Reverse(o: Ordering): Ordering {
    match o case Less => Greater case Equal => Equal case Greater => Less
  }

  /** The first comparison, or the second where the first does not decide. */
  function Then(o: Ordering, o': Ordering): Ordering {
    if o == Equal then o' else o
  }

  /** Floats by value: the two zeros compare equal and are one value here. */
  datatype Float = NaN | NegInfinity | Finite(value: real) | PosInfinity

  datatype Number = NotANumber | Number(value: real)

  /** `special` is `Some(true)` for infinity and `Some(false)` for minus infinity. */
  datatype Timestamp = Timestamp(fields: Fields, offset: Option<int>, special: Option<bool>)

  datatype Fields = Fields(year: int, month: int, day: int, hour: int, minute: int, second: int, micros: int)

  datatype Datum =
    | Bigint(i: int)
    | Integer(i: int)
    | SmallInt(i: int)
    | Period(period: Interval)
    | Text(bytes: seq<int>)
    | Stamp(at: Timestamp)
    | StampTz(at: Timestamp)
    | Uuid(bytes: seq<int>)
    | Numeric(number: Number)
    | Real(float: Float)
    | Double(float: Float)
    | Vector(floats: seq<Float>)
    | Oid(i: int)
    | Array(elements: seq<Option<Datum>>, elementOid: int, size: int, lowerBound: int)
    | Unknown(bytes: seq<int>)
    | Null
    | Boolean(b: bool)

  // ---- comparison -------------------------------------------------------------------

  function CmpInt(a: int, b: int): Ordering {
    if a < b then Less else if a > b then Greater else Equal
  }

  function CmpReal(a: real, b: real): Ordering {
    if a < b then Less else if a > b then Greater else Equal
  }

  function CmpBool(a: bool, b: bool): Ordering {
    if a == b then Equal else if b then Less else Greater
  }

  function CmpFloat(a: Float, b: Float): Ordering {
    if a.NaN? || b.NaN? then CmpBool(a.NaN?, b.NaN?)
    else if a == b then Equal
    else if a.NegInfinity? || b.PosInfinity? then Less
    else if b.NegInfinity? || a.PosInfinity? then Greater
    else CmpReal(a.value, b.value)
  }

  function CmpNumber(a: Number, b: Number): Ordering {
    match (a, b)
    case (Number(x), Number(y)) => CmpReal(x, y)
    case (NotANumber, NotANumber) => Equal
    case (NotANumber, _) => Greater
    case (_, NotANumber) => Less
  }

  /** Lexicographic, a proper prefix first. */
  function Lex<T>(cmp: (T, T) -> Ordering, xs: seq<T>, ys: seq<T>): Ordering {
    if xs == [] || ys == [] then CmpInt(|xs|, |ys|)
    else Then(cmp(xs[0], ys[0]), Lex(cmp, xs[1..], ys[1..]))
  }

  function IntervalFields(v: Interval): seq<int> {
    [v.years, v.months, v.days, v.hours, v.minutes, v.seconds, v.micros]
  }

  function StampFields(v: Fields): seq<int> {
    [v.year, v.month, v.day, v.hour, v.minute, v.second, v.micros]
  }

  function CmpTimestamp(a: Timestamp, b: Timestamp): Ordering {
    if a.special == None && b.special == None then Lex(CmpInt, StampFields(a.fields), StampFields(b.fields))
    else if a.special == Some(false) then Less
    else if b.special == Some(false) then Greater
    else if a.special == Some(true) then Greater
    else Less
  }

  function VariantIndex(d: Datum): int {
    match d
    case Bigint(_) => 0
    case Integer(_) => 1
    case SmallInt(_) => 2
    case Period(_) => 3
    case Text(_) => 4
    case Stamp(_) => 5
    case StampTz(_) => 6
    case Uuid(_) => 7
    case Numeric(_) => 8
    case Real(_) => 9
    case Double(_) => 10
    case Vector(_) => 11
    case Oid(_) => 12
    case Array(_, _, _, _) => 13
    case Unknown(_) => 14
    case Null => 15
    case Boolean(_) => 16
  }

  /** Two scalars of one variant. */
  function CmpScalar(a: Datum, b: Datum): Ordering
    requires VariantIndex(a) == VariantIndex(b) && !a.Array?
  {
    match a
    case Bigint(x) => CmpInt(x, b.i)
    case Integer(x) => CmpInt(x, b.i)
    case SmallInt(x) => CmpInt(x, b.i)
    case Period(x) => Lex(CmpInt, IntervalFields(x), IntervalFields(b.period))
    case Text(x) => Lex(CmpInt, x, b.bytes)
    case Stamp(x) => CmpTimestamp(x, b.at)
    case StampTz(x) => CmpTimestamp(x, b.at)
    case Uuid(x) => Lex(CmpInt, x, b.bytes)
    case Numeric(x) => CmpNumber(x, b.number)
    case Real(x) => CmpFloat(x, b.float)
    case Double(x) => CmpFloat(x, b.float)
    case Vector(x) => Lex(CmpFloat, x, b.floats)
    case Oid(x) => CmpInt(x, b.i)
    case Unknown(x) => Lex(CmpInt, x, b.bytes)
    case Null => Equal
    case Boolean(x) => CmpBool(x, b.b)
  }

  function CmpShape(a: Datum, b: Datum): Ordering
    requires a.Array? && b.Array?
  {
    Then(CmpInt(a.elementOid, b.elementOid), Then(CmpInt(a.size, b.size), CmpInt(a.lowerBound, b.lowerBound)))
  }

  /** Different variants by their position; arrays by elements, then element type, then bounds. */
  function Cmp(a: Datum, b: Datum): Ordering
    decreases a
  {
    if VariantIndex(a) != VariantIndex(b) then CmpInt(VariantIndex(a), VariantIndex(b))
    else if a.Array? then Then(CmpElements(a.elements, b.elements), CmpShape(a, b))
    else CmpScalar(a, b)
  }

  function CmpOption(a: Option<Datum>, b: Option<Datum>): Ordering
    decreases a
  {
    if a.Some? && b.Some? then Cmp(a.value, b.value) else CmpBool(a.Some?, b.Some?)
  }

  function CmpElements(xs: seq<Option<Datum>>, ys: seq<Option<Datum>>): Ordering
    decreases xs
  {
    if xs == [] || ys == [] then CmpInt(|xs|, |ys|)
    else Then(CmpOption(xs[0], ys[0]), CmpElements(xs[1..], ys[1..]))
  }

  // ---- transitivity ---------------------------------------------------------------------

  /** Comparisons of a with b, b with c and a with c that a transitive order can give. */
  predicate Consistent(ab: Ordering, bc: Ordering, ac: Ordering) {
    && (ab == Equal ==> ac == bc)
    && (bc == Equal ==> ac == ab)
    && (ab == bc ==> ac == ab)
  }

  lemma ThenConsistent(x: Ordering, y: Ordering, z: Ordering, x': Ordering, y': Ordering, z': Ordering)
    requires Consistent(x, y, z) && Consistent(x', y', z')
    ensures Consistent(Then(x, x'), Then(y, y'), Then(z, z'))
  {
  }

  ghost predicate Transitive<T(!new)>(cmp: (T, T) -> Ordering) {
    forall a, b, c :: Consistent(cmp(a, b), cmp(b, c), cmp(a, c))
  }

  lemma {:induction false} LexTransitive<T(!new)>(cmp: (T, T) -> Ordering, xs: seq<T>, ys: seq<T>, zs: seq<T>)
    requires Transitive(cmp)
    ensures Consistent(Lex(cmp, xs, ys), Lex(cmp, ys, zs), Lex(cmp, xs, zs))
  {
    if xs != [] && ys != [] && zs != [] {
      LexTransitive(cmp, xs[1..], ys[1..], zs[1..]);
      ThenConsistent(cmp(xs[0], ys[0]), cmp(ys[0], zs[0]), cmp(xs[0], zs[0]),
                     Lex(cmp, xs[1..], ys[1..]), Lex(cmp, ys[1..], zs[1..]), Lex(cmp, xs[1..], zs[1..]));
    }
  }

  lemma IntsTransitive(xs: seq<int>, ys: seq<int>, zs: seq<int>)
    ensures Consistent(Lex(CmpInt, xs, ys), Lex(CmpInt, ys, zs), Lex(CmpInt, xs, zs))
  {
    LexTransitive(CmpInt, xs, ys, zs);
  }

  lemma FloatsTransitive(xs: seq<Float>, ys: seq<Float>, zs: seq<Float>)
    ensures Consistent(Lex(CmpFloat, xs, ys), Lex(CmpFloat, ys, zs), Lex(CmpFloat, xs, zs))
  {
    LexTransitive(CmpFloat, xs, ys, zs);
  }

  lemma ThreeSpecials(o: Option<bool>)
    ensures o == None || o == Some(true) || o == Some(false)
  {
    if o.Some? {
      if o.value {} else {}
    }
  }

  lemma TimestampTransitive(a: Timestamp, b: Timestamp, c: Timestamp)
    ensures Consistent(CmpTimestamp(a, b), CmpTimestamp(b, c), CmpTimestamp(a, c))
  {
    hide Lex, StampFields;
    ThreeSpecials(a.special);
    ThreeSpecials(b.special);
    ThreeSpecials(c.special);
    IntsTransitive(StampFields(a.fields), StampFields(b.fields), StampFields(c.fields));
  }

  lemma ScalarTransitive(a: Datum, b: Datum, c: Datum)
    requires VariantIndex(a) == VariantIndex(b) == VariantIndex(c) && !a.Array?
    ensures Consistent(CmpScalar(a, b), CmpScalar(b, c), CmpScalar(a, c))
  {
    hide Lex, CmpTimestamp;
    match a
    case Period(x) => IntsTransitive(IntervalFields(x), IntervalFields(b.period), IntervalFields(c.period));
    case Text(x) => IntsTransitive(x, b.bytes, c.bytes);
    case Uuid(x) => IntsTransitive(x, b.bytes, c.bytes);
    case Unknown(x) => IntsTransitive(x, b.bytes, c.bytes);
    case Vector(x) => FloatsTransitive(x, b.floats, c.floats);
    case Stamp(x) => TimestampTransitive(x, b.at, c.at);
    case StampTz(x) => TimestampTransitive(x, b.at, c.at);
    case _ =>
  }

  lemma ShapeTransitive(a: Datum, b: Datum, c: Datum)
    requires a.Array? && b.Array? && c.Array?
    ensures Consistent(CmpShape(a, b), CmpShape(b, c), CmpShape(a, c))
  {
  }

  /** Comparison is transitive on every datum, infinities and nested arrays included. */
  lemma {:induction false} CmpTransitive(a: Datum, b: Datum, c: Datum)
    ensures Consistent(Cmp(a, b), Cmp(b, c), Cmp(a, c))
    decreases a
  {
    hide CmpScalar, CmpShape, CmpElements, Consistent;
    var i, j, k := VariantIndex(a), VariantIndex(b), VariantIndex(c);
    if !(i == j == k) {
      MixedTransitive(a, b, c);
    } else if a.Array? {
      ElementsTransitive(a.elements, b.elements, c.elements);
      ShapeTransitive(a, b, c);
      ThenConsistent(CmpElements(a.elements, b.elements), CmpElements(b.elements, c.elements), CmpElements(a.elements, c.elements),
                     CmpShape(a, b), CmpShape(b, c), CmpShape(a, c));
    } else {
      ScalarTransitive(a, b, c);
    }
  }

  lemma MixedTransitive(a: Datum, b: Datum, c: Datum)
    requires !(VariantIndex(a) == VariantIndex(b) == VariantIndex(c))
    ensures Consistent(Cmp(a, b), Cmp(b, c), Cmp(a, c))
  {
    hide VariantIndex, CmpScalar, CmpShape, CmpElements;
    if VariantIndex(a) == VariantIndex(b) || VariantIndex(b) == VariantIndex(c) {
    }
  }

  lemma {:induction false} OptionTransitive(a: Option<Datum>, b: Option<Datum>, c: Option<Datum>)
    ensures Consistent(CmpOption(a, b), CmpOption(b, c), CmpOption(a, c))
    decreases a
  {
    hide Cmp;
    if a.Some? && b.Some? && c.Some? {
      CmpTransitive(a.value, b.value, c.value);
    }
  }

  lemma {:induction false} ElementsTransitive(xs: seq<Option<Datum>>, ys: seq<Option<Datum>>, zs: seq<Option<Datum>>)
    ensures Consistent(CmpElements(xs, ys), CmpElements(ys, zs), CmpElements(xs, zs))
    decreases xs
  {
    hide CmpOption;
    if xs != [] && ys != [] && zs != [] {
      OptionTransitive(xs[0], ys[0], zs[0]);
      ElementsTransitive(xs[1..], ys[1..], zs[1..]);
      ThenConsistent(CmpOption(xs[0], ys[0]), CmpOption(ys[0], zs[0]), CmpOption(xs[0], zs[0]),
                     CmpElements(xs[1..], ys[1..]), CmpElements(ys[1..], zs[1..]), CmpElements(xs[1..], zs[1..]));
    }
  }

  // ---- antisymmetry and equality --------------------------------------------------------

  /** No timestamp in the datum is infinite. */
  predicate Bounded(d: Datum)
    decreases d
  {
    match d
    case Stamp(t) => t.special == None
    case StampTz(t) => t.special == None
    case Array(xs, _, _, _) => AllBounded(xs)
    case _ => true
  }

  predicate BoundedOption(o: Option<Datum>)
    decreases o
  {
    o.Some? ==> Bounded(o.value)
  }

  predicate AllBounded(xs: seq<Option<Datum>>)
    decreases xs
  {
    xs == [] || (BoundedOption(xs[0]) && AllBounded(xs[1..]))
  }

  /** The comparison is decided between two equal infinities. */
  predicate Clash(a: Datum, b: Datum)
    decreases a
  {
    && VariantIndex(a) == VariantIndex(b)
    && match a
       case Stamp(t) => t.special.Some? && t.special == b.at.special
       case StampTz(t) => t.special.Some? && t.special == b.at.special
       case Array(xs, _, _, _) => ElementsClash(xs, b.elements)
       case _ => false
  }

  predicate OptionClash(a: Option<Datum>, b: Option<Datum>)
    decreases a
  {
    a.Some? && b.Some? && Clash(a.value, b.value)
  }

  /** The first elements that do not compare equal clash. */
  predicate ElementsClash(xs: seq<Option<Datum>>, ys: seq<Option<Datum>>)
    decreases xs
  {
    && xs != [] && ys != []
    && (OptionClash(xs[0], ys[0]) || (CmpOption(xs[0], ys[0]) == Equal && ElementsClash(xs[1..], ys[1..])))
  }

  lemma {:induction false} IntsReverse(xs: seq<int>, ys: seq<int>)
    ensures Lex(CmpInt, ys, xs) == Reverse(Lex(CmpInt, xs, ys))
  {
    if xs != [] && ys != [] { IntsReverse(xs[1..], ys[1..]); }
  }

  lemma {:induction false} FloatsReverse(xs: seq<Float>, ys: seq<Float>)
    ensures Lex(CmpFloat, ys, xs) == Reverse(Lex(CmpFloat, xs, ys))
  {
    if xs != [] && ys != [] { FloatsReverse(xs[1..], ys[1..]); }
  }

  lemma TimestampReverse(a: Timestamp, b: Timestamp)
    ensures CmpTimestamp(b, a) == Reverse(CmpTimestamp(a, b)) <==> !(a.special.Some? && a.special == b.special)
    ensures a.special.Some? && a.special == b.special ==> CmpTimestamp(a, b) == CmpTimestamp(b, a) != Equal
  {
    hide Lex, StampFields;
    ThreeSpecials(a.special);
    ThreeSpecials(b.special);
    IntsReverse(StampFields(a.fields), StampFields(b.fields));
  }

  lemma ScalarReverse(a: Datum, b: Datum)
    requires VariantIndex(a) == VariantIndex(b) && !a.Array?
    ensures CmpScalar(b, a) == Reverse(CmpScalar(a, b)) <==> !Clash(a, b)
    ensures Clash(a, b) ==> CmpScalar(a, b) == CmpScalar(b, a) != Equal
  {
    hide Lex, CmpTimestamp;
    match a
    case Period(x) => IntsReverse(IntervalFields(x), IntervalFields(b.period));
    case Text(x) => IntsReverse(x, b.bytes);
    case Uuid(x) => IntsReverse(x, b.bytes);
    case Unknown(x) => IntsReverse(x, b.bytes);
    case Vector(x) => FloatsReverse(x, b.floats);
    case Stamp(x) => TimestampReverse(x, b.at);
    case StampTz(x) => TimestampReverse(x, b.at);
    case _ =>
  }

  /** Swapping the operands reverses the comparison exactly when equal infinities do not decide it. */
  lemma {:induction false} CmpReverseIff(a: Datum, b: Datum)
    ensures Cmp(b, a) == Reverse(Cmp(a, b)) <==> !Clash(a, b)
    ensures Clash(a, b) ==> Cmp(a, b) == Cmp(b, a) != Equal
    decreases a
  {
    hide CmpScalar, CmpElements, ElementsClash;
    if VariantIndex(a) == VariantIndex(b) {
      if a.Array? {
        ElementsReverseIff(a.elements, b.elements);
      } else {
        hide Clash;
        ScalarReverse(a, b);
      }
    }
  }

  lemma {:induction false} OptionReverseIff(a: Option<Datum>, b: Option<Datum>)
    ensures CmpOption(b, a) == Reverse(CmpOption(a, b)) <==> !OptionClash(a, b)
    ensures OptionClash(a, b) ==> CmpOption(a, b) == CmpOption(b, a) != Equal
    decreases a
  {
    hide Cmp, Clash;
    if a.Some? && b.Some? { CmpReverseIff(a.value, b.value); }
  }

  lemma {:induction false} ElementsReverseIff(xs: seq<Option<Datum>>, ys: seq<Option<Datum>>)
    ensures CmpElements(ys, xs) == Reverse(CmpElements(xs, ys)) <==> !ElementsClash(xs, ys)
    ensures ElementsClash(xs, ys) ==> CmpElements(xs, ys) == CmpElements(ys, xs) != Equal
    decreases xs
  {
    hide CmpOption, OptionClash;
    if xs != [] && ys != [] {
      OptionReverseIff(xs[0], ys[0]);
      ElementsReverseIff(xs[1..], ys[1..]);
    }
  }

  /** A datum without infinite timestamps clashes with nothing. */
  lemma {:induction false} BoundedNeverClashes(a: Datum, b: Datum)
    requires Bounded(a) || Bounded(b)
    ensures !Clash(a, b)
    decreases a
  {
    if a.Array? && b.Array? { AllBoundedNeverClash(a.elements, b.elements); }
  }

  lemma {:induction false} OptionNeverClashes(a: Option<Datum>, b: Option<Datum>)
    requires BoundedOption(a) || BoundedOption(b)
    ensures !OptionClash(a, b)
    decreases a
  {
    if a.Some? && b.Some? { BoundedNeverClashes(a.value, b.value); }
  }

  lemma {:induction false} AllBoundedNeverClash(xs: seq<Option<Datum>>, ys: seq<Option<Datum>>)
    requires AllBounded(xs) || AllBounded(ys)
    ensures !ElementsClash(xs, ys)
    decreases xs
  {
    if xs != [] && ys != [] {
      OptionNeverClashes(xs[0], ys[0]);
      AllBoundedNeverClash(xs[1..], ys[1..]);
    }
  }

  /** The datum with the offsets of its timestamps erased; comparison does not look at them. */
  function Erase(d: Datum): Datum
    decreases d
  {
    match d
    case Stamp(t) => Stamp(t.(offset := None))
    case StampTz(t) => StampTz(t.(offset := None))
    case Array(xs, _, _, _) => d.(elements := EraseAll(xs))
    case _ => d
  }

  function EraseOption(o: Option<Datum>): Option<Datum>
    decreases o
  {
    if o.Some? then Some(Erase(o.value)) else None
  }

  function EraseAll(xs: seq<Option<Datum>>): (ys: seq<Option<Datum>>)
    ensures |ys| == |xs|
    decreases xs
  {
    if xs == [] then [] else [EraseOption(xs[0])] + EraseAll(xs[1..])
  }

  lemma {:induction false} IntsEqual(xs: seq<int>, ys: seq<int>)
    ensures Lex(CmpInt, xs, ys) == Equal <==> xs == ys
  {
    if xs != [] && ys != [] {
      IntsEqual(xs[1..], ys[1..]);
      assert xs == [xs[0]] + xs[1..] && ys == [ys[0]] + ys[1..];
    }
  }

  lemma {:induction false} FloatsEqual(xs: seq<Float>, ys: seq<Float>)
    ensures Lex(CmpFloat, xs, ys) == Equal <==> xs == ys
  {
    if xs != [] && ys != [] {
      FloatsEqual(xs[1..], ys[1..]);
      assert xs == [xs[0]] + xs[1..] && ys == [ys[0]] + ys[1..];
    }
  }

  lemma TimestampEqual(a: Timestamp, b: Timestamp)
    ensures CmpTimestamp(a, b) == Equal <==> a.(offset := None) == b.(offset := None) && a.special == None
  {
    hide Lex;
    ThreeSpecials(a.special);
    ThreeSpecials(b.special);
    IntsEqual(StampFields(a.fields), StampFields(b.fields));
    var f, g := StampFields(a.fields), StampFields(b.fields);
    if f == g {
      assert forall i :: 0 <= i < 7 ==> f[i] == g[i];
    }
  }

  lemma PeriodEqual(a: Interval, b: Interval)
    ensures Lex(CmpInt, IntervalFields(a), IntervalFields(b)) == Equal <==> a == b
  {
    hide Lex;
    IntsEqual(IntervalFields(a), IntervalFields(b));
    var f, g := IntervalFields(a), IntervalFields(b);
    if f == g {
      assert forall i :: 0 <= i < 7 ==> f[i] == g[i];
    }
  }

  lemma ScalarEqual(a: Datum, b: Datum)
    requires VariantIndex(a) == VariantIndex(b) && !a.Array?
    ensures CmpScalar(a, b) == Equal <==> Erase(a) == Erase(b) && Bounded(a)
  {
    hide Lex, CmpTimestamp, IntervalFields;
    match a
    case Period(x) => PeriodEqual(x, b.period);
    case Text(x) => IntsEqual(x, b.bytes);
    case Uuid(x) => IntsEqual(x, b.bytes);
    case Unknown(x) => IntsEqual(x, b.bytes);
    case Vector(x) => FloatsEqual(x, b.floats);
    case Stamp(x) => TimestampEqual(x, b.at);
    case StampTz(x) => TimestampEqual(x, b.at);
    case _ =>
  }

  lemma EraseKeepsVariant(a: Datum)
    ensures VariantIndex(Erase(a)) == VariantIndex(a)
  {
  }

  /** Two datums compare equal exactly when they are the same up to timestamp offsets and hold no infinity. */
  lemma {:induction false} CmpEqualIff(a: Datum, b: Datum)
    ensures Cmp(a, b) == Equal <==> Erase(a) == Erase(b) && Bounded(a)
    decreases a
  {
    hide CmpScalar, CmpElements, AllBounded, EraseAll;
    EraseKeepsVariant(a);
    EraseKeepsVariant(b);
    if VariantIndex(a) == VariantIndex(b) {
      if a.Array? {
        ElementsEqualIff(a.elements, b.elements);
      } else {
        hide Erase, Bounded;
        ScalarEqual(a, b);
      }
    }
  }

  lemma {:induction false} OptionEqualIff(a: Option<Datum>, b: Option<Datum>)
    ensures CmpOption(a, b) == Equal <==> EraseOption(a) == EraseOption(b) && BoundedOption(a)
    decreases a
  {
    hide Cmp, Erase, Bounded;
    if a.Some? && b.Some? { CmpEqualIff(a.value, b.value); }
  }

  lemma {:induction false} ElementsEqualIff(xs: seq<Option<Datum>>, ys: seq<Option<Datum>>)
    ensures CmpElements(xs, ys) == Equal <==> EraseAll(xs) == EraseAll(ys) && AllBounded(xs)
    decreases xs
  {
    hide CmpOption, EraseOption, BoundedOption;
    if xs != [] && ys != [] {
      OptionEqualIff(xs[0], ys[0]);
      ElementsEqualIff(xs[1..], ys[1..]);
      EraseAllCons(xs, ys);
    }
  }

  lemma EraseAllCons(xs: seq<Option<Datum>>, ys: seq<Option<Datum>>)
    requires xs != [] && ys != []
    ensures EraseAll(xs) == EraseAll(ys)
       <==> EraseOption(xs[0]) == EraseOption(ys[0]) && EraseAll(xs[1..]) == EraseAll(ys[1..])
  {
    hide EraseOption;
    var e, f := EraseAll(xs), EraseAll(ys);
    assert e[0] == EraseOption(xs[0]) && e[1..] == EraseAll(xs[1..]);
    assert f[0] == EraseOption(ys[0]) && f[1..] == EraseAll(ys[1..]);
    assert e == [e[0]] + e[1..] && f == [f[0]] + f[1..];
  }

  /** A datum compares equal to itself exactly when no timestamp in it is infinite. */
  lemma CmpReflexiveIff(d: Datum)
    ensures Cmp(d, d) == Equal <==> Bounded(d)
  {
    CmpEqualIff(d, d);
  }

  /** On datums without infinite timestamps the comparison is a total preorder that identifies only offsets. */
  lemma TotalPreorder(a: Datum, b: Datum, c: Datum)
    requires Bounded(a) && Bounded(b) && Bounded(c)
    ensures Cmp(a, a) == Equal
    ensures Cmp(b, a) == Reverse(Cmp(a, b))
    ensures Cmp(a, b) != Greater && Cmp(b, c) != Greater ==> Cmp(a, c) != Greater
    ensures Cmp(a, b) == Equal <==> Erase(a) == Erase(b)
  {
    CmpReflexiveIff(a);
    BoundedNeverClashes(a, b);
    CmpReverseIff(a, b);
    CmpTransitive(a, b, c);
    CmpEqualIff(a, b);
  }

  // ---- what decides a comparison -----------------------------------------------------------

  /** Minus infinity, then the numbers, then infinity, then NaN. */
  function Position(f: Float): nat {
    match f case NegInfinity => 0 case Finite(_) => 1 case PosInfinity => 2 case NaN => 3
  }

  predicate FloatBelow(a: Float, b: Float) {
    Position(a) < Position(b) || (a.Finite? && b.Finite? && a.value < b.value)
  }

  /** The shorter sequence ends at `k`, or the two differ there with the first one below. */
  predicate BelowAt<T>(cmp: (T, T) -> Ordering, xs: seq<T>, ys: seq<T>, k: nat) {
    && k <= |xs| && k < |ys|
    && (forall i :: 0 <= i < k ==> cmp(xs[i], ys[i]) == Equal)
    && (k < |xs| ==> cmp(xs[k], ys[k]) == Less)
  }

  /** The first position that does not compare equal decides. */
  lemma {:induction false} LexByFirstDifference<T>(cmp: (T, T) -> Ordering, xs: seq<T>, ys: seq<T>)
    ensures Lex(cmp, xs, ys) == Less <==> exists k: nat :: BelowAt(cmp, xs, ys, k)
  {
    if xs == [] || ys == [] {
      assert xs == [] && ys != [] ==> BelowAt(cmp, xs, ys, 0);
    } else {
      LexByFirstDifference(cmp, xs[1..], ys[1..]);
      if Lex(cmp, xs, ys) == Less {
        if cmp(xs[0], ys[0]) == Less {
          assert BelowAt(cmp, xs, ys, 0);
        } else {
          var k: nat :| BelowAt(cmp, xs[1..], ys[1..], k);
          BelowShift(cmp, xs, ys, k);
        }
      }
      if k: nat :| BelowAt(cmp, xs, ys, k) {
        if k > 0 {
          BelowUnshift(cmp, xs, ys, k);
        }
      }
    }
  }

  /** Vectors order by the first number in which they differ, a proper prefix first. */
  lemma VectorsByFirstNumber(xs: seq<Float>, ys: seq<Float>)
    ensures Lex(CmpFloat, xs, ys) == Less <==>
            exists k: nat :: k <= |xs| && k < |ys| && xs[..k] == ys[..k] && (k < |xs| ==> FloatBelow(xs[k], ys[k]))
  {
    hide Lex;
    LexByFirstDifference(CmpFloat, xs, ys);
    if k: nat :| BelowAt(CmpFloat, xs, ys, k) {
      assert xs[..k] == ys[..k];
    }
    if k: nat :| k <= |xs| && k < |ys| && xs[..k] == ys[..k] && (k < |xs| ==> FloatBelow(xs[k], ys[k])) {
      forall i | 0 <= i < k ensures CmpFloat(xs[i], ys[i]) == Equal {
        assert xs[i] == xs[..k][i] == ys[..k][i] == ys[i];
      }
      assert BelowAt(CmpFloat, xs, ys, k);
    }
  }

  lemma BelowShift<T>(cmp: (T, T) -> Ordering, xs: seq<T>, ys: seq<T>, k: nat)
    requires xs != [] && ys != [] && cmp(xs[0], ys[0]) == Equal && BelowAt(cmp, xs[1..], ys[1..], k)
    ensures BelowAt(cmp, xs, ys, k + 1)
  {
    forall i | 0 <= i < k + 1 ensures cmp(xs[i], ys[i]) == Equal {
      assert i > 0 ==> xs[i] == xs[1..][i - 1] && ys[i] == ys[1..][i - 1];
    }
  }

  lemma BelowUnshift<T>(cmp: (T, T) -> Ordering, xs: seq<T>, ys: seq<T>, k: nat)
    requires k > 0 && BelowAt(cmp, xs, ys, k)
    ensures xs != [] && ys != [] && cmp(xs[0], ys[0]) == Equal && BelowAt(cmp, xs[1..], ys[1..], k - 1)
  {
    forall i | 0 <= i < k - 1 ensures cmp(xs[1..][i], ys[1..][i]) == Equal {
      assert xs[1..][i] == xs[i + 1] && ys[1..][i] == ys[i + 1];
    }
  }

  /** Arrays: the elements decide, NULL first, and only then element type and bounds. */
  lemma {:induction false} ArraysByElements(a: Datum, b: Datum)
    requires a.Array? && b.Array?
    ensures Cmp(a, b) == Less <==>
              || (exists k: nat :: BelowAt(CmpOption, a.elements, b.elements, k))
              || (CmpElements(a.elements, b.elements) == Equal
                  && CmpInt(a.elementOid, b.elementOid) != Greater
                  && (a.elementOid < b.elementOid || a.size < b.size || (a.size == b.size && a.lowerBound < b.lowerBound)))
  {
    hide CmpOption;
    ElementsAreLex(a.elements, b.elements);
    LexByFirstDifference(CmpOption, a.elements, b.elements);
  }

  lemma {:induction false} ElementsAreLex(xs: seq<Option<Datum>>, ys: seq<Option<Datum>>)
    ensures CmpElements(xs, ys) == Lex(CmpOption, xs, ys)
  {
    hide CmpOption;
    if xs != [] && ys != [] { ElementsAreLex(xs[1..], ys[1..]); }
  }
}
