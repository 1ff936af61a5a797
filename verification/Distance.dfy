/** Squared Euclidean distance: the scalar loop and the vector-register forms, over exact arithmetic. */
module Distance {
  function Mul(x: real, y: real): real { x * y }

  function Square(x: real): real { Mul(x, x) }

  /** The sum of squared differences of the first `n` coordinates. */
  function SumTo(p: seq<real>, q: seq<real>, n: nat): real
    requires n <= |p| == |q|
  {
    if n == 0 then 0.0 else SumTo(p, q, n - 1) + Square(q[n - 1] - p[n - 1])
  }

  function SquaredDistance(p: seq<real>, q: seq<real>): real
    requires |p| == |q|
  {
    SumTo(p, q, |p|)
  }

  /** Distance does not depend on the order of its operands, is never negative, and is zero only between equal vectors. */
  lemma {:induction false} SumToLaws(p: seq<real>, q: seq<real>, n: nat)
    requires n <= |p| == |q|
    ensures SumTo(p, q, n) == SumTo(q, p, n) >= 0.0
    ensures SumTo(p, q, n) == 0.0 <==> p[..n] == q[..n]
  {
    if n > 0 {
      SumToLaws(p, q, n - 1);
      SquareLaws(q[n - 1] - p[n - 1]);
      hide Square;
      assert p[..n] == p[..n - 1] + [p[n - 1]] && q[..n] == q[..n - 1] + [q[n - 1]];
    }
  }

  lemma PositiveProduct(x: real, y: real)
    requires x > 0.0 && y > 0.0
    ensures Mul(x, y) > 0.0
  {
  }

  lemma SignsCancel(x: real, y: real)
    ensures Mul(-x, -y) == Mul(x, y)
  {
  }

  lemma ZeroProduct(y: real)
    ensures Mul(0.0, y) == 0.0
  {
  }

  lemma SquareLaws(x: real)
    ensures if x == 0.0 then Square(x) == 0.0 else Square(x) > 0.0
    ensures Square(-x) == Square(x)
  {
    hide Mul;
    SignsCancel(x, x);
    if x > 0.0 {
      PositiveProduct(x, x);
    } else if x < 0.0 {
      PositiveProduct(-x, -x);
    } else {
      ZeroProduct(x);
    }
  }

  method Scalar(p: seq<real>, q: seq<real>) returns (sum: real)
    requires |p| == |q|
    ensures sum == SquaredDistance(p, q)
  {
    hide Square;
    sum := 0.0;
    for i := 0 to |p|
      invariant sum == SumTo(p, q, i)
    {
      var diff := q[i] - p[i];
      sum := sum + Square(diff);
    }
  }

  // ---- registers ------------------------------------------------------------------

  /** Four lanes of a 128-bit register. */
  datatype Lanes = Lanes(a: real, b: real, c: real, d: real)

  /** Eight lanes of a 256-bit register. */
  datatype Wide = Wide(low: Lanes, high: Lanes)

  const ZERO := Lanes(0.0, 0.0, 0.0, 0.0)

  function Load(p: seq<real>, i: nat): Lanes
    requires i + 4 <= |p|
  {
    Lanes(p[i], p[i + 1], p[i + 2], p[i + 3])
  }

  function LoadWide(p: seq<real>, i: nat): Wide
    requires i + 8 <= |p|
  {
    Wide(Load(p, i), Load(p, i + 4))
  }

  function Add(x: Lanes, y: Lanes): Lanes { Lanes(x.a + y.a, x.b + y.b, x.c + y.c, x.d + y.d) }

  function Sub(x: Lanes, y: Lanes): Lanes { Lanes(x.a - y.a, x.b - y.b, x.c - y.c, x.d - y.d) }

  /** The product of a register with itself, lane by lane. */
  function Squares(x: Lanes): Lanes { Lanes(Square(x.a), Square(x.b), Square(x.c), Square(x.d)) }

  function AddWide(x: Wide, y: Wide): Wide { Wide(Add(x.low, y.low), Add(x.high, y.high)) }

  function SubWide(x: Wide, y: Wide): Wide { Wide(Sub(x.low, y.low), Sub(x.high, y.high)) }

  function SquaresWide(x: Wide): Wide { Wide(Squares(x.low), Squares(x.high)) }

  function Lane(x: Lanes, i: nat): real
    requires i < 4
  {
    if i == 0 then x.a else if i == 1 then x.b else if i == 2 then x.c else x.d
  }

  /** Lanes chosen by the two-bit fields of an immediate, lowest field first. */
  function Shuffle(x: Lanes, y: Lanes, imm: nat): Lanes {
    Lanes(Lane(x, imm % 4), Lane(x, imm / 4 % 4), Lane(y, imm / 16 % 4), Lane(y, imm / 64 % 4))
  }

  /** Sums of adjacent lanes of both operands. */
  function PairwiseAdd(x: Lanes, y: Lanes): Lanes {
    Lanes(x.a + x.b, x.c + x.d, y.a + y.b, y.c + y.d)
  }

  function Across(x: Lanes): real { x.a + x.b + x.c + x.d }

  method ReduceByShuffles(sum: Lanes) returns (total: real)
    ensures total == Across(sum)
  {
    var shuf := Shuffle(sum, sum, 0x4E);
    var sums := Add(sum, shuf);
    shuf := Shuffle(sums, sums, 0xB1);
    var result := Add(sums, shuf);
    total := result.a;
  }

  method ReduceByPairs(sum: Lanes) returns (total: real)
    ensures total == Across(sum)
  {
    var pairs := PairwiseAdd(sum, sum);
    var result := PairwiseAdd(pairs, pairs);
    total := Lane(result, 0);
  }

  lemma Quad(p: seq<real>, q: seq<real>, n: nat)
    requires n + 4 <= |p| == |q|
    ensures SumTo(p, q, n + 4) == SumTo(p, q, n) + Across(Squares(Sub(Load(q, n), Load(p, n))))
  {
    hide Square;
    assert SumTo(p, q, n + 2) == SumTo(p, q, n + 1) + Square(q[n + 1] - p[n + 1]);
    assert SumTo(p, q, n + 3) == SumTo(p, q, n + 2) + Square(q[n + 2] - p[n + 2]);
  }

  /** The scalar loop over what the registers did not cover. */
  method Remaining(p: seq<real>, q: seq<real>, start: nat, sum: real) returns (total: real)
    requires start <= |p| == |q| && sum == SumTo(p, q, start)
    ensures total == SquaredDistance(p, q)
  {
    hide Square;
    total := sum;
    for i := start to |p|
      invariant total == SumTo(p, q, i)
    {
      var diff := q[i] - p[i];
      total := total + Square(diff);
    }
  }

  method Accumulate(p: seq<real>, q: seq<real>) returns (sum: Lanes)
    requires |p| == |q|
    ensures Across(sum) == SumTo(p, q, |p| / 8 * 8)
  {
    hide SumTo, Load, Squares, Sub;
    EmptySum(p, q);
    var sum1, sum2 := ZERO, ZERO;
    var chunks := |p| / 8;
    for i := 0 to chunks
      invariant Across(sum1) + Across(sum2) == SumTo(p, q, i * 8)
    {
      var idx := i * 8;
      var diff1 := Sub(Load(q, idx), Load(p, idx));
      sum1 := Add(sum1, Squares(diff1));
      var diff2 := Sub(Load(q, idx + 4), Load(p, idx + 4));
      sum2 := Add(sum2, Squares(diff2));
      Quad(p, q, idx);
      Quad(p, q, idx + 4);
    }
    sum := Add(sum1, sum2);
  }

  lemma EmptySum(p: seq<real>, q: seq<real>)
    requires |p| == |q|
    ensures SumTo(p, q, 0) == 0.0
  {
  }

  /** Two four-lane accumulators, shuffle reduction, scalar tail. */
  method Sse(p: seq<real>, q: seq<real>) returns (total: real)
    requires |p| == |q|
    ensures total == SquaredDistance(p, q)
  {
    var sum := Accumulate(p, q);
    total := ReduceByShuffles(sum);
    total := Remaining(p, q, |p| / 8 * 8, total);
  }

  /** Two four-lane accumulators, pairwise reduction, scalar tail. */
  method Neon(p: seq<real>, q: seq<real>) returns (total: real)
    requires |p| == |q|
    ensures total == SquaredDistance(p, q)
  {
    var sum := Accumulate(p, q);
    total := ReduceByPairs(sum);
    total := Remaining(p, q, |p| / 8 * 8, total);
  }

  function AcrossWide(x: Wide): real { Across(x.low) + Across(x.high) }

  lemma AcrossAddWide(x: Wide, y: Wide)
    ensures AcrossWide(AddWide(x, y)) == AcrossWide(x) + AcrossWide(y)
  {
  }

  lemma AcrossZero()
    ensures AcrossWide(Wide(ZERO, ZERO)) == 0.0
  {
  }

  function Step(p: seq<real>, q: seq<real>, i: nat): Wide
    requires i + 8 <= |p| == |q|
  {
    SquaresWide(SubWide(LoadWide(q, i), LoadWide(p, i)))
  }

  lemma Octet(p: seq<real>, q: seq<real>, n: nat)
    requires n + 8 <= |p| == |q|
    ensures SumTo(p, q, n + 8) == SumTo(p, q, n) + AcrossWide(Step(p, q, n))
  {
    hide SumTo, Load, Squares, Sub, Across;
    Quad(p, q, n);
    Quad(p, q, n + 4);
  }

  method AccumulateWide(p: seq<real>, q: seq<real>) returns (sum: Wide)
    requires |p| == |q|
    ensures AcrossWide(sum) == SumTo(p, q, |p| / 16 * 16)
  {
    hide SumTo, SquaresWide, SubWide, LoadWide, AcrossWide, AddWide;
    EmptySum(p, q);
    var sum1, sum2 := Wide(ZERO, ZERO), Wide(ZERO, ZERO);
    AcrossZero();
    var chunks := |p| / 16;
    for i := 0 to chunks
      invariant AcrossWide(sum1) + AcrossWide(sum2) == SumTo(p, q, i * 16)
    {
      var idx := i * 16;
      Octet(p, q, idx);
      Octet(p, q, idx + 8);
      var diff1 := SubWide(LoadWide(q, idx), LoadWide(p, idx));
      AcrossAddWide(sum1, SquaresWide(diff1));
      sum1 := AddWide(sum1, SquaresWide(diff1));
      var diff2 := SubWide(LoadWide(q, idx + 8), LoadWide(p, idx + 8));
      AcrossAddWide(sum2, SquaresWide(diff2));
      sum2 := AddWide(sum2, SquaresWide(diff2));
    }
    AcrossAddWide(sum1, sum2);
    sum := AddWide(sum1, sum2);
  }

  /** Two eight-lane accumulators, halves added, shuffle reduction, scalar tail. */
  method Avx2(p: seq<real>, q: seq<real>) returns (total: real)
    requires |p| == |q|
    ensures total == SquaredDistance(p, q)
  {
    hide SumTo, SquaredDistance;
    var sum := AccumulateWide(p, q);
    var sum128 := Add(sum.low, sum.high);
    total := ReduceByShuffles(sum128);
    total := Remaining(p, q, |p| / 16 * 16, total);
  }
}
