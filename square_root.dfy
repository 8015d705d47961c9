/** The periodic expansion of sqrt(s) computed by `getSquareRoot`, whose
    loop is the same in both versions of the class. The float math.sqrt
    and the float division of the source are replaced by an integer
    square root and integer division. */
module SquareRoot {
  import opened PyRuntime

  /** The integer square root: the largest r with r * r <= s. */
  function FloorSqrt(s: nat): (r: nat)
    ensures r * r <= s < (r + 1) * (r + 1)
    decreases s
  {
    if s == 0 then 0
    else if s < 4 then 1
    else
      var half := FloorSqrt(s / 4);
      DoubleBracket(s, half);
      var h := 2 * half;
      RootOfBracket(s, h);
      if (h + 1) * (h + 1) <= s then h + 1 else h
  }

  /** Within two of the root, one comparison decides it. */
  lemma RootOfBracket(s: nat, h: nat)
    requires h * h <= s < (h + 1 + 1) * (h + 1 + 1)
    ensures var r := if (h + 1) * (h + 1) <= s then h + 1 else h;
            r * r <= s < (r + 1) * (r + 1)
  {
  }

  /** Doubling the root of s / 4 brackets s within two of its root. */
  lemma DoubleBracket(s: nat, half: nat)
    requires half * half <= s / 4 < (half + 1) * (half + 1)
    ensures (2 * half) * (2 * half) <= s < (2 * half + 1 + 1) * (2 * half + 1 + 1)
  {
    assert (2 * half) * (2 * half) == 4 * (half * half);
    assert (2 * half + 1 + 1) * (2 * half + 1 + 1) == 4 * ((half + 1) * (half + 1));
  }

  lemma Monotone(x: nat, y: nat)
    requires x <= y
    ensures x * x <= y * y
  {
    MulMonotone(y, y, x, x);
  }

  lemma MulMonotone(x: int, y: int, x0: int, y0: int)
    requires 0 <= x0 <= x && 0 <= y0 <= y
    ensures x0 * y0 <= x * y
  {
    assert x0 * y0 <= x * y0;
    assert x * y0 <= x * y;
  }

  /** At most one natural number brackets s this way. */
  lemma FloorSqrtUnique(s: nat, r: nat)
    requires r * r <= s < (r + 1) * (r + 1)
    ensures FloorSqrt(s) == r
  {
    var q := FloorSqrt(s);
    if q < r {
      Monotone(q + 1, r);
    } else if r < q {
      Monotone(r + 1, q);
    }
  }

  /** s lies strictly between a0^2 and (a0 + 1)^2: s is not a perfect
      square and a0 is the floor of its square root. */
  predicate NonSquare(s: int, a0: int) {
    0 <= a0 && a0 * a0 < s < (a0 + 1) * (a0 + 1)
  }

  /** The state (m, d) of the recurrence stands for the complete quotient
      (sqrt(s) + m) / d. It is reduced when that quotient exceeds 1 and
      its conjugate (m - sqrt(s)) / d lies in (-1, 0), written with
      a0 = floor(sqrt(s)) in integers; d also divides s - m^2. */
  predicate Reduced(s: int, a0: int, m: int, d: int) {
    0 < d && (s - m * m) % d == 0 && m <= a0 && a0 - m < d && d <= a0 + m
  }

  /** The states the loop can be in: the start (0, 1), or reduced. */
  predicate Reachable(s: int, a0: int, m: int, d: int) {
    (m == 0 && d == 1) || Reduced(s, a0, m, d)
  }

  /** |x| <= a0 bounds the square. */
  lemma SquareWithin(x: int, a0: int)
    requires -a0 <= x <= a0
    ensures x * x <= a0 * a0
  {
    if x >= 0 { MulMonotone(a0, a0, x, x); } else { MulMonotone(a0, a0, -x, -x); }
  }

  /** (d a - m)^2 differs from m^2 by a multiple of d. */
  lemma ShiftedSquare(s: int, m: int, d: int, a: int, k: int)
    requires s - m * m == d * k
    ensures s - (d * a - m) * (d * a - m) == d * (k - d * a * a + 2 * a * m)
  {
    assert (d * a - m) * (d * a - m) == d * (d * a * a) - d * (2 * a * m) + m * m;
  }

  lemma ZeroMultiple(d: int, t: int)
    requires 0 < d && 0 <= d * t < d
    ensures t == 0
  {
  }

  /** Dividing a multiple of d by d is exact. */
  lemma DivOfMultiple(d: int, q: int)
    requires 0 < d
    ensures (d * q) / d == q && (d * q) % d == 0
  {
    var x := d * q;
    assert d * (q - x / d) == x % d;
    ZeroMultiple(d, q - x / d);
  }

  lemma CancelLeft(d: int, x: int, y: int)
    requires 0 < d && d * x < d * y
    ensures x < y
  {
  }

  lemma PositiveFactor(d: int, x: int)
    requires 0 < d && 0 < d * x
    ensures 0 < x
  {
  }

  /** The new quotient exceeds 1: d' <= a0 + m'. */
  lemma NewQuotientAboveOne(s: int, a0: int, m': int, d: int, d': int)
    requires d * d' == s - m' * m' && s < (a0 + 1) * (a0 + 1)
    requires a0 - m' + 1 <= d && m' <= a0 && 1 - a0 <= m'
    ensures d' <= a0 + m'
  {
    var lo, hi := a0 - m' + 1, a0 + m' + 1;
    assert lo * hi == (a0 + 1) * (a0 + 1) - m' * m';
    MulMonotone(d, hi, lo, hi);
    CancelLeft(d, d', hi);
  }

  /** The new conjugate exceeds -1: a0 - m' < d'. */
  lemma NewConjugateAboveMinusOne(s: int, a0: int, m': int, d: int, d': int)
    requires d * d' == s - m' * m' && a0 * a0 < s
    requires 0 < d <= a0 + m' && 0 < d' && m' <= a0
    ensures a0 - m' < d'
  {
    var p := a0 + m';
    assert p * (a0 - m') == a0 * a0 - m' * m';
    MulMonotone(p, d', d, d');
    CancelLeft(p, a0 - m', d');
  }

  /** The floor of n / d for 0 < d <= n <= 2 a0 lies in [1, 2 a0]. */
  lemma QuotientRange(n: int, d: int, a0: int)
    requires 0 < d <= n <= 2 * a0
    ensures 1 <= n / d <= 2 * a0
  {
    var q := n / d;
    assert d * q == n - n % d;
    PositiveFactor(d, q);
    MulMonotone(d, q, 1, q);
  }

  /** One turn of the loop: m := d a - m; d := (s - m^2) / d; a := (a0 + m) / d. */
  datatype State = State(m: int, d: int, a: int)

  function Start(a0: int): State {
    State(0, 1, a0)
  }

  predicate Valid(s: int, a0: int, st: State) {
    NonSquare(s, a0) && Reachable(s, a0, st.m, st.d) && st.a == (a0 + st.m) / st.d
  }

  /** One turn of the loop: m := d * a - m, d := (s - m^2) / d,
      a := floor((sqrt(s) + m) / d). */
  function Next(s: int, a0: int, st: State): State
    requires Valid(s, a0, st)
  {
    var m' := st.d * st.a - st.m;
    var d' := (s - m' * m') / st.d;
    StepKeepsReduced(s, a0, st.m, st.d, st.a, m', d');
    State(m', d', (a0 + m') / d')
  }

  /** floor((x + m) / d) depends on x only through floor(x): with x the
      real square root of s and a0 its floor, the step
      a := floor((sqrt(s) + m) / d) of the source is the integer
      (a0 + m) / d that `Next` computes. */
  lemma FloorOfShiftedRoot(x: real, a0: int, m: int, d: int)
    requires d > 0 && x.Floor == a0
    ensures ((x + m as real) / d as real).Floor == (a0 + m) / d
  {
    var q := (a0 + m) / d;
    var r := (a0 + m) % d;
    assert a0 + m == q * d + r && 0 <= r < d;
    var y := (x + m as real) / d as real;
    var dr := d as real;
    assert y * dr == x + m as real;
    assert a0 as real <= x < a0 as real + 1.0;
    assert (q * d) as real == q as real * dr;
    assert a0 + m + 1 <= q * d + d;
    assert (q * d) as real <= (a0 + m) as real;
    assert (a0 + m) as real == a0 as real + m as real;
    assert q as real * dr <= y * dr;
    calc {
      y * dr;
    ==
      x + m as real;
    <
      (a0 + m + 1) as real;
    <=
      (q * d + d) as real;
    ==
      (q as real + 1.0) * dr;
    }
    CancelPositive(q as real, y, dr);
    CancelPositive(y, q as real + 1.0, dr);
  }

  /** Dividing both sides by a positive factor keeps the order. */
  lemma CancelPositive(y: real, c: real, d: real)
    requires d > 0.0
    ensures y * d <= c * d ==> y <= c
    ensures y * d < c * d ==> y < c
  {
    assert (c - y) * d == c * d - y * d;
  }

  /** One turn keeps the state reduced, divides exactly, and produces a
      partial quotient between 1 and 2 * a0. */
  lemma NextKeepsValid(s: int, a0: int, st: State)
    requires Valid(s, a0, st)
    ensures var next := Next(s, a0, st);
            Valid(s, a0, next) && Reduced(s, a0, next.m, next.d) && 1 <= next.a <= 2 * a0
  {
    var m' := st.d * st.a - st.m;
    var d' := (s - m' * m') / st.d;
    StepKeepsReduced(s, a0, st.m, st.d, st.a, m', d');
  }

  lemma StepKeepsReduced(s: int, a0: int, m: int, d: int, a: int, m': int, d': int)
    requires NonSquare(s, a0) && Reachable(s, a0, m, d) && a == (a0 + m) / d
    requires m' == d * a - m && d' == (s - m' * m') / d
    ensures Reduced(s, a0, m', d') && 1 <= (a0 + m') / d' <= 2 * a0
  {
    if m == 0 && d == 1 {
      FirstStep(s, a0, a, m', d');
    } else {
      LaterStep(s, a0, m, d, a, m', d');
    }
  }

  /** From the start (0, 1): m' = a0 and d' = s - a0^2. */
  lemma FirstStep(s: int, a0: int, a: int, m': int, d': int)
    requires NonSquare(s, a0) && a == (a0 + 0) / 1
    requires m' == 1 * a - 0 && d' == (s - m' * m') / 1
    ensures Reduced(s, a0, m', d') && 1 <= (a0 + m') / d' <= 2 * a0
  {
    DivOfMultiple(d', 1);
    assert (a0 + 1) * (a0 + 1) == a0 * a0 + 2 * a0 + 1;
    QuotientRange(a0 + m', d', a0);
  }

  /** From a reduced state. */
  lemma LaterStep(s: int, a0: int, m: int, d: int, a: int, m': int, d': int)
    requires NonSquare(s, a0) && Reduced(s, a0, m, d) && a == (a0 + m) / d
    requires m' == d * a - m && d' == (s - m' * m') / d
    ensures Reduced(s, a0, m', d') && 1 <= (a0 + m') / d' <= 2 * a0
  {
    FloorStep(a0, m, d, a, m');
    ExactNextD(s, m, d, a, m', d');
    NextDPositive(s, a0, m', d, d');
    DivOfMultiple(d', d);
    NewQuotientAboveOne(s, a0, m', d, d');
    NewConjugateAboveMinusOne(s, a0, m', d, d');
    QuotientRange(a0 + m', d', a0);
  }

  /** a is the floor of (a0 + m) / d, so a0 - d < m' <= a0, and a >= 1. */
  lemma FloorStep(a0: int, m: int, d: int, a: int, m': int)
    requires 0 < d && a == (a0 + m) / d && m' == d * a - m
    requires m <= a0 && a0 - m < d <= a0 + m
    ensures 1 <= a && a0 - d + 1 <= m' <= a0 && 1 - a0 <= m' && d <= a0 + m'
  {
    assert d * a == a0 + m - (a0 + m) % d;
    PositiveFactor(d, a);
    MulMonotone(d, a - 1, 0, 0);
    assert d * (a - 1) == d * a - d;
  }

  /** d divides s - m'^2 whenever it divides s - m^2. */
  lemma ExactNextD(s: int, m: int, d: int, a: int, m': int, d': int)
    requires 0 < d && (s - m * m) % d == 0
    requires m' == d * a - m && d' == (s - m' * m') / d
    ensures d * d' == s - m' * m'
  {
    var k := (s - m * m) / d;
    assert s - m * m == d * k;
    ShiftedSquare(s, m, d, a, k);
    DivOfMultiple(d, k - d * a * a + 2 * a * m);
  }

  lemma NextDPositive(s: int, a0: int, m': int, d: int, d': int)
    requires NonSquare(s, a0) && -a0 <= m' <= a0
    requires 0 < d && d * d' == s - m' * m'
    ensures 0 < d'
  {
    SquareWithin(m', a0);
    PositiveFactor(d, d');
  }

  /** The partial quotients the loop appends from state st within n more
      turns, stopping after the first one equal to 2 * a0. */
  function PeriodFrom(s: int, a0: int, st: State, n: nat): seq<int>
    requires Valid(s, a0, st)
    decreases n
  {
    if n == 0 then []
    else
      var next := Next(s, a0, st);
      NextKeepsValid(s, a0, st);
      if next.a == 2 * a0 then [next.a] else [next.a] + PeriodFrom(s, a0, next, n - 1)
  }

  /** At most n terms, each between 1 and 2 * a0; none but the last is
      2 * a0, and a list cut short of n terms ends with 2 * a0. */
  lemma {:induction false} PeriodShape(s: int, a0: int, st: State, n: nat)
    requires Valid(s, a0, st)
    ensures var terms := PeriodFrom(s, a0, st, n);
            |terms| <= n &&
            (forall i :: 0 <= i < |terms| ==> 1 <= terms[i] <= 2 * a0) &&
            (forall i :: 0 <= i < |terms| - 1 ==> terms[i] != 2 * a0) &&
            (|terms| < n ==> terms != [] && terms[|terms| - 1] == 2 * a0)
    decreases n
  {
    if n > 0 {
      var next := Next(s, a0, st);
      NextKeepsValid(s, a0, st);
      if next.a != 2 * a0 {
        PeriodShape(s, a0, next, n - 1);
      }
    }
  }

  /** The partial quotients `getSquareRoot(s)` collects: none for a
      perfect square, otherwise floor(sqrt(s)) followed by the period
      terms. math.sqrt raises ValueError for a negative s. */
  function Expansion(s: int, precision: nat): Result<seq<int>> {
    if s < 0 then Err(ValueError)
    else
      var a0: int := FloorSqrt(s);
      if a0 * a0 == s then Ok([])
      else
        assert a0 == (a0 + 0) / 1;
        Ok([a0] + PeriodFrom(s, a0, Start(a0), precision))
  }

  /** The list is empty exactly for a perfect square. Otherwise it starts
      with floor(sqrt(s)) and holds at most precision + 1 terms, each later
      term between 1 and twice the first; no term before the last equals
      twice the first, and when the loop stopped early the last one does. */
  lemma {:induction false} ExpansionShape(s: int, precision: nat)
    ensures Expansion(s, precision).Err? <==> s < 0
    ensures s < 0 ==> Expansion(s, precision) == Err(ValueError)
    ensures s >= 0 && FloorSqrt(s) * FloorSqrt(s) == s ==> Expansion(s, precision) == Ok([])
    ensures s >= 0 && FloorSqrt(s) * FloorSqrt(s) != s ==>
              var q := Expansion(s, precision).value;
              1 <= |q| <= precision + 1 && (precision > 0 ==> |q| >= 2) &&
              q[0] == FloorSqrt(s) &&
              (forall i :: 1 <= i < |q| ==> 1 <= q[i] <= 2 * q[0]) &&
              (forall i :: 1 <= i < |q| - 1 ==> q[i] != 2 * q[0]) &&
              (|q| < precision + 1 ==> q[|q| - 1] == 2 * q[0])
  {
    if s >= 0 && FloorSqrt(s) * FloorSqrt(s) != s {
      var a0: int := FloorSqrt(s);
      assert Valid(s, a0, Start(a0));
      PeriodShape(s, a0, Start(a0), precision);
      var tail := PeriodFrom(s, a0, Start(a0), precision);
      var q := [a0] + tail;
      assert forall i :: 1 <= i < |q| ==> q[i] == tail[i - 1];
    }
  }

  /** A perfect square gives no quotients at all. */
  lemma PerfectSquareExpansion(k: nat, precision: nat)
    ensures Expansion(k * k, precision) == Ok([])
  {
    FloorSqrtUnique(k * k, k);
  }

  /** The loop body's in-place update of m, d and a, in the order the
      source assigns them; `Next` is its specification. a0 stands for
      the floor of the source's float `rt` (see `FloorOfShiftedRoot`). */
  method Turn(s: int, a0: int, m: int, d: int, a: int) returns (m': int, d': int, a': int)
    requires Valid(s, a0, State(m, d, a))
    ensures State(m', d', a') == Next(s, a0, State(m, d, a))
  {
    ghost var next := Next(s, a0, State(m, d, a));
    NextKeepsValid(s, a0, State(m, d, a));
    m' := d * a - m;
    d' := (s - m' * m') / d;
    assert d' == next.d;
    a' := (a0 + m') / d';
  }

  /** `getSquareRoot`: no quotients for a perfect square, otherwise a0
      followed by the terms of its loop. The integer a0 takes the place of
      the source's float `rt`, whose floor it is. */
  method SquareRootQuotients(s: int, precision: nat) returns (r: Result<seq<int>>)
    ensures r == Expansion(s, precision)
  {
    if s < 0 {
      return Err(ValueError);
    }
    var a0: int := FloorSqrt(s);
    ExpansionByRoot(s, precision);
    if a0 * a0 != s {
      var result := PeriodLoop(s, a0, precision);
      r := Ok(result);
    } else {
      r := Ok([]);
    }
  }

  /** The expansion of s >= 0 by the outcome of squaring its root. */
  lemma ExpansionByRoot(s: int, precision: nat)
    requires s >= 0
    ensures var a0: int := FloorSqrt(s);
            a0 * a0 == s ==> Expansion(s, precision) == Ok([])
    ensures var a0: int := FloorSqrt(s);
            a0 * a0 != s ==> NonSquare(s, a0) && Expansion(s, precision) == Ok([a0] + PeriodFrom(s, a0, Start(a0), precision))
  {
    var a0: int := FloorSqrt(s);
    if a0 * a0 != s {
      ExpansionOfNonSquare(s, a0, precision);
    }
  }

  /** The loop of `getSquareRoot`, appending to a list that starts with
      a0 and leaving it at the first term equal to twice a0. */
  method PeriodLoop(s: int, a0: int, precision: nat) returns (result: seq<int>)
    requires NonSquare(s, a0)
    ensures result == [a0] + PeriodFrom(s, a0, Start(a0), precision)
  {
    var m, d, a := 0, 1, a0;
    assert Valid(s, a0, State(m, d, a));
    result := [a];
    ghost var whole := PeriodFrom(s, a0, Start(a0), precision);
    for n := 0 to precision
      invariant Valid(s, a0, State(m, d, a))
      invariant |result| >= 1 && result[0] == a0
      invariant result + PeriodFrom(s, a0, State(m, d, a), precision - n) == [a0] + whole
    {
      ghost var next := Next(s, a0, State(m, d, a));
      PeriodFromUnfold(s, a0, State(m, d, a), next, precision - n);
      m, d, a := Turn(s, a0, m, d, a);
      result := result + [a];
      if a == 2 * result[0] {
        break;
      }
    }
    assert result == [a0] + whole;
  }

  /** One more turn, then stop at 2 * a0 or go on with one turn fewer. */
  lemma {:induction false} PeriodFromUnfold(s: int, a0: int, st: State, next: State, n: nat)
    requires Valid(s, a0, st) && n >= 1 && next == Next(s, a0, st)
    ensures Valid(s, a0, next)
    ensures next.a == 2 * a0 ==> PeriodFrom(s, a0, st, n) == [next.a]
    ensures next.a != 2 * a0 ==> PeriodFrom(s, a0, st, n) == [next.a] + PeriodFrom(s, a0, next, n - 1)
  {
    NextKeepsValid(s, a0, st);
  }

  /** For a non-square, the expansion is a0 followed by the period terms. */
  lemma {:induction false} ExpansionOfNonSquare(s: int, a0: int, precision: nat)
    requires NonSquare(s, a0)
    ensures Valid(s, a0, Start(a0))
    ensures Expansion(s, precision) == Ok([a0] + PeriodFrom(s, a0, Start(a0), precision))
  {
    FloorSqrtUnique(s, a0);
  }

  /** A turn from st to the state given by its three values. */
  lemma NextIs(s: int, a0: int, st: State, m': int, d': int, a': int)
    requires Valid(s, a0, st)
    requires m' == st.d * st.a - st.m && d' == (s - m' * m') / st.d
    requires 0 < d' && a' == (a0 + m') / d'
    ensures Next(s, a0, st) == State(m', d', a')
  {
  }

  lemma FiveTerms(v: int, w: int, x: int, y: int, z: int)
    ensures [v] + ([w] + ([x] + ([y] + [z]))) == [v, w, x, y, z]
  {
  }

  /** The period of sqrt(23) from its second reduced state (3, 2). */
  lemma {:induction false} PeriodOf23(n: nat)
    requires n >= 2
    ensures PeriodFrom(23, 4, State(3, 2, 3), n) == [1] + [8]
  {
    NextIs(23, 4, State(3, 7, 1), 4, 1, 8);
    PeriodFromUnfold(23, 4, State(3, 7, 1), State(4, 1, 8), n - 1);
    NextIs(23, 4, State(3, 2, 3), 3, 7, 1);
    PeriodFromUnfold(23, 4, State(3, 2, 3), State(3, 7, 1), n);
  }

  /** The period of sqrt(23) from its first reduced state (4, 7). */
  lemma {:induction false} PeriodOf23FromFirst(n: nat)
    requires n >= 3
    ensures PeriodFrom(23, 4, State(4, 7, 1), n) == [3] + ([1] + [8])
  {
    PeriodOf23(n - 1);
    NextIs(23, 4, State(4, 7, 1), 3, 2, 3);
    PeriodFromUnfold(23, 4, State(4, 7, 1), State(3, 2, 3), n);
  }

  /** The whole period of sqrt(23), from the start state. */
  lemma {:induction false} PeriodOf23FromStart(n: nat)
    requires n >= 4
    ensures PeriodFrom(23, 4, Start(4), n) == [1] + ([3] + ([1] + [8]))
  {
    PeriodOf23FromFirst(n - 1);
    NextIs(23, 4, Start(4), 4, 7, 1);
    PeriodFromUnfold(23, 4, Start(4), State(4, 7, 1), n);
  }

  /** sqrt(23) = [4; 1, 3, 1, 8, 1, 3, 1, 8, ...]. */
  lemma {:induction false} ExpansionOf23(precision: nat)
    requires precision >= 4
    ensures Expansion(23, precision) == Ok([4, 1, 3, 1, 8])
  {
    PeriodOf23FromStart(precision);
    ExpansionOfNonSquare(23, 4, precision);
    FiveTerms(4, 1, 3, 1, 8);
  }

  /** The period of sqrt(3) from its first reduced state (1, 2). */
  lemma {:induction false} PeriodOf3FromFirst(n: nat)
    requires n >= 1
    ensures PeriodFrom(3, 1, State(1, 2, 1), n) == [2]
  {
    NextIs(3, 1, State(1, 2, 1), 1, 1, 2);
    PeriodFromUnfold(3, 1, State(1, 2, 1), State(1, 1, 2), n);
  }

  /** The whole period of sqrt(3), from the start state. */
  lemma {:induction false} PeriodOf3FromStart(n: nat, st: State)
    requires n >= 2 && st == Start(1)
    ensures Valid(3, 1, st)
    ensures PeriodFrom(3, 1, st, n) == [1] + [2]
  {
    NextIs(3, 1, st, 1, 2, 1);
    PeriodFromUnfold(3, 1, st, State(1, 2, 1), n);
    PeriodOf3FromFirst(n - 1);
  }

  lemma ThreeTerms(x: int, y: int, z: int)
    ensures [x] + ([y] + [z]) == [x, y, z]
  {
  }

  /** sqrt(3) = [1; 1, 2, 1, 2, ...]. */
  lemma {:induction false} ExpansionOf3(precision: nat)
    requires precision >= 2
    ensures Expansion(3, precision) == Ok([1, 1, 2])
  {
    PeriodOf3FromStart(precision, Start(1));
    ExpansionOfNonSquare(3, 1, precision);
    ThreeTerms(1, 1, 2);
  }
}
