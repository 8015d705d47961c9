/** The floor-and-reciprocal loop of `_initFromFraction`, identical in both
    versions of the class: the partial quotients of a rational number. */
module FractionExpansion {
  import opened PyRuntime
  import opened ContinuedValue

  /** Every term after the first is at least 1. */
  predicate TailPositive(q: seq<int>) {
    forall k :: 1 <= k < |q| ==> q[k] >= 1
  }

  /** [q0; q1, ..., qk-1, x]: the continued fraction whose terms are q and
      whose last complete quotient is the real x. */
  function Compose(q: seq<int>, x: real): (r: real)
    requires x >= 1.0 && TailPositive(q)
    ensures (q == [] || q[0] >= 1) ==> r >= 1.0
    decreases |q|
  {
    if q == [] then x
    else
      var inner := Compose(q[1..], x);
      q[0] as real + 1.0 / inner
  }

  /** Ending a tail with the term i is ending it with the complete quotient i. */
  lemma {:induction false} TailValueWithLast(t: seq<int>, i: int)
    requires AllPositive(t) && i >= 1
    ensures TailValue(t + [i]) == Ok(1.0 / Compose(t, i as real))
    decreases |t|
  {
    if t == [] {
      assert [] + [i] == [i];
      assert [i][1..] == [];
    } else {
      assert (t + [i])[1..] == t[1..] + [i];
      TailValueWithLast(t[1..], i);
    }
  }

  /** The value of the terms q followed by i is [q; i]. */
  lemma ValueWithLast(q: seq<int>, i: int)
    requires TailPositive(q) && q != [] && i >= 1
    ensures Value(q + [i]) == Ok(Compose(q, i as real))
  {
    assert (q + [i])[1..] == q[1..] + [i];
    TailValueWithLast(q[1..], i);
  }

  /** Splitting the complete quotient x = i + 1/y appends the term i. */
  lemma {:induction false} ComposeAppend(q: seq<int>, i: int, y: real)
    requires TailPositive(q) && q != [] && i >= 1 && y > 1.0
    ensures TailPositive(q + [i])
    ensures Compose(q + [i], y) == Compose(q, i as real + 1.0 / y)
    decreases |q|
  {
    var x := i as real + 1.0 / y;
    assert x >= 1.0;
    assert (q + [i])[1..] == q[1..] + [i];
    if |q| > 1 {
      ComposeAppend(q[1..], i, y);
    } else {
      assert q[1..] + [i] == [i];
      assert [i][1..] == [];
      assert Compose([i], y) == x;
    }
  }

  /** The loop's state: quotients q taken from r0 so far and the complete
      quotient r still to expand, with r0 = [q; r]. */
  predicate Expanding(q: seq<int>, r: real, r0: real) {
    TailPositive(q) &&
    (q == [] ==> r == r0) &&
    (q != [] ==> r > 1.0 && Compose(q, r) == r0 && q[0] == r0.Floor && r0 != r0.Floor as real)
  }

  /** A round whose fractional part is 0 appends the last term and the
      quotients are then worth exactly r0. */
  lemma ExpandingStops(q: seq<int>, r: real, r0: real)
    requires Expanding(q, r, r0) && r == r.Floor as real
    ensures TailPositive(q + [r.Floor]) && (q + [r.Floor])[0] == r0.Floor
    ensures Value(q + [r.Floor]) == Ok(r0)
    ensures q == [] ==> r0 == r0.Floor as real
  {
    var i := r.Floor;
    if q == [] {
      assert [] + [i] == [i];
      assert [i][1..] == [];
    } else {
      assert i >= 1;
      ValueWithLast(q, i);
    }
  }

  /** A round with a non-zero fractional part f appends floor(r) and goes
      on with the complete quotient 1/f, which exceeds 1. */
  lemma ExpandingContinues(q: seq<int>, r: real, r0: real)
    requires Expanding(q, r, r0) && r != r.Floor as real
    ensures Expanding(q + [r.Floor], 1.0 / (r - r.Floor as real), r0)
  {
    var i := r.Floor;
    var f := r - i as real;
    var next := 1.0 / f;
    Reciprocal(f);
    if q != [] {
      assert i >= 1;
      ComposeAppend(q, i, next);
      assert i as real + 1.0 / next == r;
    } else {
      FirstRound(i, next);
    }
  }

  /** The reciprocal of a fractional part exceeds 1 and gives it back. */
  lemma Reciprocal(f: real)
    requires 0.0 < f < 1.0
    ensures 1.0 / f > 1.0 && 1.0 / (1.0 / f) == f
  {
    assert (1.0 / f) * f == 1.0;
  }

  /** The first term i with the complete quotient y after it. */
  lemma FirstRound(i: int, y: real)
    requires y > 1.0
    ensures [] + [i] == [i] && TailPositive([i])
    ensures Compose([i], y) == i as real + 1.0 / y
  {
    assert [i][1..] == [];
  }

  /** The loop of `_initFromFraction`, started from r0:
      `i = floor(r); f = r - i; append i; stop if f == 0, else r = 1/f`,
      for at most precision rounds. When it stops before running out of
      rounds, the quotients evaluate exactly to r0; an integer gives one
      quotient. */
  method ExpandFraction(r0: real, precision: nat) returns (q: seq<int>)
    ensures |q| <= precision
    ensures precision > 0 ==> |q| >= 1 && q[0] == r0.Floor
    ensures TailPositive(q)
    ensures precision > 0 ==> Value(q) == Ok(r0) || |q| == precision
    ensures |q| < precision ==> Value(q) == Ok(r0)
    ensures precision > 0 && r0 == r0.Floor as real ==> q == [r0.Floor]
  {
    q := [];
    var r := r0;
    for index := 0 to precision
      invariant |q| == index
      invariant Expanding(q, r, r0)
    {
      var i := r.Floor;
      var f := r - i as real;
      if f == 0.0 {
        ExpandingStops(q, r, r0);
        q := q + [i];
        return;
      }
      ExpandingContinues(q, r, r0);
      q := q + [i];
      r := 1.0 / f;
    }
  }

  /** `_initFromFraction` as written: it appends floor(cf), then runs the
      loop from r = floor(cf), which is already an integer, so the loop
      appends floor(cf) once more and stops. */
  method FloorFirstQuotients(cf: real, precision: nat) returns (q: seq<int>)
    ensures q == if precision == 0 then [cf.Floor] else [cf.Floor, cf.Floor]
  {
    q := [cf.Floor];
    var more := ExpandFraction(cf.Floor as real, precision);
    q := q + more;
  }

  /** 7/2 = [3; 2], but the quotients kept for it are [3, 3], worth 10/3. */
  lemma FloorFirstLosesTheFraction()
    ensures (7.0 / 2.0).Floor == 3
    ensures Value([3, 3]) == Ok(10.0 / 3.0) && 10.0 / 3.0 != 7.0 / 2.0
    ensures Value([3, 2]) == Ok(7.0 / 2.0)
  {
    assert [3, 3][1..] == [3];
    assert [3][1..] == [];
    assert [3, 2][1..] == [2];
    assert [2][1..] == [];
  }

  /** Any fraction in [0, 1) is kept as [0, 0], whose value raises
      ZeroDivisionError. */
  lemma FloorFirstDividesByZero(cf: real)
    requires 0.0 <= cf < 1.0
    ensures cf.Floor == 0
    ensures Value([cf.Floor, cf.Floor]) == Err(ZeroDivisionError)
  {
    assert [0, 0][1..] == [0];
    assert [0][1..] == [];
  }
}
