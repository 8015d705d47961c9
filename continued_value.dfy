/** Exact evaluation of continued fractions, shared by both versions of
    the class: the accumulator loop `result = Fraction(1, b + result)` of
    `calculate`, and the mathematical value it is compared with. */
module ContinuedValue {
  import opened PyRuntime

  /** One turn of `result = Fraction(1, b + result)`; Fraction(1, 0)
      raises ZeroDivisionError. */
  function Step(acc: real, b: int): Result<real> {
    if b as real + acc == 0.0 then Err(ZeroDivisionError) else Ok(1.0 / (b as real + acc))
  }

  /** The accumulator after `for b in terms: result = Fraction(1, b + result)`
      started from 0: the first term walked ends up innermost. */
  function Walk(terms: seq<int>): Result<real>
    decreases |terms|
  {
    if terms == [] then Ok(0.0)
    else match Walk(terms[..|terms| - 1])
      case Err(e) => Err(e)
      case Ok(acc) => Step(acc, terms[|terms| - 1])
  }

  /** The value of the tail [b1, b2, ..., bn] of a continued fraction,
      1/(b1 + 1/(b2 + ... + 1/bn)), and 0 for no terms. */
  function TailValue(tail: seq<int>): Result<real>
    decreases |tail|
  {
    if tail == [] then Ok(0.0)
    else match TailValue(tail[1..])
      case Err(e) => Err(e)
      case Ok(v) => Step(v, tail[0])
  }

  /** The value of [a0; a1, ..., an] = a0 + 1/(a1 + 1/(... + 1/an)). */
  function Value(quotients: seq<int>): Result<real>
    requires |quotients| >= 1
  {
    match TailValue(quotients[1..])
    case Err(e) => Err(e)
    case Ok(v) => Ok(quotients[0] as real + v)
  }

  /** quotients[1:]: the tail after a0, empty when there is no a0. */
  function RestOf(quotients: seq<int>): seq<int> {
    if quotients == [] then [] else quotients[1..]
  }

  /** a0 put back in front of the tail, and more terms after it. */
  lemma HeadThenRest(q: seq<int>, more: seq<int>)
    requires q != []
    ensures [q[0]] + (q[1..] + more) == q + more
    ensures [q[0]] + q[1..] == q
  {
  }

  /** The terms of a sequence in the opposite order (Python's reversed). */
  function Reverse(s: seq<int>): (r: seq<int>)
    ensures |r| == |s|
  {
    seq(|s|, i requires 0 <= i < |s| => s[|s| - 1 - i])
  }

  /** The first n terms of the periodic tail period, period, period, ... */
  function Periodic(period: seq<int>, n: nat): (r: seq<int>)
    requires |period| >= 1
    ensures |r| == n
  {
    seq(n, j requires 0 <= j < n => period[j % |period|])
  }

  predicate AllPositive(terms: seq<int>) {
    forall k :: 0 <= k < |terms| ==> terms[k] >= 1
  }

  /** Walking terms in order evaluates the tail that lists them in reverse:
      the last term walked is the outermost. */
  lemma {:induction false} WalkIsTailValueOfReverse(terms: seq<int>)
    ensures Walk(terms) == TailValue(Reverse(terms))
    decreases |terms|
  {
    if terms != [] {
      var n := |terms|;
      var front := terms[..n - 1];
      assert Reverse(terms)[1..] == Reverse(front);
      assert Reverse(terms)[0] == terms[n - 1];
      WalkIsTailValueOfReverse(front);
    }
  }

  /** Walking the reversed tail, as the finite branch of `calculate` does,
      gives the tail's value. */
  lemma WalkOfReverse(tail: seq<int>)
    ensures Walk(Reverse(tail)) == TailValue(tail)
  {
    WalkIsTailValueOfReverse(Reverse(tail));
    assert Reverse(Reverse(tail)) == tail;
  }

  /** With every term at least 1 no division by zero occurs, and the value
      of a tail lies in (0, 1] (exactly 0 for the empty tail). */
  lemma {:induction false} TailValueBounds(tail: seq<int>)
    requires AllPositive(tail)
    ensures TailValue(tail).Ok?
    ensures 0.0 <= TailValue(tail).value <= 1.0
    ensures tail != [] ==> 0.0 < TailValue(tail).value
    decreases |tail|
  {
    if tail != [] {
      TailValueBounds(tail[1..]);
      var v := TailValue(tail[1..]).value;
      var den := tail[0] as real + v;
      assert den >= 1.0;
      assert 1.0 / den <= 1.0 by {
        assert (1.0 / den) * den == 1.0;
      }
    }
  }

  /** The first term of a positive tail decides its value to within one:
      it lies in [1/(t0 + 1), 1/t0], strictly below 1/t0 when more terms
      follow. */
  lemma LeadingTermBounds(tail: seq<int>)
    requires tail != [] && AllPositive(tail)
    ensures TailValue(tail).Ok?
    ensures 1.0 / (tail[0] as real + 1.0) <= TailValue(tail).value <= 1.0 / tail[0] as real
    ensures |tail| >= 2 ==> TailValue(tail).value < 1.0 / tail[0] as real
  {
    TailValueBounds(tail[1..]);
    var v := TailValue(tail[1..]).value;
    var t0 := tail[0] as real;
    assert t0 >= 1.0;
    ReciprocalShrinks(t0, t0 + v);
    ReciprocalShrinks(t0 + v, t0 + 1.0);
  }

  lemma ReciprocalShrinks(x: real, y: real)
    requires 0.0 < x <= y
    ensures 1.0 / y <= 1.0 / x
    ensures x < y ==> 1.0 / y < 1.0 / x
  {
    assert (1.0 / x) * x == 1.0;
    assert (1.0 / y) * y == 1.0;
  }

  /** With every tail term at least 1 the value is defined and lies in
      [a0, a0 + 1], strictly above a0 when there is a tail. */
  lemma ValueBounds(quotients: seq<int>)
    requires |quotients| >= 1 && AllPositive(quotients[1..])
    ensures Value(quotients).Ok?
    ensures quotients[0] as real <= Value(quotients).value <= quotients[0] as real + 1.0
    ensures |quotients| >= 2 ==> quotients[0] as real < Value(quotients).value
  {
    TailValueBounds(quotients[1..]);
  }

  /** Once the walk has raised, walking more terms raises the same error. */
  lemma {:induction false} WalkKeepsError(terms: seq<int>, k: nat)
    requires k <= |terms|
    requires Walk(terms[..k]).Err?
    ensures Walk(terms) == Walk(terms[..k])
    decreases |terms|
  {
    if k < |terms| {
      var front := terms[..|terms| - 1];
      assert front[..k] == terms[..k];
      WalkKeepsError(front, k);
    } else {
      assert terms[..k] == terms;
    }
  }

  /** The loop `for b in terms: result = Fraction(1, b + result)`. */
  method Accumulate(terms: seq<int>) returns (r: Result<real>)
    ensures r == Walk(terms)
  {
    var result := 0.0;
    for k := 0 to |terms|
      invariant Walk(terms[..k]) == Ok(result)
    {
      var b := terms[k];
      assert terms[..k + 1][..k] == terms[..k];
      if b as real + result == 0.0 {
        WalkKeepsError(terms, k + 1);
        return Err(ZeroDivisionError);
      }
      result := 1.0 / (b as real + result);
    }
    assert terms[..|terms|] == terms;
    r := Ok(result);
  }

  /** `result += a0` after the walk; a0 of no quotients raises IndexError. */
  function AddLeading(walked: Result<real>, pq: seq<int>): Result<real> {
    match walked
    case Err(e) => Err(e)
    case Ok(v) => if pq == [] then Err(IndexError) else Ok(v + pq[0] as real)
  }

  /** What a next-number generator evidently means to yield:
      rest[i - 1] for i from min(endPoint, L) down to 1. */
  function CorrectedNextNumberTerms(pq: seq<int>, endPoint: int): seq<int> {
    var rest := RestOf(pq);
    var start := if endPoint < |rest| then endPoint else |rest|;
    if start <= 0 then [] else seq(start, k requires 0 <= k < start => rest[start - 1 - k])
  }

  /** Walking those terms evaluates the first min(endPoint, L) tail terms,
      the whole tail once endPoint reaches L. */
  lemma CorrectedNextNumberWalk(q: seq<int>, endPoint: int)
    requires q != [] && endPoint >= 0
    ensures var start := if endPoint < |q| - 1 then endPoint else |q| - 1;
            Walk(CorrectedNextNumberTerms(q, endPoint)) == TailValue(q[1..][..start])
    ensures endPoint >= |q| - 1 ==>
              AddLeading(Walk(CorrectedNextNumberTerms(q, endPoint)), q) == Value(q)
  {
    var rest := q[1..];
    var start := if endPoint < |rest| then endPoint else |rest|;
    assert CorrectedNextNumberTerms(q, endPoint) == Reverse(rest[..start]);
    WalkOfReverse(rest[..start]);
    assert rest[..|rest|] == rest;
  }
}
