/** The packaged `ContinuedFraction` class of src/confrac/confrac.py: a kind
    (F finite, NFR non-finite repeating, NFNR non-finite non-repeating)
    and a list of partial quotients whose head is a0 and whose remainder
    `rest` is the tail, or for a repeating fraction the period. */
module Confrac {
  import opened PyRuntime
  import opened PyText
  import opened ContinuedValue
  import Notation
  import SquareRoot
  import FractionExpansion

  datatype Kind = F | NFR | NFNR

  /** What the constructor can be given: a list, a string in bracket
      notation, a Fraction, or anything else. */
  datatype Arg = ListArg(xs: seq<int>) | StrArg(s: string) | FractionArg(r: real) | OtherArg

  /** The class attribute `precision`, also the default `terms` of
      `calculate` and `endPoint` of both generators. */
  const Precision: nat := 100

  /** The instance attributes. `kind` is assigned first thing in
      `__init__`; `_partialQuotients` is None when nothing assigned it,
      and reading it then raises AttributeError. */
  datatype Attributes = Attributes(kind: Kind, partialQuotients: Option<seq<int>>)

  function KindOf(shape: Notation.Shape): Kind {
    match shape
    case Plain => F
    case Ellipsis => NFNR
    case Periodic => NFR
  }

  // ---------------------------------------------------------------------
  // Construction

  /** `_initFromString` applied to the attributes a: a bracketed notation
      sets the kind and the quotients, dropping two characters at each end
      of a period "([...])"; any other string leaves a as it is. */
  function FromString(a: Attributes, cf: string): Result<Attributes> {
    match Notation.ParseNotation(cf, 2)
    case Err(e) => Err(e)
    case Ok(None) => Ok(a)
    case Ok(Some(p)) => Ok(Attributes(KindOf(p.shape), Some(p.quotients)))
  }

  /** The attributes `_initFromFraction` leaves: kind F and the quotients
      [floor(cf), floor(cf)]. */
  function FromFraction(cf: real): Attributes {
    Attributes(F, Some([cf.Floor, cf.Floor]))
  }

  /** `__init__(partialQuotients, kind)`: the kind is stored first; a list
      is then stored as the quotients, a string or a Fraction is handed to
      its initialiser, and anything else raises TypeError. */
  function Construct(cf: Arg, kind: Kind): Result<Attributes> {
    var a := Attributes(kind, None);
    match cf
    case ListArg(xs) => Ok(a.(partialQuotients := Some(xs)))
    case StrArg(s) => FromString(a, s)
    case FractionArg(r) => Ok(FromFraction(r))
    case OtherArg => Err(TypeError)
  }

  /** `ContinuedFraction()`: the default arguments [0] and Kind.F. */
  function Default(): Attributes {
    Attributes(F, Some([0]))
  }

  // ---------------------------------------------------------------------
  // The generators and calculate

  /** `_repetionGenerator(endPoint)`: rest[e % L] for e from endPoint down
      to 0, endPoint + 1 terms; with no period terms the first `%` raises
      ZeroDivisionError. */
  function RepetitionTerms(pq: seq<int>, endPoint: int): Result<seq<int>> {
    var rest := RestOf(pq);
    if endPoint < 0 then Ok([])
    else if |rest| == 0 then Err(ZeroDivisionError)
    else Ok(seq(endPoint + 1, k requires 0 <= k <= endPoint => rest[(endPoint - k) % |rest|]))
  }

  /** `_nextNumberGenerator(endPoint)`: rest[i % L] for i from
      min(endPoint, L) down to 1. */
  function NextNumberTerms(pq: seq<int>, endPoint: int): seq<int> {
    var rest := RestOf(pq);
    var start := if endPoint < |rest| then endPoint else |rest|;
    if start <= 0 then [] else seq(start, k requires 0 <= k < start => rest[(start - k) % |rest|])
  }

  /** `calculate(terms)`: a repeating fraction walks its repetition
      generator, a finite one its next-number generator, and a0 is added;
      a non-finite, non-repeating fraction is 0. */
  function Calculation(a: Attributes, terms: int): Result<real> {
    match a.kind
    case NFNR => Ok(0.0)
    case NFR =>
      (match a.partialQuotients
       case None => Err(AttributeError)
       case Some(pq) =>
         match RepetitionTerms(pq, terms)
         case Err(e) => Err(e)
         case Ok(ts) => AddLeading(Walk(ts), pq))
    case F =>
      match a.partialQuotients
      case None => Err(AttributeError)
      case Some(pq) => AddLeading(Walk(NextNumberTerms(pq, terms)), pq)
  }

  // ---------------------------------------------------------------------
  // __str__

  /** The text after "(" of a repeating fraction: the list of its period
      terms, built by hand with its last ", " cut off when it has more than
      one term, str(rest) otherwise. */
  function PeriodList(rest: seq<int>): string {
    if |rest| > 1 then "[" + Slice(Terminated(IntStrings(rest), ", "), 0, -2) + "]"
    else ListString(rest)
  }

  /** `__str__`: "[a0; ([r1, ..., rn]) ...]" for a repeating fraction and
      "[a0; a1, ..., an]" otherwise. */
  function Render(a: Attributes): Result<string> {
    match a.partialQuotients
    case None => Err(AttributeError)
    case Some(pq) =>
      if pq == [] then Err(IndexError)
      else if a.kind == NFR then Ok("[" + IntToString(pq[0]) + "; (" + PeriodList(RestOf(pq)) + ")" + " ...]")
      else Ok("[" + IntToString(pq[0]) + "; " + Slice(ListString(RestOf(pq)), 1, -1) + "]")
  }

  // ---------------------------------------------------------------------
  // The class

  class ContinuedFraction {
    var kind: Kind
    var partialQuotients: Option<seq<int>>

    function Attrs(): Attributes
      reads this
    {
      Attributes(kind, partialQuotients)
    }

    /** `__init__` storing the kind, before anything else. */
    constructor (kind: Kind)
      ensures Attrs() == Attributes(kind, None)
    {
      this.kind := kind;
      partialQuotients := None;
    }

    /** The property `a0`. */
    function A0(): (r: Result<int>)
      reads this
      ensures r.Ok? <==> partialQuotients.Some? && |partialQuotients.value| >= 1
      ensures r.Ok? ==> r.value == partialQuotients.value[0]
      ensures partialQuotients.None? ==> r == Err(AttributeError)
      ensures partialQuotients == Some([]) ==> r == Err(IndexError)
    {
      match partialQuotients
      case None => Err(AttributeError)
      case Some(pq) => if pq == [] then Err(IndexError) else Ok(pq[0])
    }

    /** The property `rest`. */
    function Rest(): (r: Result<seq<int>>)
      reads this
      ensures r.Ok? <==> partialQuotients.Some?
      ensures r.Ok? && |partialQuotients.value| >= 1 ==> partialQuotients.value == [A0().value] + r.value
      ensures r.Ok? && partialQuotients.value == [] ==> r.value == []
    {
      match partialQuotients
      case None => Err(AttributeError)
      case Some(pq) => Ok(RestOf(pq))
    }

    /** `_initFromString`. When it raises, `__init__` raises too and the
        instance is never handed out, so only the successful outcome
        states the new attributes. */
    method InitFromString(cf: string) returns (outcome: Outcome)
      modifies this
      ensures outcome.Pass? <==> FromString(old(Attrs()), cf).Ok?
      ensures outcome.Fail? ==> outcome.error == FromString(old(Attrs()), cf).error
      ensures outcome.Pass? ==> Attrs() == FromString(old(Attrs()), cf).value
    {
      var parsed := Notation.ParseNotation(cf, 2);
      match parsed {
        case Err(e) =>
          return Fail(e);
        case Ok(None) =>
          return Pass;
        case Ok(Some(p)) =>
          kind := KindOf(p.shape);
          partialQuotients := Some(p.quotients);
          return Pass;
      }
    }

    /** `_initFromFraction`, running the loop of its source. */
    method InitFromFraction(cf: real)
      modifies this
      ensures Attrs() == FromFraction(cf)
    {
      kind := F;
      var q := FractionExpansion.FloorFirstQuotients(cf, Precision);
      partialQuotients := Some(q);
    }

    /** `ContinuedFraction(partialQuotients, kind)`: a new instance, or the
        error `__init__` raises. */
    static method New(cf: Arg, kind: Kind) returns (r: Result<ContinuedFraction>)
      ensures r.Ok? <==> Construct(cf, kind).Ok?
      ensures r.Err? ==> r.error == Construct(cf, kind).error
      ensures r.Ok? ==> fresh(r.value) && r.value.Attrs() == Construct(cf, kind).value
    {
      var c := new ContinuedFraction(kind);
      match cf {
        case ListArg(xs) =>
          c.partialQuotients := Some(xs);
        case StrArg(s) =>
          var outcome := c.InitFromString(s);
          if outcome.Fail? {
            return Err(outcome.error);
          }
        case FractionArg(x) =>
          c.InitFromFraction(x);
        case OtherArg =>
          return Err(TypeError);
      }
      r := Ok(c);
    }

    /** `_repetionGenerator(endPoint)`, counting endPoint down to 0. */
    method RepetitionGenerator(endPoint: int) returns (r: Result<seq<int>>)
      ensures partialQuotients.None? ==> r == Err(AttributeError)
      ensures partialQuotients.Some? ==> r == RepetitionTerms(partialQuotients.value, endPoint)
    {
      if partialQuotients.None? {
        return Err(AttributeError);
      }
      var rest := RestOf(partialQuotients.value);
      var patternLength := |rest|;
      var terms: seq<int> := [];
      var e := endPoint;
      while e >= 0
        invariant endPoint < 0 ==> e == endPoint && terms == []
        invariant endPoint >= 0 ==> -1 <= e <= endPoint && |terms| == endPoint - e
        invariant patternLength == 0 ==> e == endPoint
        invariant patternLength > 0 ==>
                    forall k :: 0 <= k < |terms| ==> terms[k] == rest[(endPoint - k) % patternLength]
        decreases e
      {
        if patternLength == 0 {
          return Err(ZeroDivisionError);
        }
        terms := terms + [rest[e % patternLength]];
        e := e - 1;
      }
      if endPoint >= 0 {
        assert terms == seq(endPoint + 1, k requires 0 <= k <= endPoint => rest[(endPoint - k) % |rest|]);
      }
      r := Ok(terms);
    }

    /** `_nextNumberGenerator(endPoint)`, counting the index down to 1. */
    method NextNumberGenerator(endPoint: int) returns (r: Result<seq<int>>)
      ensures partialQuotients.None? ==> r == Err(AttributeError)
      ensures partialQuotients.Some? ==> r == Ok(NextNumberTerms(partialQuotients.value, endPoint))
    {
      if partialQuotients.None? {
        return Err(AttributeError);
      }
      var rest := RestOf(partialQuotients.value);
      var patternLength := |rest|;
      var index := if endPoint < patternLength then endPoint else patternLength;
      ghost var start := index;
      var terms: seq<int> := [];
      while index > 0
        invariant start <= 0 ==> index == start && terms == []
        invariant start > 0 ==> 0 <= index <= start <= patternLength && |terms| == start - index
        invariant forall k :: 0 <= k < |terms| ==> terms[k] == rest[(start - k) % patternLength]
        decreases index
      {
        terms := terms + [rest[index % patternLength]];
        index := index - 1;
      }
      if start > 0 {
        assert terms == seq(start, k requires 0 <= k < start => rest[(start - k) % |rest|]);
      }
      r := Ok(terms);
    }

    /** `calculate(terms)`. */
    method Calculate(terms: int) returns (r: Result<real>)
      ensures r == Calculation(Attrs(), terms)
    {
      if kind == NFNR {
        return Ok(0.0);
      }
      var generated: Result<seq<int>>;
      if kind == NFR {
        generated := RepetitionGenerator(terms);
      } else {
        generated := NextNumberGenerator(terms);
      }
      if generated.Err? {
        return Err(generated.error);
      }
      var walked := Accumulate(generated.value);
      if walked.Err? {
        return Err(walked.error);
      }
      var a0 := A0();
      if a0.Err? {
        return Err(a0.error);
      }
      r := Ok(walked.value + a0.value as real);
    }

    /** `__str__`. */
    function Str(): Result<string>
      reads this
    {
      Render(Attrs())
    }

    /** `getSquareRoot(s)`: the quotients of the square-root loop, of kind
        NFR. */
    static method GetSquareRoot(s: int) returns (r: Result<ContinuedFraction>)
      ensures r.Ok? <==> s >= 0
      ensures r.Err? ==> r.error == ValueError
      ensures r.Ok? ==> fresh(r.value)
      ensures r.Ok? ==>
                r.value.Attrs() == Attributes(NFR, Some(SquareRoot.Expansion(s, Precision).value))
    {
      var quotients := SquareRoot.SquareRootQuotients(s, Precision);
      if quotients.Err? {
        return Err(quotients.error);
      }
      SquareRoot.ExpansionShape(s, Precision);
      r := New(ListArg(quotients.value), NFR);
    }
  }

  // ---------------------------------------------------------------------
  // Construction

  /** An empty string once its spaces are removed raises IndexError at
      cf[0]. A non-empty one that is not bracketed keeps the given kind and
      assigns no quotients, so `calculate` raises
      AttributeError except for NFNR, which is 0 without reading them; an
      argument of any other type raises TypeError. */
  lemma ConstructOutsideTheNotation(cf: string, kind: Kind, terms: int)
    requires var s := RemoveSpaces(cf); !(|s| > 0 && s[0] == '[' && s[|s| - 1] == ']')
    ensures RemoveSpaces(cf) == "" ==> Construct(StrArg(cf), kind) == Err(IndexError)
    ensures RemoveSpaces(cf) != "" ==> Construct(StrArg(cf), kind) == Ok(Attributes(kind, None))
    ensures Calculation(Attributes(kind, None), terms) == if kind == NFNR then Ok(0.0) else Err(AttributeError)
    ensures Construct(OtherArg, kind) == Err(TypeError)
  {
  }

  /** A parsed string always yields a0 and at least one tail term. */
  lemma ConstructFromNotation(cf: string, kind: Kind)
    requires Construct(StrArg(cf), kind).Ok?
    ensures var a := Construct(StrArg(cf), kind).value;
            a.partialQuotients.Some? ==> |a.partialQuotients.value| >= 2
  {
    Notation.ParsedHasTail(cf, 2);
  }

  /** The default instance is [0; ], worth 0 for any number of terms. */
  lemma DefaultIsZero(terms: int)
    ensures Construct(ListArg([0]), F) == Ok(Default())
    ensures Calculation(Default(), terms) == Ok(0.0)
  {
    assert RestOf([0]) == [];
  }

  // ---------------------------------------------------------------------
  // calculate

  /** The repetition generator yields rest[terms % L] first and rest[0]
      last, so walking it evaluates the period repeated from rest[0]:
      [a0; r0, r1, ..., r(L-1), r0, ...] cut after terms + 1 terms. Without
      period terms the `%` raises ZeroDivisionError; with a negative count
      nothing is walked. */
  lemma RepeatingCalculation(q: seq<int>, terms: int)
    ensures terms >= 0 && |q| <= 1 ==> Calculation(Attributes(NFR, Some(q)), terms) == Err(ZeroDivisionError)
    ensures terms < 0 ==> Calculation(Attributes(NFR, Some(q)), terms) == if q == [] then Err(IndexError) else Ok(q[0] as real)
    ensures terms >= 0 && |q| >= 2 ==>
              Calculation(Attributes(NFR, Some(q)), terms) == Value([q[0]] + Periodic(q[1..], terms + 1))
  {
    if terms >= 0 && |q| >= 2 {
      var rest := q[1..];
      var walked := RepetitionTerms(q, terms).value;
      var tail := Periodic(rest, terms + 1);
      assert Reverse(walked) == tail;
      WalkIsTailValueOfReverse(walked);
      assert ([q[0]] + tail)[1..] == tail;
    }
  }

  /** With every period term at least 1, a repeating fraction calculates
      to a value in (a0, a0 + 1]. */
  lemma RepeatingCalculationBounds(q: seq<int>, terms: int)
    requires |q| >= 2 && terms >= 0 && AllPositive(q[1..])
    ensures Calculation(Attributes(NFR, Some(q)), terms).Ok?
    ensures q[0] as real < Calculation(Attributes(NFR, Some(q)), terms).value <= q[0] as real + 1.0
  {
    RepeatingCalculation(q, terms);
    var v := [q[0]] + Periodic(q[1..], terms + 1);
    assert v[1..] == Periodic(q[1..], terms + 1);
    ValueBounds(v);
  }

  /** "[1; ([2]) ...]" and the list [1, 2] of kind NFR are the same
      fraction. */
  lemma RepeatingExampleParses()
    ensures Construct(StrArg("[1; ([2]) ...]"), F) == Ok(Attributes(NFR, Some([1, 2])))
    ensures Construct(ListArg([1, 2]), NFR) == Ok(Attributes(NFR, Some([1, 2])))
  {
    RepeatingRoundTrip([1, 2], F);
    RepeatingExampleRendering([1, 2]);
  }

  lemma RepeatingExampleRendering(q: seq<int>)
    requires q == [1, 2]
    ensures Render(Attributes(NFR, Some(q))) == Ok("[1; ([2]) ...]")
  {
    Rendering(NFR, q);
    var one, two := IntToString(1), IntToString(2);
    assert one == "1" && two == "2";
    assert q[1..] == [2];
    assert IntStrings([2]) == [two];
    assert Join([two], ", ") == "2";
    assert Notation.PeriodText([2], "([", "])") == "([" + "2" + "])" + " ...";
    assert "[" + one + "; " + ("([" + "2" + "])" + " ...") + "]" == "[1; ([2]) ...]";
  }

  /** It is [1; 2, 2, 2, ...] cut after 101 terms, which lies in (1, 2]. */
  lemma RepeatingExampleValue(q: seq<int>)
    requires q == [1, 2]
    ensures Calculation(Attributes(NFR, Some(q)), Precision) == Value([1] + Periodic([2], 101))
    ensures Calculation(Attributes(NFR, Some(q)), Precision).Ok?
    ensures 1.0 < Calculation(Attributes(NFR, Some(q)), Precision).value <= 2.0
  {
    RepeatingCalculation(q, Precision);
    assert q[1..] == [2];
    RepeatingCalculationBounds(q, Precision);
  }

  /** With 1 <= start = min(terms, L), the next-number generator yields
      rest[start % L] first and then rest[start - 1], ..., rest[1]: it
      evaluates rest[1..start] followed by rest[start % L], which leaves
      out rest[0] and, once terms reaches L, moves it to the far end.
      With no tail or no terms it is a0 alone. */
  lemma FiniteCalculation(q: seq<int>, terms: int)
    ensures q == [] ==> Calculation(Attributes(F, Some(q)), terms) == Err(IndexError)
    ensures q != [] && (|q| == 1 || terms <= 0) ==> Calculation(Attributes(F, Some(q)), terms) == Ok(q[0] as real)
    ensures |q| >= 2 && terms >= 1 ==>
              var rest := q[1..];
              var start := if terms < |rest| then terms else |rest|;
              var tail := rest[1..start] + [if start == |rest| then rest[0] else rest[start]];
              Calculation(Attributes(F, Some(q)), terms) == Value([q[0]] + tail)
  {
    if |q| >= 2 && terms >= 1 {
      var rest := q[1..];
      var start := if terms < |rest| then terms else |rest|;
      var tail := rest[1..start] + [if start == |rest| then rest[0] else rest[start]];
      NextNumberWalk(q, terms, tail);
      LeadingThenTail(q[0], tail, q);
      assert Calculation(Attributes(F, Some(q)), terms) == AddLeading(Walk(NextNumberTerms(q, terms)), q);
    } else if q != [] {
      assert NextNumberTerms(q, terms) == [];
    }
  }

  /** Adding a0 to the value of a tail is the value of a0 followed by it. */
  lemma LeadingThenTail(a0: int, tail: seq<int>, q: seq<int>)
    requires q != [] && q[0] == a0
    ensures AddLeading(TailValue(tail), q) == Value([a0] + tail)
  {
    assert ([a0] + tail)[1..] == tail;
  }

  lemma NextNumberWalk(q: seq<int>, terms: int, tail: seq<int>)
    requires |q| >= 2 && terms >= 1
    requires var rest := q[1..];
             var start := if terms < |rest| then terms else |rest|;
             tail == rest[1..start] + [if start == |rest| then rest[0] else rest[start]]
    ensures Walk(NextNumberTerms(q, terms)) == TailValue(tail)
  {
    NextNumberReversed(q, terms);
    WalkIsTailValueOfReverse(NextNumberTerms(q, terms));
  }

  /** The next-number terms in walking order reversed: rest[1..start]
      and then rest[start % L], which is rest[0] when start is L. */
  lemma NextNumberReversed(q: seq<int>, terms: int)
    requires |q| >= 2 && terms >= 1
    ensures var rest := q[1..];
            var start := if terms < |rest| then terms else |rest|;
            Reverse(NextNumberTerms(q, terms)) == rest[1..start] + [if start == |rest| then rest[0] else rest[start]]
  {
    var rest := q[1..];
    var start := if terms < |rest| then terms else |rest|;
    assert NextNumberTerms(q, terms) == seq(start, k requires 0 <= k < start => rest[(start - k) % |rest|]);
    CountDownReversed(rest, start);
  }

  lemma CountDownReversed(rest: seq<int>, start: int)
    requires 1 <= start <= |rest|
    ensures Reverse(seq(start, k requires 0 <= k < start => rest[(start - k) % |rest|])) ==
            rest[1..start] + [if start == |rest| then rest[0] else rest[start]]
  {
    var n := |rest|;
    var walked := seq(start, k requires 0 <= k < start => rest[(start - k) % n]);
    var tail := rest[1..start] + [if start == n then rest[0] else rest[start]];
    var back := Reverse(walked);
    assert |back| == |tail|;
    forall i | 0 <= i < start
      ensures back[i] == tail[i]
    {
      assert back[i] == rest[(i + 1) % n];
      CountDownTerm(rest, start, i);
    }
  }

  /** The i-th term of rest[1..start] + [rest[start % L]] is rest[(i + 1) % L]. */
  lemma CountDownTerm(rest: seq<int>, start: int, i: int)
    requires 1 <= start <= |rest| && 0 <= i < start
    ensures rest[(i + 1) % |rest|] == (rest[1..start] + [if start == |rest| then rest[0] else rest[start]])[i]
  {
    if i + 1 < |rest| {
      ModOfSmall(i + 1, |rest|);
    }
  }

  lemma ModOfSmall(x: int, n: int)
    requires 0 <= x < n
    ensures x % n == x
  {
  }

  /** Once terms reaches the tail length L, a finite fraction evaluates
      [a0; a2, ..., aL, a1]: its first tail term is moved to the end. */
  lemma FiniteCalculationRotates(q: seq<int>, terms: int)
    requires |q| >= 2 && terms >= |q| - 1
    ensures Calculation(Attributes(F, Some(q)), terms) == Value([q[0]] + q[2..] + [q[1]])
  {
    FiniteCalculation(q, terms);
    var rest := q[1..];
    var tail := rest[1..|rest|] + [rest[0]];
    assert tail == q[2..] + [q[1]];
    assert [q[0]] + tail == [q[0]] + q[2..] + [q[1]];
  }

  /** [3, 2] has a one-term tail, which the rotation leaves alone: 7/2. */
  lemma FiniteExampleOneTerm()
    ensures Construct(ListArg([3, 2]), F) == Ok(Attributes(F, Some([3, 2])))
    ensures Calculation(Attributes(F, Some([3, 2])), Precision) == Ok(7.0 / 2.0)
  {
    FiniteCalculationRotates([3, 2], Precision);
    assert [3, 2][2..] == [];
    assert [3] + [] + [2] == [3, 2];
    assert [3, 2][1..] == [2];
    assert [2][1..] == [];
  }

  /** "[3; 2, 1, 3]" reads as the finite fraction [3, 2, 1, 3]. */
  lemma FiniteExampleParses()
    ensures Construct(StrArg("[3; 2, 1, 3]"), F) == Ok(Attributes(F, Some([3, 2, 1, 3])))
  {
    ListReadsBack(3, [2, 1, 3], F);
    FiniteExampleText();
    assert [3] + [2, 1, 3] == [3, 2, 1, 3];
  }

  lemma FiniteExampleText()
    ensures "[" + IntToString(3) + "; " + Join(IntStrings([2, 1, 3]), ", ") + "]" == "[3; 2, 1, 3]"
  {
    assert IntToString(1) == "1" && IntToString(2) == "2" && IntToString(3) == "3";
    assert IntStrings([2, 1, 3]) == ["2", "1", "3"];
    assert Join(["2", "1", "3"], ", ") == "2" + ", " + Join(["1", "3"], ", ");
    assert Join(["1", "3"], ", ") == "1" + ", " + Join(["3"], ", ");
    assert Join(["3"], ", ") == "3";
    assert "[" + "3" + "; " + ("2" + ", " + ("1" + ", " + "3")) + "]" == "[3; 2, 1, 3]";
  }

  /** [3; 2, 1, 3] is 37/11, but `calculate` evaluates [3; 1, 3, 2]: 34/9.
      The walk the generator evidently means gives 37/11. */
  lemma FiniteExampleValue()
    ensures Value([3, 2, 1, 3]) == Ok(37.0 / 11.0)
    ensures Calculation(Attributes(F, Some([3, 2, 1, 3])), Precision) == Ok(34.0 / 9.0)
    ensures AddLeading(Walk(CorrectedNextNumberTerms([3, 2, 1, 3], Precision)), [3, 2, 1, 3]) == Ok(37.0 / 11.0)
  {
    var q := [3, 2, 1, 3];
    assert q[1..] == [2, 1, 3] && [2, 1, 3][1..] == [1, 3] && [1, 3][1..] == [3] && [3][1..] == [];
    assert TailValue([3]) == Ok(1.0 / 3.0);
    assert TailValue([1, 3]) == Ok(3.0 / 4.0);
    assert TailValue([2, 1, 3]) == Ok(4.0 / 11.0);
    FiniteCalculationRotates(q, Precision);
    var r := [3] + q[2..] + [q[1]];
    assert r == [3, 1, 3, 2];
    assert r[1..] == [1, 3, 2] && [1, 3, 2][1..] == [3, 2] && [3, 2][1..] == [2] && [2][1..] == [];
    assert TailValue([2]) == Ok(1.0 / 2.0);
    assert TailValue([3, 2]) == Ok(2.0 / 7.0);
    assert TailValue([1, 3, 2]) == Ok(7.0 / 9.0);
    CorrectedNextNumberWalk(q, Precision);
  }

  /** The walk the next-number generator evidently means evaluates every
      finite fraction exactly once terms reaches its tail length. */
  lemma CorrectedFiniteCalculation(q: seq<int>, terms: int)
    requires q != [] && terms >= |q| - 1
    ensures AddLeading(Walk(CorrectedNextNumberTerms(q, terms)), q) == Value(q)
  {
    CorrectedNextNumberWalk(q, terms);
  }

  /** A Fraction in [0, 1) is kept as [0, 0]: walking any of its terms
      raises ZeroDivisionError, and only a calculation of no terms gives 0. */
  lemma FractionBelowOneRaises(cf: real, kind: Kind, terms: int)
    requires 0.0 <= cf < 1.0
    ensures Construct(FractionArg(cf), kind) == Ok(FromFraction(cf))
    ensures terms >= 1 ==> Calculation(FromFraction(cf), terms) == Err(ZeroDivisionError)
    ensures terms <= 0 ==> Calculation(FromFraction(cf), terms) == Ok(0.0)
  {
    FractionExpansion.FloorFirstDividesByZero(cf);
    FiniteCalculation([0, 0], terms);
    assert [0, 0][1..][1..1] + [[0, 0][1..][0]] == [0];
    assert [0] + [0] == [0, 0];
  }

  /** A non-finite, non-repeating fraction calculates to 0 whatever it
      holds. */
  lemma NonRepeatingIsZero(a: Attributes, terms: int)
    requires a.kind == NFNR
    ensures Calculation(a, terms) == Ok(0.0)
  {
  }

  // ---------------------------------------------------------------------
  // Rendering and re-parsing

  /** str(rest)[1:-1]: the tail without its brackets. */
  lemma ListStringInner(rest: seq<int>)
    ensures Slice(ListString(rest), 1, -1) == Join(IntStrings(rest), ", ")
  {
    var j := Join(IntStrings(rest), ", ");
    assert ListString(rest)[1..|ListString(rest)| - 1] == j;
  }

  /** Both ways `__str__` writes a period give str(rest). */
  lemma PeriodListIsListString(rest: seq<int>)
    ensures PeriodList(rest) == ListString(rest)
  {
    if |rest| > 1 {
      var parts := IntStrings(rest);
      TerminatedIsJoinThenSep(parts, ", ");
      var t := Terminated(parts, ", ");
      assert t == Join(parts, ", ") + ", ";
      assert Slice(t, 0, -2) == t[..|t| - 2];
      assert t[..|t| - 2] == Join(parts, ", ");
    }
  }

  /** `__str__` writes "[a0; ([r1, ..., rn]) ...]" for a repeating fraction
      and "[a0; a1, ..., an]" for any other. */
  lemma Rendering(k: Kind, q: seq<int>)
    requires q != []
    ensures k == NFR ==>
              Render(Attributes(k, Some(q))) ==
              Ok("[" + IntToString(q[0]) + "; " + Notation.PeriodText(q[1..], "([", "])") + "]")
    ensures k != NFR ==>
              Render(Attributes(k, Some(q))) == Ok("[" + IntToString(q[0]) + "; " + Join(IntStrings(q[1..]), ", ") + "]")
  {
    if k == NFR {
      RepeatingRendering(q);
    } else {
      ListStringInner(q[1..]);
    }
  }

  lemma RepeatingRendering(q: seq<int>)
    requires q != []
    ensures Render(Attributes(NFR, Some(q))) ==
              Ok("[" + IntToString(q[0]) + "; " + Notation.PeriodText(q[1..], "([", "])") + "]")
  {
    PeriodListIsListString(q[1..]);
    Bracketed(IntToString(q[0]), Join(IntStrings(q[1..]), ", "));
  }

  /** The same text grouped two ways. */
  lemma Bracketed(a: string, j: string)
    ensures "[" + a + "; (" + ("[" + j + "]") + ")" + " ...]" == "[" + a + "; " + ("([" + j + "])" + " ...") + "]"
  {
  }

  /** Constructing from "[str(a0); body]" when body's tail parses. */
  lemma ConstructFromRendered(a0: int, body: string, t: Notation.Tail, kind: Kind)
    requires ';' !in body && Notation.ParseTail(RemoveSpaces(body), 2) == Ok(t)
    ensures Construct(StrArg("[" + IntToString(a0) + "; " + body + "]"), kind) ==
              Ok(Attributes(KindOf(t.shape), Some([a0] + t.terms)))
  {
    Notation.ParseRendered(a0, body, 2);
  }

  /** "[str(a0); a1, ..., an]" reads as a finite fraction. */
  lemma ListReadsBack(a0: int, xs: seq<int>, kind: Kind)
    requires |xs| >= 1
    ensures Construct(StrArg("[" + IntToString(a0) + "; " + Join(IntStrings(xs), ", ") + "]"), kind) ==
              Ok(Attributes(F, Some([a0] + xs)))
  {
    Notation.ListTextParses(xs, 2);
    ConstructFromRendered(a0, Join(IntStrings(xs), ", "), Notation.Tail(Notation.Plain, xs), kind);
  }

  /** "[str(a0); ([r1, ..., rn]) ...]" reads as a repeating fraction. */
  lemma PeriodReadsBack(a0: int, xs: seq<int>, kind: Kind)
    requires |xs| >= 1
    ensures Construct(StrArg("[" + IntToString(a0) + "; " + Notation.PeriodText(xs, "([", "])") + "]"), kind) ==
              Ok(Attributes(NFR, Some([a0] + xs)))
  {
    Notation.PeriodTextParses(xs, "([", "])");
    ConstructFromRendered(a0, Notation.PeriodText(xs, "([", "])"), Notation.Tail(Notation.Periodic, xs), kind);
  }

  /** A finite fraction with a tail reads back from its rendering as the
      same quotients, whatever kind the constructor is given. */
  lemma FiniteRoundTrip(q: seq<int>, kind: Kind)
    requires |q| >= 2
    ensures Render(Attributes(F, Some(q))).Ok?
    ensures Construct(StrArg(Render(Attributes(F, Some(q))).value), kind) == Ok(Attributes(F, Some(q)))
  {
    Rendering(F, q);
    ListReadsBack(q[0], q[1..], kind);
    HeadThenRest(q, []);
  }

  /** A repeating fraction with a period reads back from its rendering as
      the same quotients and kind. */
  lemma RepeatingRoundTrip(q: seq<int>, kind: Kind)
    requires |q| >= 2
    ensures Render(Attributes(NFR, Some(q))).Ok?
    ensures Construct(StrArg(Render(Attributes(NFR, Some(q))).value), kind) == Ok(Attributes(NFR, Some(q)))
  {
    Rendering(NFR, q);
    PeriodReadsBack(q[0], q[1..], kind);
    HeadThenRest(q, []);
  }

  /** A non-finite, non-repeating fraction is written without "...", so it
      reads back as a finite one. */
  lemma NonRepeatingReadsBackFinite(q: seq<int>, kind: Kind)
    requires |q| >= 2
    ensures Render(Attributes(NFNR, Some(q))) == Render(Attributes(F, Some(q)))
    ensures Construct(StrArg(Render(Attributes(NFNR, Some(q))).value), kind) == Ok(Attributes(F, Some(q)))
  {
    Rendering(NFNR, q);
    Rendering(F, q);
    FiniteRoundTrip(q, kind);
  }

  /** Without tail terms a finite fraction is written "[a0; ]", which
      does not read back: int('') raises ValueError. */
  lemma FiniteWithoutTailDoesNotReadBack(a0: int, kind: Kind)
    ensures Render(Attributes(F, Some([a0]))) == Ok("[" + IntToString(a0) + "; " + "" + "]")
    ensures Construct(StrArg("[" + IntToString(a0) + "; " + "" + "]"), kind) == Err(ValueError)
  {
    Rendering(F, [a0]);
    assert [a0][1..] == [];
    assert RemoveSpaces("") == "";
    assert Split("", ',') == [""];
    assert ParseInt("") == Err(ValueError);
    Notation.ParseRendered(a0, "", 2);
  }

  /** Without period terms a repeating fraction is written
      "[a0; ([]) ...]", which does not read back either. */
  lemma RepeatingWithoutPeriodDoesNotReadBack(q: seq<int>, kind: Kind)
    requires |q| == 1
    ensures Notation.PeriodText(q[1..], "([", "])") == "([]) ..."
    ensures Render(Attributes(NFR, Some(q))) == Ok("[" + IntToString(q[0]) + "; " + Notation.PeriodText(q[1..], "([", "])") + "]")
    ensures Construct(StrArg(Render(Attributes(NFR, Some(q))).value), kind) == Err(ValueError)
  {
    Rendering(NFR, q);
    EmptyPeriodDoesNotParse(q[1..]);
    Notation.ParseRendered(q[0], Notation.PeriodText(q[1..], "([", "])"), 2);
  }

  /** "([]) ..." leaves int('') once its spaces are removed and two
      characters are dropped at each end of "([])". */
  lemma EmptyPeriodDoesNotParse(period: seq<int>)
    requires period == []
    ensures Notation.PeriodText(period, "([", "])") == "([]) ..."
    ensures Notation.ParseTail(RemoveSpaces(Notation.PeriodText(period, "([", "])")), 2) == Err(ValueError)
  {
    assert Join(IntStrings(period), ", ") == "";
    Notation.PeriodTextWithoutSpaces(period, "([", "])");
    assert Join(IntStrings(period), ",") == "";
    EmptyPeriodTail(RemoveSpaces(Notation.PeriodText(period, "([", "])")));
  }

  lemma EmptyPeriodTail(tail: string)
    requires tail == "([" + "" + "])" + "..."
    ensures Notation.ParseTail(tail, 2) == Err(ValueError)
  {
    assert EndsWith(tail, "...");
    assert Slice(tail, 0, -3) == "([])";
    assert Slice("([])", 2, -2) == "";
    assert Split("", ',') == [""];
    assert ParseInt("") == Err(ValueError);
  }

  // ---------------------------------------------------------------------
  // getSquareRoot

  /** sqrt(23) = [4; (1, 3, 1, 8)], and `calculate` walks that period from
      its start: the value lies in (4, 5]. */
  lemma SquareRootOf23(q: seq<int>)
    requires q == [4, 1, 3, 1, 8]
    ensures SquareRoot.Expansion(23, Precision) == Ok(q)
    ensures Calculation(Attributes(NFR, Some(q)), Precision) == Value([4] + Periodic([1, 3, 1, 8], 101))
    ensures Calculation(Attributes(NFR, Some(q)), Precision).Ok?
    ensures 4.0 < Calculation(Attributes(NFR, Some(q)), Precision).value <= 5.0
  {
    SquareRoot.ExpansionOf23(Precision);
    RepeatingCalculation(q, Precision);
    assert q[1..] == [1, 3, 1, 8];
    RepeatingCalculationBounds(q, Precision);
  }

  /** The square root of a perfect square is kept with no quotients, and
      calculating it raises ZeroDivisionError. */
  lemma SquareRootOfPerfectSquare(k: nat, terms: int)
    requires terms >= 0
    ensures SquareRoot.Expansion(k * k, Precision) == Ok([])
    ensures Calculation(Attributes(NFR, Some([])), terms) == Err(ZeroDivisionError)
  {
    SquareRoot.PerfectSquareExpansion(k, Precision);
  }
}
