/** The draft `ContinuedFraction` class of confrac.py: a leading term and
    a list of partial quotients, a kind (finite, non-finite or repeating)
    and a generator naming the tail terms `calculate` walks for a
    repeating fraction. */
module ConfracDraft {
  import opened PyRuntime
  import opened PyText
  import opened ContinuedValue
  import Notation
  import SquareRoot
  import FractionExpansion

  datatype Kind = FINITE | NON_FINITE | REPEATING

  /** The two generator methods a `genFunc` attribute can hold. */
  datatype GenFunc = RepetitionGenerator | NextNumberGenerator

  /** What the constructor can be given: a list, a string in bracket
      notation, a Fraction, or anything else. */
  datatype Arg = ListArg(xs: seq<int>) | StrArg(s: string) | FractionArg(r: real) | OtherArg

  /** The class attribute `precision`. */
  const Precision: nat := 100

  /** The default `endPoint` of both generators, which `calculate` uses. */
  const DefaultEndPoint: int := 100

  /** The instance attributes; None for one that was never assigned, whose
      reading raises AttributeError. */
  datatype Attributes = Attributes(kind: Option<Kind>, partialQuotients: Option<seq<int>>, genFunc: Option<GenFunc>)

  const Unset := Attributes(None, None, None)

  function KindOf(shape: Notation.Shape): Kind {
    match shape
    case Plain => FINITE
    case Ellipsis => NON_FINITE
    case Periodic => REPEATING
  }

  // ---------------------------------------------------------------------
  // Construction

  /** `_initFromString` applied to the attributes a: a bracketed notation
      sets the kind, the quotients and the next-number generator; any
      other string leaves a as it is. */
  function FromString(a: Attributes, cf: string): Result<Attributes> {
    match Notation.ParseNotation(cf, 1)
    case Err(e) => Err(e)
    case Ok(None) => Ok(a)
    case Ok(Some(p)) => Ok(Attributes(Some(KindOf(p.shape)), Some(p.quotients), Some(NextNumberGenerator)))
  }

  /** The attributes `_initFromFraction` leaves: kind FINITE, the
      next-number generator and the quotients [floor(cf), floor(cf)]. */
  function FromFraction(cf: real): Attributes {
    Attributes(Some(FINITE), Some([cf.Floor, cf.Floor]), Some(NextNumberGenerator))
  }

  /** `__init__(cf, kind, genFunc)`: a list is stored with the given kind;
      a string or a Fraction is handed to its initialiser; anything else
      raises TypeError. A given genFunc then replaces the generator. */
  function Construct(cf: Arg, kind: Kind, genFunc: Option<GenFunc>): Result<Attributes> {
    var base :=
      match cf
      case ListArg(xs) => Ok(Attributes(Some(kind), Some(xs), None))
      case StrArg(s) => FromString(Unset, s)
      case FractionArg(r) => Ok(FromFraction(r))
      case OtherArg => Err(TypeError);
    match base
    case Err(e) => Err(e)
    case Ok(a) => Ok(if genFunc.Some? then a.(genFunc := genFunc) else a)
  }

  // ---------------------------------------------------------------------
  // The generators and calculate

  /** `_getRepetionGenerator(endPoint)`: rest[endPoint % L], ...,
      rest[1 % L] for the L terms rest after a0; with no such terms the
      first `%` raises ZeroDivisionError. */
  function RepetitionTerms(pq: seq<int>, endPoint: int): Result<seq<int>> {
    var rest := RestOf(pq);
    if endPoint <= 0 then Ok([])
    else if |rest| == 0 then Err(ZeroDivisionError)
    else Ok(seq(endPoint, k requires 0 <= k < endPoint => rest[(endPoint - k) % |rest|]))
  }

  /** `_getNextNumberGenerator(endPoint)`: starting at index
      min(endPoint, L), it yields rest[i] for i down to 1. Index L is one
      past the end and raises IndexError. */
  function NextNumberTerms(pq: seq<int>, endPoint: int): Result<seq<int>> {
    var rest := RestOf(pq);
    var start := if endPoint < |rest| then endPoint else |rest|;
    if start <= 0 then Ok([])
    else if start >= |rest| then Err(IndexError)
    else Ok(seq(start, k requires 0 <= k < start => rest[start - k]))
  }

  function GeneratedTerms(g: GenFunc, pq: seq<int>, endPoint: int): Result<seq<int>> {
    match g
    case RepetitionGenerator => RepetitionTerms(pq, endPoint)
    case NextNumberGenerator => NextNumberTerms(pq, endPoint)
  }

  /** `calculate()`: a repeating fraction walks the terms of its generator,
      any other walks its stored tail from the last term; a0 is added. */
  function Calculation(a: Attributes): Result<real> {
    match a.kind
    case None => Err(AttributeError)
    case Some(k) =>
      if k == REPEATING && a.genFunc.None? then Err(AttributeError)
      else
        match a.partialQuotients
        case None => Err(AttributeError)
        case Some(pq) =>
          if k == REPEATING then
            match GeneratedTerms(a.genFunc.value, pq, DefaultEndPoint)
            case Err(e) => Err(e)
            case Ok(terms) => AddLeading(Walk(terms), pq)
          else
            AddLeading(Walk(Reverse(RestOf(pq))), pq)
  }

  // ---------------------------------------------------------------------
  // __str__

  /** The text between "; " and the closing "]": "(r1, ..., rn, rn) ..."
      for a repeating fraction with more than one period term (the last
      term once more), "(r1) ..." for one, and "r1, ..., rn" otherwise.
      A repeating fraction without period terms raises IndexError. */
  function RenderedTail(k: Kind, pq: seq<int>): Result<string> {
    var rest := RestOf(pq);
    if k == REPEATING then
      if |rest| > 1 then
        Ok("(" + Terminated(IntStrings(rest), ", ") + IntToString(pq[|pq| - 1]) + ") ...")
      else if |pq| < 2 then Err(IndexError)
      else Ok("(" + IntToString(pq[1]) + ") ...")
    else Ok(Join(IntStrings(rest), ", "))
  }

  /** `__str__`: "[a0; " + the rendered tail + "]". */
  function Render(a: Attributes): Result<string> {
    match a.kind
    case None => Err(AttributeError)
    case Some(k) =>
      match a.partialQuotients
      case None => Err(AttributeError)
      case Some(pq) =>
        match RenderedTail(k, pq)
        case Err(e) => Err(e)
        case Ok(body) => if pq == [] then Err(IndexError) else Ok("[" + IntToString(pq[0]) + "; " + body + "]")
  }

  // ---------------------------------------------------------------------
  // The class

  class ContinuedFraction {
    var kind: Option<Kind>
    var partialQuotients: Option<seq<int>>
    var genFunc: Option<GenFunc>

    function Attrs(): Attributes
      reads this
    {
      Attributes(kind, partialQuotients, genFunc)
    }

    /** An instance before `__init__` has assigned anything. */
    constructor ()
      ensures Attrs() == Unset
    {
      kind, partialQuotients, genFunc := None, None, None;
    }

    /** `_initFromString`. When it raises, `__init__` raises too and the
        instance is never handed out, so only the successful outcome
        states the new attributes. */
    method InitFromString(cf: string) returns (outcome: Outcome)
      modifies this
      ensures outcome.Pass? <==> FromString(old(Attrs()), cf).Ok?
      ensures outcome.Fail? ==> outcome.error == FromString(old(Attrs()), cf).error
      ensures outcome.Pass? ==> Attrs() == FromString(old(Attrs()), cf).value
    {
      var parsed := Notation.ParseNotation(cf, 1);
      match parsed {
        case Err(e) =>
          return Fail(e);
        case Ok(None) =>
          return Pass;
        case Ok(Some(p)) =>
          kind := Some(KindOf(p.shape));
          genFunc := Some(NextNumberGenerator);
          partialQuotients := Some(p.quotients);
          return Pass;
      }
    }

    /** `_initFromFraction`, running the loop of its source. */
    method InitFromFraction(cf: real)
      modifies this
      ensures Attrs() == FromFraction(cf)
    {
      kind := Some(FINITE);
      genFunc := Some(NextNumberGenerator);
      var q := FractionExpansion.FloorFirstQuotients(cf, Precision);
      partialQuotients := Some(q);
    }

    /** `ContinuedFraction(cf, kind, genFunc)`: a new instance, or the
        error `__init__` raises. */
    static method New(cf: Arg, kind: Kind, genFunc: Option<GenFunc>) returns (r: Result<ContinuedFraction>)
      ensures r.Ok? <==> Construct(cf, kind, genFunc).Ok?
      ensures r.Err? ==> r.error == Construct(cf, kind, genFunc).error
      ensures r.Ok? ==> fresh(r.value) && r.value.Attrs() == Construct(cf, kind, genFunc).value
    {
      var c := new ContinuedFraction();
      match cf {
        case ListArg(xs) =>
          c.partialQuotients := Some(xs);
          c.kind := Some(kind);
        case StrArg(s) =>
          var outcome := c.InitFromString(s);
          if outcome.Fail? {
            return Err(outcome.error);
          }
        case FractionArg(x) =>
          c.InitFromFraction(x);
        case OtherArg =>
          return Err(TypeError);
      }
      if genFunc.Some? {
        c.genFunc := genFunc;
      }
      r := Ok(c);
    }

    /** `_getRepetionGenerator(endPoint)`, counting endPoint down. */
    method GetRepetitionGenerator(endPoint: int) returns (r: Result<seq<int>>)
      ensures partialQuotients.None? ==> r == Err(AttributeError)
      ensures partialQuotients.Some? ==> r == RepetitionTerms(partialQuotients.value, endPoint)
    {
      if partialQuotients.None? {
        return Err(AttributeError);
      }
      var rest := RestOf(partialQuotients.value);
      var patternLength := |rest|;
      var terms: seq<int> := [];
      var e := endPoint;
      while e > 0
        invariant endPoint <= 0 ==> e == endPoint && terms == []
        invariant endPoint > 0 ==> 0 <= e <= endPoint && |terms| == endPoint - e
        invariant patternLength == 0 ==> e == endPoint
        invariant patternLength > 0 ==>
                    forall k :: 0 <= k < |terms| ==> terms[k] == rest[(endPoint - k) % patternLength]
        decreases e
      {
        if patternLength == 0 {
          return Err(ZeroDivisionError);
        }
        terms := terms + [rest[e % patternLength]];
        e := e - 1;
      }
      if endPoint > 0 {
        assert terms == seq(endPoint, k requires 0 <= k < endPoint => rest[(endPoint - k) % |rest|]);
      }
      r := Ok(terms);
    }

    /** `_getNextNumberGenerator(endPoint)`, counting i down. */
    method GetNextNumberGenerator(endPoint: int) returns (r: Result<seq<int>>)
      ensures partialQuotients.None? ==> r == Err(AttributeError)
      ensures partialQuotients.Some? ==> r == NextNumberTerms(partialQuotients.value, endPoint)
    {
      if partialQuotients.None? {
        return Err(AttributeError);
      }
      var rest := RestOf(partialQuotients.value);
      var patternLength := |rest|;
      var i := if endPoint < patternLength then endPoint else patternLength;
      ghost var start := i;
      var terms: seq<int> := [];
      while i > 0
        invariant start <= 0 ==> i == start && terms == []
        invariant start > 0 ==> 0 <= i <= start && |terms| == start - i
        invariant start >= patternLength ==> i == start
        invariant forall k :: 0 <= k < |terms| ==> 0 < start - k < patternLength && terms[k] == rest[start - k]
        decreases i
      {
        if i >= patternLength {
          return Err(IndexError);
        }
        terms := terms + [rest[i]];
        i := i - 1;
      }
      if start > 0 {
        assert terms == seq(start, k requires 0 <= k < start => rest[start - k]);
      }
      r := Ok(terms);
    }

    /** `calculate()`. */
    method Calculate() returns (r: Result<real>)
      ensures r == Calculation(Attrs())
    {
      if kind.None? {
        return Err(AttributeError);
      }
      if kind.value == REPEATING && genFunc.None? {
        return Err(AttributeError);
      }
      if partialQuotients.None? {
        return Err(AttributeError);
      }
      var pq := partialQuotients.value;
      var walked: Result<real>;
      if kind.value == REPEATING {
        var terms: Result<seq<int>>;
        if genFunc.value == RepetitionGenerator {
          terms := GetRepetitionGenerator(DefaultEndPoint);
        } else {
          terms := GetNextNumberGenerator(DefaultEndPoint);
        }
        if terms.Err? {
          return Err(terms.error);
        }
        walked := Accumulate(terms.value);
      } else {
        walked := Accumulate(Reverse(RestOf(pq)));
      }
      if walked.Err? {
        return Err(walked.error);
      }
      if pq == [] {
        return Err(IndexError);
      }
      r := Ok(walked.value + pq[0] as real);
    }

    /** `__str__`. */
    function Str(): Result<string>
      reads this
    {
      Render(Attrs())
    }

    /** `getSquareRoot(s)`: the quotients of the square-root loop, tagged
        REPEATING with the repetition generator. */
    static method GetSquareRoot(s: int) returns (r: Result<ContinuedFraction>)
      ensures r.Ok? <==> s >= 0
      ensures r.Err? ==> r.error == ValueError
      ensures r.Ok? ==> fresh(r.value)
      ensures r.Ok? ==>
                r.value.Attrs() == Attributes(Some(REPEATING), Some(SquareRoot.Expansion(s, Precision).value), Some(RepetitionGenerator))
    {
      var quotients := SquareRoot.SquareRootQuotients(s, Precision);
      if quotients.Err? {
        return Err(quotients.error);
      }
      SquareRoot.ExpansionShape(s, Precision);
      r := New(ListArg(quotients.value), REPEATING, Some(RepetitionGenerator));
    }
  }

  // ---------------------------------------------------------------------
  // Construction

  /** A non-empty string that is not bracketed once its spaces are removed
      assigns nothing; an empty one raises IndexError at cf[0]; an argument
      of any other type raises TypeError. */
  lemma ConstructOutsideTheNotation(cf: string, kind: Kind)
    requires var s := RemoveSpaces(cf); !(|s| > 0 && s[0] == '[' && s[|s| - 1] == ']')
    ensures RemoveSpaces(cf) == "" ==> Construct(StrArg(cf), kind, None) == Err(IndexError)
    ensures RemoveSpaces(cf) != "" ==> Construct(StrArg(cf), kind, None) == Ok(Unset)
    ensures Construct(OtherArg, kind, None) == Err(TypeError)
  {
  }

  /** A parsed string always yields a0 and at least one tail term, with
      the next-number generator unless another is given. */
  lemma ConstructFromNotation(cf: string, kind: Kind, genFunc: Option<GenFunc>)
    requires Construct(StrArg(cf), kind, genFunc).Ok?
    ensures var a := Construct(StrArg(cf), kind, genFunc).value;
            a.kind.Some? ==>
              a.partialQuotients.Some? && |a.partialQuotients.value| >= 2 &&
              a.genFunc == if genFunc.Some? then genFunc else Some(NextNumberGenerator)
  {
    Notation.ParsedHasTail(cf, 1);
  }

  // ---------------------------------------------------------------------
  // Rendering and re-parsing

  /** Constructing from "[str(a0); body]" when body's tail parses. */
  lemma ConstructFromRendered(a0: int, body: string, t: Notation.Tail, kind: Kind)
    requires ';' !in body && Notation.ParseTail(RemoveSpaces(body), 1) == Ok(t)
    ensures Construct(StrArg("[" + IntToString(a0) + "; " + body + "]"), kind, None) ==
              Ok(Attributes(Some(KindOf(t.shape)), Some([a0] + t.terms), Some(NextNumberGenerator)))
  {
    Notation.ParseRendered(a0, body, 1);
  }

  /** "[str(a0); a1, ..., an]" reads as a finite fraction. */
  lemma ListReadsBack(a0: int, xs: seq<int>, kind: Kind)
    requires |xs| >= 1
    ensures Construct(StrArg("[" + IntToString(a0) + "; " + Join(IntStrings(xs), ", ") + "]"), kind, None) ==
              Ok(Attributes(Some(FINITE), Some([a0] + xs), Some(NextNumberGenerator)))
  {
    Notation.ListTextParses(xs, 1);
    ConstructFromRendered(a0, Join(IntStrings(xs), ", "), Notation.Tail(Notation.Plain, xs), kind);
  }

  /** "[str(a0); (r1, ..., rn) ...]" reads as a repeating fraction. */
  lemma PeriodReadsBack(a0: int, xs: seq<int>, kind: Kind)
    requires |xs| >= 1
    ensures Construct(StrArg("[" + IntToString(a0) + "; " + Notation.PeriodText(xs, "(", ")") + "]"), kind, None) ==
              Ok(Attributes(Some(REPEATING), Some([a0] + xs), Some(NextNumberGenerator)))
  {
    Notation.PeriodTextParses(xs, "(", ")");
    ConstructFromRendered(a0, Notation.PeriodText(xs, "(", ")"), Notation.Tail(Notation.Periodic, xs), kind);
  }

  /** A finite or non-finite fraction is written "[a0; a1, ..., an]". */
  lemma FiniteRendered(k: Kind, q: seq<int>, g: Option<GenFunc>)
    requires k != REPEATING && q != []
    ensures Render(Attributes(Some(k), Some(q), g)) == Ok("[" + IntToString(q[0]) + "; " + Join(IntStrings(q[1..]), ", ") + "]")
  {
  }

  /** A finite fraction with a tail renders as "[a0; a1, ..., an]" and
      reads back as the same quotients and kind. */
  lemma FiniteRoundTrip(q: seq<int>, g: Option<GenFunc>, kind: Kind)
    requires |q| >= 2
    ensures Render(Attributes(Some(FINITE), Some(q), g)).Ok?
    ensures Construct(StrArg(Render(Attributes(Some(FINITE), Some(q), g)).value), kind, None) ==
              Ok(Attributes(Some(FINITE), Some(q), Some(NextNumberGenerator)))
  {
    FiniteRendered(FINITE, q, g);
    ListReadsBack(q[0], q[1..], kind);
    HeadThenRest(q, []);
  }

  /** A non-finite fraction renders without "...", so it reads back as a
      finite one with the same quotients. */
  lemma NonFiniteReadsBackFinite(q: seq<int>, g: Option<GenFunc>, kind: Kind)
    requires |q| >= 2
    ensures Render(Attributes(Some(NON_FINITE), Some(q), g)) == Render(Attributes(Some(FINITE), Some(q), g))
    ensures Construct(StrArg(Render(Attributes(Some(NON_FINITE), Some(q), g)).value), kind, None) ==
              Ok(Attributes(Some(FINITE), Some(q), Some(NextNumberGenerator)))
  {
    FiniteRendered(NON_FINITE, q, g);
    FiniteRoundTrip(q, g, kind);
  }

  /** A repeating fraction is written with its period in parentheses; with
      more than one period term the last one is written twice. */
  lemma RepeatingRendering(q: seq<int>)
    requires |q| >= 2
    ensures |q| == 2 ==> RenderedTail(REPEATING, q) == Ok(Notation.PeriodText(q[1..], "(", ")"))
    ensures |q| > 2 ==> RenderedTail(REPEATING, q) == Ok(Notation.PeriodText(q[1..] + [q[|q| - 1]], "(", ")"))
  {
    if |q| == 2 {
      OnePeriodTermRendering(q);
    } else {
      LongerPeriodRendering(q);
    }
  }

  lemma OnePeriodTermRendering(q: seq<int>)
    requires |q| == 2
    ensures RenderedTail(REPEATING, q) == Ok(Notation.PeriodText(q[1..], "(", ")"))
  {
    var x := IntToString(q[1]);
    assert IntStrings(q[1..]) == [x];
    assert Join([x], ", ") == x;
    assert "(" + x + ") ..." == "(" + x + ")" + " ...";
  }

  lemma LongerPeriodRendering(q: seq<int>)
    requires |q| > 2
    ensures RenderedTail(REPEATING, q) == Ok(Notation.PeriodText(q[1..] + [q[|q| - 1]], "(", ")"))
  {
    var rest := q[1..];
    var last := IntToString(q[|q| - 1]);
    var t := Terminated(IntStrings(rest), ", ");
    TerminatedThenLast(IntStrings(rest), ", ", last);
    assert IntStrings(rest) + [last] == IntStrings(rest + [q[|q| - 1]]);
    Parenthesised(t, last);
  }

  /** The same text grouped two ways. */
  lemma Parenthesised(t: string, last: string)
    ensures "(" + t + last + ") ..." == "(" + (t + last) + ")" + " ..."
  {
  }

  /** A repeating fraction with a one-term period reads back unchanged. */
  lemma RepeatingRoundTripOneTerm(q: seq<int>, g: Option<GenFunc>, kind: Kind)
    requires |q| == 2
    ensures Render(Attributes(Some(REPEATING), Some(q), g)).Ok?
    ensures Construct(StrArg(Render(Attributes(Some(REPEATING), Some(q), g)).value), kind, None) ==
              Ok(Attributes(Some(REPEATING), Some(q), Some(NextNumberGenerator)))
  {
    OnePeriodTermRendering(q);
    PeriodReadsBack(q[0], q[1..], kind);
    HeadThenRest(q, []);
  }

  /** A longer period reads back with its last term repeated. */
  lemma RepeatingRoundTripRepeatsLast(q: seq<int>, g: Option<GenFunc>, kind: Kind)
    requires |q| > 2
    ensures Render(Attributes(Some(REPEATING), Some(q), g)).Ok?
    ensures Construct(StrArg(Render(Attributes(Some(REPEATING), Some(q), g)).value), kind, None) ==
              Ok(Attributes(Some(REPEATING), Some(q + [q[|q| - 1]]), Some(NextNumberGenerator)))
  {
    var xs := q[1..] + [q[|q| - 1]];
    LongerPeriodRendering(q);
    PeriodReadsBack(q[0], xs, kind);
    HeadThenRest(q, [q[|q| - 1]]);
  }

  /** The rendering the notation calls for, "[a0; (r1, ..., rn) ...]",
      reads back as the same repeating fraction for every period. */
  lemma CorrectedRepeatingRoundTrip(q: seq<int>, kind: Kind)
    requires |q| >= 2
    ensures Construct(StrArg("[" + IntToString(q[0]) + "; " + Notation.PeriodText(q[1..], "(", ")") + "]"), kind, None) ==
              Ok(Attributes(Some(REPEATING), Some(q), Some(NextNumberGenerator)))
  {
    PeriodReadsBack(q[0], q[1..], kind);
    HeadThenRest(q, []);
  }

  /** A finite fraction without a tail renders as "[a0; ]", which does not
      read back: int('') raises ValueError. */
  lemma FiniteWithoutTailDoesNotReadBack(a0: int, g: Option<GenFunc>, kind: Kind)
    ensures Render(Attributes(Some(FINITE), Some([a0]), g)) == Ok("[" + IntToString(a0) + "; " + "" + "]")
    ensures Construct(StrArg("[" + IntToString(a0) + "; " + "" + "]"), kind, None) == Err(ValueError)
  {
    assert RestOf([a0]) == [];
    assert RemoveSpaces("") == "";
    assert Split("", ',') == [""];
    assert ParseInt("") == Err(ValueError);
    Notation.ParseRendered(a0, "", 1);
  }

  // ---------------------------------------------------------------------
  // calculate

  /** A finite or non-finite fraction evaluates to exactly
      a0 + 1/(a1 + 1/(... + 1/an)) over its whole stored tail; without a0
      it raises IndexError. */
  lemma FiniteCalculation(k: Kind, q: seq<int>, g: Option<GenFunc>)
    requires k != REPEATING
    ensures q == [] ==> Calculation(Attributes(Some(k), Some(q), g)) == Err(IndexError)
    ensures q != [] ==> Calculation(Attributes(Some(k), Some(q), g)) == Value(q)
  {
    WalkOfReverse(RestOf(q));
  }

  /** A Fraction in [0, 1) is kept as [0, 0], which `calculate` cannot
      evaluate: it raises ZeroDivisionError. */
  lemma FractionBelowOneRaises(cf: real, kind: Kind)
    requires 0.0 <= cf < 1.0
    ensures Construct(FractionArg(cf), kind, None) == Ok(FromFraction(cf))
    ensures Calculation(FromFraction(cf)) == Err(ZeroDivisionError)
  {
    FractionExpansion.FloorFirstDividesByZero(cf);
    FiniteCalculation(FINITE, [0, 0], Some(NextNumberGenerator));
  }

  /** str() of the numbers in the examples below. */
  lemma ExampleNumerals()
    ensures IntToString(1) == "1" && IntToString(3) == "3" && IntToString(4) == "4"
    ensures IntToString(12) == "12" && IntToString(34) == "34"
  {
    assert NatToString(1) == "1" && NatToString(3) == "3";
    assert NatToString(12) == NatToString(1) + [DigitChar(2)];
    assert NatToString(34) == NatToString(3) + [DigitChar(4)];
  }

  /** "[3; 4, 12, 4]" reads as the finite fraction [3, 4, 12, 4]. */
  lemma FiniteExample1Parses()
    ensures Construct(StrArg("[3; 4, 12, 4]"), FINITE, None) ==
              Ok(Attributes(Some(FINITE), Some([3, 4, 12, 4]), Some(NextNumberGenerator)))
  {
    ListReadsBack(3, [4, 12, 4], FINITE);
    Example1Text();
    assert [3] + [4, 12, 4] == [3, 4, 12, 4];
  }

  lemma Example1Text()
    ensures "[" + IntToString(3) + "; " + Join(IntStrings([4, 12, 4]), ", ") + "]" == "[3; 4, 12, 4]"
  {
    ExampleNumerals();
    assert IntStrings([4, 12, 4]) == ["4", "12", "4"];
    assert Join(["4", "12", "4"], ", ") == "4" + ", " + Join(["12", "4"], ", ");
    assert Join(["12", "4"], ", ") == "12" + ", " + Join(["4"], ", ");
    assert Join(["4"], ", ") == "4";
    assert "[" + "3" + "; " + ("4" + ", " + ("12" + ", " + "4")) + "]" == "[3; 4, 12, 4]";
  }

  /** ... and it calculates to 649/200 = 3.245. */
  lemma FiniteExample1Value()
    ensures Calculation(Attributes(Some(FINITE), Some([3, 4, 12, 4]), Some(NextNumberGenerator))) == Ok(649.0 / 200.0)
  {
    FiniteCalculation(FINITE, [3, 4, 12, 4], Some(NextNumberGenerator));
    assert [3, 4, 12, 4][1..] == [4, 12, 4] && [4, 12, 4][1..] == [12, 4] && [12, 4][1..] == [4] && [4][1..] == [];
    assert TailValue([4]) == Ok(1.0 / 4.0);
    assert TailValue([12, 4]) == Ok(4.0 / 49.0);
    assert TailValue([4, 12, 4]) == Ok(49.0 / 200.0);
  }

  /** "[12; 34, 1, 4]" reads as the finite fraction [12, 34, 1, 4]. */
  lemma FiniteExample2Parses()
    ensures Construct(StrArg("[12; 34, 1, 4]"), FINITE, None) ==
              Ok(Attributes(Some(FINITE), Some([12, 34, 1, 4]), Some(NextNumberGenerator)))
  {
    ListReadsBack(12, [34, 1, 4], FINITE);
    Example2Text();
    assert [12] + [34, 1, 4] == [12, 34, 1, 4];
  }

  lemma Example2Text()
    ensures "[" + IntToString(12) + "; " + Join(IntStrings([34, 1, 4]), ", ") + "]" == "[12; 34, 1, 4]"
  {
    ExampleNumerals();
    assert IntStrings([34, 1, 4]) == ["34", "1", "4"];
    assert Join(["34", "1", "4"], ", ") == "34" + ", " + Join(["1", "4"], ", ");
    assert Join(["1", "4"], ", ") == "1" + ", " + Join(["4"], ", ");
    assert Join(["4"], ", ") == "4";
    assert "[" + "12" + "; " + ("34" + ", " + ("1" + ", " + "4")) + "]" == "[12; 34, 1, 4]";
  }

  /** ... and it calculates to 2093/174. */
  lemma FiniteExample2Value()
    ensures Calculation(Attributes(Some(FINITE), Some([12, 34, 1, 4]), Some(NextNumberGenerator))) == Ok(2093.0 / 174.0)
  {
    FiniteCalculation(FINITE, [12, 34, 1, 4], Some(NextNumberGenerator));
    assert [12, 34, 1, 4][1..] == [34, 1, 4] && [34, 1, 4][1..] == [1, 4] && [1, 4][1..] == [4] && [4][1..] == [];
    assert TailValue([4]) == Ok(1.0 / 4.0);
    assert TailValue([1, 4]) == Ok(4.0 / 5.0);
    assert TailValue([34, 1, 4]) == Ok(5.0 / 174.0);
  }

  /** The period read from index 1 on: rest[1 % L], rest[2 % L], ... */
  function ShiftedPeriod(rest: seq<int>, n: nat): seq<int>
    requires |rest| >= 1
  {
    seq(n, j requires 0 <= j < n => rest[(j + 1) % |rest|])
  }

  /** With the repetition generator a repeating fraction walks 100 period
      terms whose outermost is rest[1 % L], not rest[0]: it evaluates the
      period shifted by one. Without period terms the first `%` raises
      ZeroDivisionError. */
  lemma RepetitionCalculation(q: seq<int>)
    ensures |q| <= 1 ==>
              Calculation(Attributes(Some(REPEATING), Some(q), Some(RepetitionGenerator))) == Err(ZeroDivisionError)
    ensures |q| >= 2 ==>
              Calculation(Attributes(Some(REPEATING), Some(q), Some(RepetitionGenerator))) ==
              Value([q[0]] + ShiftedPeriod(q[1..], DefaultEndPoint))
  {
    if |q| >= 2 {
      var rest := q[1..];
      var terms := RepetitionTerms(q, DefaultEndPoint).value;
      var shifted := ShiftedPeriod(rest, DefaultEndPoint);
      assert Reverse(terms) == shifted;
      WalkIsTailValueOfReverse(terms);
      assert ([q[0]] + shifted)[1..] == shifted;
    }
  }

  /** The square root of 23 shows the shift. Its expansion is
      [4; 1, 3, 1, 8], so the repeated tail should open with 1 and the
      value be at least 4 + 1/2; the draft opens the tail with 3 instead
      and calculates a value below 4 + 1/3. */
  lemma SquareRootOf23Shifted(q: seq<int>)
    requires q == [4, 1, 3, 1, 8]
    ensures SquareRoot.Expansion(23, Precision) == Ok(q)
    ensures var c := Calculation(Attributes(Some(REPEATING), Some(q), Some(RepetitionGenerator)));
            c.Ok? && c.value < 4.0 + 1.0 / 3.0
    ensures var v := Value([q[0]] + Periodic(q[1..], DefaultEndPoint + 1));
            v.Ok? && v.value >= 4.0 + 1.0 / 2.0
  {
    SquareRoot.ExpansionOf23(Precision);
    RepetitionCalculation(q);
    var rest := q[1..];
    var shifted := ShiftedPeriod(rest, DefaultEndPoint);
    var truth := Periodic(rest, DefaultEndPoint + 1);
    ShiftedTailOf23(rest, shifted);
    TrueTailOf23(rest, truth);
    LeadingValue(q[0], shifted);
    LeadingValue(q[0], truth);
  }

  lemma LeadingValue(a0: int, tail: seq<int>)
    ensures Value([a0] + tail) == if TailValue(tail).Err? then TailValue(tail) else Ok(a0 as real + TailValue(tail).value)
  {
    assert ([a0] + tail)[1..] == tail;
  }

  /** The draft's tail for the square root of 23 opens with 3. */
  lemma ShiftedTailOf23(rest: seq<int>, shifted: seq<int>)
    requires rest == [1, 3, 1, 8] && shifted == ShiftedPeriod(rest, DefaultEndPoint)
    ensures TailValue(shifted).Ok? && TailValue(shifted).value < 1.0 / 3.0
  {
    assert shifted[0] == rest[1] == 3;
    forall j | 0 <= j < |shifted|
      ensures shifted[j] >= 1
    {
      assert shifted[j] == rest[(j + 1) % 4];
    }
    LeadingTermBounds(shifted);
  }

  /** The tail that repeats the period from its start opens with 1. */
  lemma TrueTailOf23(rest: seq<int>, truth: seq<int>)
    requires rest == [1, 3, 1, 8] && truth == Periodic(rest, DefaultEndPoint + 1)
    ensures TailValue(truth).Ok? && TailValue(truth).value >= 1.0 / 2.0
  {
    assert truth[0] == rest[0] == 1;
    forall j | 0 <= j < |truth|
      ensures truth[j] >= 1
    {
      assert truth[j] == rest[j % 4];
    }
    LeadingTermBounds(truth);
  }

  /** Whenever the stored tail has between 1 and endPoint terms, the
      next-number generator indexes one past its end. */
  lemma NextNumberOutOfRange(q: seq<int>, endPoint: int)
    requires 1 <= |RestOf(q)| <= endPoint
    ensures NextNumberTerms(q, endPoint) == Err(IndexError)
  {
  }

  /** So a repeating fraction read from a string, which is given the
      next-number generator, cannot be calculated unless its period has
      more than 100 terms. */
  lemma ParsedRepeatingRaises(cf: string, kind: Kind)
    requires Construct(StrArg(cf), kind, None).Ok?
    requires var a := Construct(StrArg(cf), kind, None).value;
             a.kind == Some(REPEATING) && a.partialQuotients.Some? && |a.partialQuotients.value| <= 101
    ensures Calculation(Construct(StrArg(cf), kind, None).value) == Err(IndexError)
  {
    ConstructFromNotation(cf, kind, None);
  }

}
