/** The bracket notation "[a0; a1, a2, ...]" read by `_initFromString`.
    Both versions of the class parse it the same way, except for how many
    characters they drop at each end of a parenthesised period: one in
    "(2, 4)" and two in "([2, 4])". */
module Notation {
  import opened PyRuntime
  import opened PyText

  /** How the text after the last ';' ends: plainly, with "...", or with
      "..." after a parenthesised period. */
  datatype Shape = Plain | Ellipsis | Periodic

  datatype Tail = Tail(shape: Shape, terms: seq<int>)

  datatype Parsed = Parsed(shape: Shape, quotients: seq<int>)

  /** The text after the last ';'. Without "..." it is a finite tail;
      with it, a remainder wrapped in '(' and ')' is a period once inset
      characters are dropped at each end, and anything else a non-finite
      tail. Indexing an empty remainder raises IndexError. */
  function ParseTail(tail: string, inset: nat): Result<Tail> {
    if EndsWith(tail, "...") then
      var body := Slice(tail, 0, -3);
      if |body| == 0 then Err(IndexError)
      else if body[0] == '(' && body[|body| - 1] == ')' then
        var k: int := inset;
        match ParseInts(Split(Slice(body, k, -k), ','))
        case Err(e) => Err(e)
        case Ok(xs) => Ok(Tail(Periodic, xs))
      else
        match ParseInts(Split(body, ','))
        case Err(e) => Err(e)
        case Ok(xs) => Ok(Tail(Ellipsis, xs))
    else
      match ParseInts(Split(tail, ','))
      case Err(e) => Err(e)
      case Ok(xs) => Ok(Tail(Plain, xs))
  }

  /** `_initFromString`: spaces removed, then a string that does not start
      with '[' and end with ']' is ignored (None); otherwise a0 is the int
      before the first ';' and the tail is read from the text after the
      last ';'. An empty string raises IndexError at cf[0]. */
  function ParseNotation(cf: string, inset: nat): Result<Option<Parsed>> {
    ParseBracketed(RemoveSpaces(cf), inset)
  }

  /** The reading of the string once its spaces are removed. */
  function ParseBracketed(s: string, inset: nat): Result<Option<Parsed>> {
    if |s| == 0 then Err(IndexError)
    else if !(s[0] == '[' && s[|s| - 1] == ']') then Ok(None)
    else
      var parts := Split(Slice(s, 1, -1), ';');
      match ParseInt(parts[0])
      case Err(e) => Err(e)
      case Ok(a0) =>
        match ParseTail(parts[|parts| - 1], inset)
        case Err(e) => Err(e)
        case Ok(t) => Ok(Some(Parsed(t.shape, [a0] + t.terms)))
  }

  /** Spaces are insignificant: removing them first changes nothing. */
  lemma ParseIgnoresSpaces(cf: string, inset: nat)
    ensures ParseNotation(RemoveSpaces(cf), inset) == ParseNotation(cf, inset)
  {
    RemoveSpacesIdempotent(cf);
  }

  /** A parsed notation always holds a0 and at least one more term, and
      its errors are those of indexing and of int(). */
  lemma ParsedHasTail(cf: string, inset: nat)
    ensures ParseNotation(cf, inset).Ok? && ParseNotation(cf, inset).value.Some? ==>
              |ParseNotation(cf, inset).value.value.quotients| >= 2
    ensures ParseNotation(cf, inset).Err? ==>
              ParseNotation(cf, inset).error in {IndexError, ValueError}
  {
  }

  /** A text without the separator splits into itself alone. */
  lemma SplitOfFree(x: string, sep: char)
    requires sep !in x
    ensures Split(x, sep) == [x]
  {
    SplitAfterFreePrefix(x, "", sep);
    assert x + "" == x;
    assert x + Split("", sep)[0] == x;
  }

  /** str() of an integer holds only digits and minus signs. */
  lemma NumeralAvoids(n: int, c: char)
    requires !IsDigit(c) && c != '-'
    ensures c !in IntToString(n)
  {
    var s := IntToString(n);
    assert forall i :: 0 <= i < |s| ==> s[i] != c;
  }

  /** No numeral holds a character other than digits and minus signs. */
  lemma NumeralsAvoid(xs: seq<int>, c: char)
    requires !IsDigit(c) && c != '-'
    ensures forall i :: 0 <= i < |xs| ==> c !in IntStrings(xs)[i]
  {
    forall i | 0 <= i < |xs|
      ensures c !in IntStrings(xs)[i]
    {
      NumeralAvoids(xs[i], c);
    }
  }

  /** The join of numerals with sep holds no character foreign to both. */
  lemma JoinOfNumeralsAvoids(xs: seq<int>, sep: string, c: char)
    requires !IsDigit(c) && c != '-' && c !in sep
    ensures c !in Join(IntStrings(xs), sep)
  {
    NumeralsAvoid(xs, c);
    JoinAvoids(IntStrings(xs), sep, c);
  }

  /** "[str(a0);inner]" with an inner text free of ';' reads as a0
      followed by the tail that inner describes. */
  lemma ParseNumbered(a0: int, inner: string, inset: nat)
    requires ';' !in inner
    ensures ParseBracketed("[" + IntToString(a0) + ";" + inner + "]", inset) ==
              match ParseTail(inner, inset)
              case Err(e) => Err(e)
              case Ok(t) => Ok(Some(Parsed(t.shape, [a0] + t.terms)))
  {
    var a := IntToString(a0);
    var s := "[" + a + ";" + inner + "]";
    NumeralAvoids(a0, ';');
    assert Slice(s, 1, -1) == a + (";" + inner);
    SplitAfterFreePrefix(a, ";" + inner, ';');
    assert (";" + inner)[1..] == inner;
    SplitOfFree(inner, ';');
    assert Split(";" + inner, ';') == [""] + [inner];
    assert a + "" == a;
    var parts := Split(Slice(s, 1, -1), ';');
    assert parts == [a, inner];
    ParseIntOfIntToString(a0);
  }

  /** With two or more ';', a0 is int of the text before the first and
      the tail is read from the text after the last; whatever lies between
      is dropped. */
  lemma ParseFirstAndLast(p: string, mid: string, t: string, inset: nat)
    requires ';' !in p && ';' !in t
    ensures ParseBracketed("[" + p + ";" + mid + ";" + t + "]", inset) ==
              match ParseInt(p)
              case Err(e) => Err(e)
              case Ok(a0) =>
                match ParseTail(t, inset)
                case Err(e) => Err(e)
                case Ok(tl) => Ok(Some(Parsed(tl.shape, [a0] + tl.terms)))
  {
    var m := p + ";" + mid + ";" + t;
    var r := mid + ";" + t;
    assert "[" + p + ";" + mid + ";" + t + "]" == "[" + m + "]";
    FramedSlice("[", m, "]");
    assert m == p + ([';'] + r);
    SplitAfterFreePrefix(p, [';'] + r, ';');
    assert p + Split([';'] + r, ';')[0] == p;
    assert m == (p + ";" + mid) + [';'] + t;
    SplitEndsAfterLastSep(p + ";" + mid, t, ';');
    ReadsFirstAndLast("[" + m + "]", p, t, inset);
  }

  /** Without any ';' the whole text between the brackets is both a0 and
      the tail. */
  lemma ParseWithoutSemicolon(inner: string, inset: nat)
    requires ';' !in inner
    ensures ParseBracketed("[" + inner + "]", inset) ==
              match ParseInt(inner)
              case Err(e) => Err(e)
              case Ok(a0) =>
                match ParseTail(inner, inset)
                case Err(e) => Err(e)
                case Ok(tl) => Ok(Some(Parsed(tl.shape, [a0] + tl.terms)))
  {
    var s := "[" + inner + "]";
    FramedSlice("[", inner, "]");
    SplitOfFree(inner, ';');
    ReadsFirstAndLast(s, inner, inner, inset);
  }

  /** The bracketed reading depends only on the first and the last of the
      ';'-separated parts. */
  lemma ReadsFirstAndLast(s: string, p: string, t: string, inset: nat)
    requires |s| >= 2 && s[0] == '[' && s[|s| - 1] == ']'
    requires Split(Slice(s, 1, -1), ';')[0] == p
    requires Split(Slice(s, 1, -1), ';')[|Split(Slice(s, 1, -1), ';')| - 1] == t
    ensures ParseBracketed(s, inset) ==
              match ParseInt(p)
              case Err(e) => Err(e)
              case Ok(a0) =>
                match ParseTail(t, inset)
                case Err(e) => Err(e)
                case Ok(tl) => Ok(Some(Parsed(tl.shape, [a0] + tl.terms)))
  {
  }

  /** "[1;2;3]" reads as [1, 3]: the middle term is lost. */
  lemma MiddleSegmentDropped(s: string, inset: nat)
    requires s == "[1;2;3]"
    ensures ParseBracketed(s, inset) == Ok(Some(Parsed(Plain, [1, 3])))
  {
    assert s == "[" + "1" + ";" + "2" + ";" + "3" + "]";
    ParseFirstAndLast("1", "2", "3", inset);
    OneDigit("1", 1, inset);
    OneDigit("3", 3, inset);
    assert [1] + [3] == [1, 3];
  }

  /** "[5]" reads as [5, 5]: a0 and the tail are the same text. */
  lemma NoSemicolonRepeats(s: string, inset: nat)
    requires s == "[5]"
    ensures ParseBracketed(s, inset) == Ok(Some(Parsed(Plain, [5, 5])))
  {
    assert s == "[" + "5" + "]";
    ParseWithoutSemicolon("5", inset);
    OneDigit("5", 5, inset);
    assert [5] + [5] == [5, 5];
  }

  /** "[1;...]": the text before "..." is empty, and indexing it raises
      IndexError although the string is bracketed. */
  lemma BareEllipsisRaises(s: string, inset: nat)
    requires s == "[1;...]"
    ensures ParseBracketed(s, inset) == Err(IndexError)
  {
    assert IntToString(1) == "1";
    assert s == "[" + IntToString(1) + ";" + "..." + "]";
    ParseNumbered(1, "...", inset);
    assert EndsWith("...", "...");
    assert Slice("...", 0, -3) == [];
  }

  /** A one-digit numeral reads as its digit, and as a finite tail of
      that one term. */
  lemma OneDigit(t: string, n: int, inset: nat)
    requires |t| == 1 && '0' <= t[0] <= '9' && n == t[0] as int - '0' as int
    ensures ParseInt(t) == Ok(n)
    ensures ParseTail(t, inset) == Ok(Tail(Plain, [n]))
  {
    assert IsDigits(t);
    assert t[..0] == [];
    assert DigitsValue(t) == n;
    assert !EndsWith(t, "...");
    SplitOfFree(t, ',');
    assert ParseInt([t][0]) == Ok(n);
    assert ParseInts([t]).value == [n];
  }

  /** "a1,a2,...,an" is a finite tail. */
  lemma ParsePlain(xs: seq<int>, inset: nat)
    requires |xs| >= 1
    ensures ParseTail(Join(IntStrings(xs), ","), inset) == Ok(Tail(Plain, xs))
  {
    var j := Join(IntStrings(xs), ",");
    JoinEndsInDigit(IntStrings(xs), ",");
    assert !EndsWith(j, "...");
    NumeralsAvoid(xs, ',');
    SplitOfJoin(IntStrings(xs), ',');
    ParseIntsOfIntStrings(xs);
  }

  /** "a1,a2,...,an..." is a non-finite tail. */
  lemma ParseEllipsis(xs: seq<int>, inset: nat)
    requires |xs| >= 1
    ensures ParseTail(Join(IntStrings(xs), ",") + "...", inset) == Ok(Tail(Ellipsis, xs))
  {
    var j := Join(IntStrings(xs), ",");
    JoinEndsInDigit(IntStrings(xs), ",");
    JoinOfNumeralsAvoids(xs, ",", '(');
    assert j[0] in j;
    EllipsisTail(j, inset);
    NumeralsAvoid(xs, ',');
    SplitOfJoin(IntStrings(xs), ',');
    ParseIntsOfIntStrings(xs);
  }

  /** body + "..." ends with "..." and drops back to body. */
  lemma DropEllipsis(body: string)
    ensures EndsWith(body + "...", "...")
    ensures Slice(body + "...", 0, -3) == body
  {
    var tail := body + "...";
    assert tail[|tail| - 3..] == "...";
    assert tail[..|body|] == body;
  }

  /** Text before "..." that is not wrapped in '(' and ')' is read as a
      non-finite tail. */
  lemma EllipsisTail(body: string, inset: nat)
    requires |body| >= 1 && !(body[0] == '(' && body[|body| - 1] == ')')
    ensures ParseTail(body + "...", inset) ==
              match ParseInts(Split(body, ','))
              case Err(e) => Err(e)
              case Ok(xs) => Ok(Tail(Ellipsis, xs))
  {
    DropEllipsis(body);
  }

  /** Text before "..." wrapped in '(' and ')' is read as a period once
      inset characters are dropped at each end. */
  lemma PeriodicTail(body: string, inset: nat)
    requires |body| >= 1 && body[0] == '(' && body[|body| - 1] == ')'
    ensures ParseTail(body + "...", inset) ==
              match ParseInts(Split(Slice(body, inset, -(inset as int)), ','))
              case Err(e) => Err(e)
              case Ok(xs) => Ok(Tail(Periodic, xs))
  {
    DropEllipsis(body);
  }

  /** A period written between an opening and a closing of inset
      characters each, the first '(' and the last ')', then "...". */
  lemma ParsePeriodic(xs: seq<int>, open: string, close: string)
    requires |xs| >= 1
    requires |open| == |close| >= 1 && open[0] == '(' && close[|close| - 1] == ')'
    ensures ParseTail(open + Join(IntStrings(xs), ",") + close + "...", |open|) == Ok(Tail(Periodic, xs))
  {
    var j := Join(IntStrings(xs), ",");
    var body := open + j + close;
    FramedSlice(open, j, close);
    PeriodicTail(body, |open|);
    NumeralsAvoid(xs, ',');
    SplitOfJoin(IntStrings(xs), ',');
    ParseIntsOfIntStrings(xs);
  }

  /** Dropping |open| characters at each end of open + middle + close
      leaves middle. */
  lemma FramedSlice(open: string, middle: string, close: string)
    requires |open| == |close| >= 1
    ensures var body := open + middle + close;
            body[0] == open[0] && body[|body| - 1] == close[|close| - 1] &&
            Slice(body, |open|, -(|open| as int)) == middle
  {
    var body := open + middle + close;
    assert body[|open|..|body| - |open|] == middle;
  }

  /** The rendered form "[str(a0); body]" parses as a0 followed by the
      tail that body describes once its spaces are removed. */
  lemma ParseRendered(a0: int, body: string, inset: nat)
    requires ';' !in body
    ensures ParseNotation("[" + IntToString(a0) + "; " + body + "]", inset) ==
              match ParseTail(RemoveSpaces(body), inset)
              case Err(e) => Err(e)
              case Ok(t) => Ok(Some(Parsed(t.shape, [a0] + t.terms)))
  {
    RenderedWithoutSpaces(a0, body);
    RemoveSpacesKeepsOut(body, ';');
    ParseNumbered(a0, RemoveSpaces(body), inset);
  }

  /** Removing the spaces of "[str(a0); body]" leaves only the one after
      the ';' and those of body. */
  lemma RenderedWithoutSpaces(a0: int, body: string)
    ensures RemoveSpaces("[" + IntToString(a0) + "; " + body + "]") == "[" + IntToString(a0) + ";" + RemoveSpaces(body) + "]"
  {
    var a := IntToString(a0);
    NumeralAvoids(a0, ' ');
    OpeningWithoutSpaces(a);
    RemoveSpacesAppend("[" + a + "; " + body, "]");
    RemoveSpacesAppend("[" + a + "; ", body);
    assert RemoveSpaces("]") == "]";
  }

  /** "[a; " loses only its last space when a holds none. */
  lemma OpeningWithoutSpaces(a: string)
    requires ' ' !in a
    ensures RemoveSpaces("[" + a + "; ") == "[" + a + ";"
  {
    RemoveSpacesAppend("[" + a, "; ");
    RemoveSpacesAppend("[", a);
    RemoveSpacesOfSpaceFree(a);
    assert RemoveSpaces("[") == "[";
    assert RemoveSpaces("; ") == ";";
  }

  /** "a1, a2, ..., an": the comma-and-space list a finite tail is
      written as. */
  lemma ListTextParses(xs: seq<int>, inset: nat)
    requires |xs| >= 1
    ensures ';' !in Join(IntStrings(xs), ", ")
    ensures ParseTail(RemoveSpaces(Join(IntStrings(xs), ", ")), inset) == Ok(Tail(Plain, xs))
  {
    JoinOfNumeralsAvoids(xs, ", ", ';');
    NumeralsAvoid(xs, ' ');
    RemoveSpacesOfCommaJoin(IntStrings(xs));
    ParsePlain(xs, inset);
  }

  /** open + "r1, ..., rn" + close + " ...": a period as it is written. */
  function PeriodText(xs: seq<int>, open: string, close: string): string {
    open + Join(IntStrings(xs), ", ") + close + " ..."
  }

  /** A written period parses back to its terms when the opening and the
      closing are as long as the inset the parser drops. */
  lemma PeriodTextParses(xs: seq<int>, open: string, close: string)
    requires |xs| >= 1
    requires |open| == |close| >= 1 && open[0] == '(' && close[|close| - 1] == ')'
    requires ' ' !in open && ' ' !in close && ';' !in open && ';' !in close
    ensures ';' !in PeriodText(xs, open, close)
    ensures ParseTail(RemoveSpaces(PeriodText(xs, open, close)), |open|) == Ok(Tail(Periodic, xs))
  {
    JoinOfNumeralsAvoids(xs, ", ", ';');
    PeriodTextWithoutSpaces(xs, open, close);
    ParsePeriodic(xs, open, close);
  }

  /** Removing the spaces from a written period leaves
      open + "r1,...,rn" + close + "...". */
  lemma PeriodTextWithoutSpaces(xs: seq<int>, open: string, close: string)
    requires ' ' !in open && ' ' !in close
    ensures RemoveSpaces(PeriodText(xs, open, close)) == open + Join(IntStrings(xs), ",") + close + "..."
  {
    var j := Join(IntStrings(xs), ", ");
    NumeralsAvoid(xs, ' ');
    RemoveSpacesOfCommaJoin(IntStrings(xs));
    FramedWithoutSpaces(open, j, close);
  }

  /** Removing spaces from open + middle + close + " ..." only touches
      the middle when open and close hold none. */
  lemma FramedWithoutSpaces(open: string, middle: string, close: string)
    requires ' ' !in open && ' ' !in close
    ensures RemoveSpaces(open + middle + close + " ...") == open + RemoveSpaces(middle) + close + "..."
  {
    RemoveSpacesAppend(open + middle + close, " ...");
    RemoveSpacesAppend(open + middle, close);
    RemoveSpacesAppend(open, middle);
    RemoveSpacesOfSpaceFree(open);
    RemoveSpacesOfSpaceFree(close);
    assert RemoveSpaces(" ...") == "...";
  }
}
