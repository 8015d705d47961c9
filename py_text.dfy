/** The string operations of Python that the notation parser and renderer
    use: int() and str() on integers, str.replace(' ', ''), str.split,
    str.join, str.endswith and slicing with negative bounds. */
module PyText {
  import opened PyRuntime

  predicate IsDigit(c: char) { '0' <= c <= '9' }

  /** A non-empty run of decimal digits. */
  predicate IsDigits(s: string) {
    |s| > 0 && forall i :: 0 <= i < |s| ==> IsDigit(s[i])
  }

  /** What str() of an integer looks like: digits and minus signs only,
      never empty, and ending in a digit. */
  predicate IsNumeral(s: string) {
    |s| > 0 && IsDigit(s[|s| - 1]) && forall i :: 0 <= i < |s| ==> IsDigit(s[i]) || s[i] == '-'
  }

  /** The value of a string of decimal digits, most significant first. */
  function DigitsValue(s: string): nat
    requires forall i :: 0 <= i < |s| ==> IsDigit(s[i])
    decreases |s|
  {
    if s == [] then 0 else 10 * DigitsValue(s[..|s| - 1]) + DigitValue(s[|s| - 1])
  }

  function DigitValue(c: char): (d: nat)
    requires IsDigit(c)
    ensures d < 10
  {
    c as int - '0' as int
  }

  /** int(token): an optional sign followed by decimal digits; anything
      else raises ValueError. */
  function ParseInt(token: string): Result<int> {
    if |token| > 0 && (token[0] == '-' || token[0] == '+') && IsDigits(token[1..]) then
      var n: int := DigitsValue(token[1..]);
      Ok(if token[0] == '-' then -n else n)
    else if IsDigits(token) then
      Ok(DigitsValue(token))
    else
      Err(ValueError)
  }

  function DigitChar(d: nat): char
    requires d < 10
  {
    ('0' as int + d) as char
  }

  /** The decimal digits of a natural number, without leading zeros. */
  function NatToString(n: nat): (s: string)
    ensures IsDigits(s)
    decreases n
  {
    if n < 10 then [DigitChar(n)] else NatToString(n / 10) + [DigitChar(n % 10)]
  }

  /** str(n) for an int n. */
  function IntToString(n: int): (s: string)
    ensures IsNumeral(s)
  {
    if n < 0 then "-" + NatToString(-n) else NatToString(n)
  }

  lemma {:induction false} DigitsOfNatToString(n: nat)
    ensures DigitsValue(NatToString(n)) == n
    decreases n
  {
    if n >= 10 {
      var s := NatToString(n);
      assert s[..|s| - 1] == NatToString(n / 10);
      DigitsOfNatToString(n / 10);
    }
  }

  /** int(str(n)) == n. */
  lemma ParseIntOfIntToString(n: int)
    ensures ParseInt(IntToString(n)) == Ok(n)
  {
    var s := IntToString(n);
    if n < 0 {
      assert s[1..] == NatToString(-n);
      DigitsOfNatToString(-n);
    } else {
      DigitsOfNatToString(n);
    }
  }

  /** Python's s[start:stop]: negative bounds count from the end, and
      bounds outside the sequence are clipped to it. */
  function Slice<T>(s: seq<T>, start: int, stop: int): (r: seq<T>)
    ensures |r| <= |s|
  {
    var i := ClipIndex(start, |s|);
    var j := ClipIndex(stop, |s|);
    if i < j then s[i..j] else []
  }

  function ClipIndex(k: int, n: nat): (c: nat)
    ensures c <= n
  {
    if k < 0 then (if k + n < 0 then 0 else k + n) else if k > n then n else k
  }

  /** s.endswith(suffix). */
  predicate EndsWith(s: string, suffix: string) {
    |suffix| <= |s| && s[|s| - |suffix|..] == suffix
  }

  /** s.replace(' ', ''). */
  function RemoveSpaces(s: string): (r: string)
    ensures ' ' !in r
    ensures |r| <= |s|
  {
    if s == [] then [] else (if s[0] == ' ' then [] else [s[0]]) + RemoveSpaces(s[1..])
  }

  /** s.split(sep): the pieces between the occurrences of sep, in order. */
  function Split(s: string, sep: char): (parts: seq<string>)
    ensures |parts| >= 1
    ensures forall i :: 0 <= i < |parts| ==> sep !in parts[i]
    decreases |s|
  {
    if s == [] then [""]
    else
      var tail := Split(s[1..], sep);
      if s[0] == sep then [""] + tail else [[s[0]] + tail[0]] + tail[1..]
  }

  /** sep.join(parts). */
  function Join(parts: seq<string>, sep: string): string
    decreases |parts|
  {
    if parts == [] then "" else if |parts| == 1 then parts[0] else parts[0] + sep + Join(parts[1..], sep)
  }

  /** "".join([p + sep for p in parts]): every part followed by sep. */
  function Terminated(parts: seq<string>, sep: string): string
    decreases |parts|
  {
    if parts == [] then "" else parts[0] + sep + Terminated(parts[1..], sep)
  }

  /** [str(x) for x in xs]. */
  function IntStrings(xs: seq<int>): (strs: seq<string>)
    ensures |strs| == |xs|
    ensures forall i :: 0 <= i < |xs| ==> strs[i] == IntToString(xs[i])
  {
    seq(|xs|, i requires 0 <= i < |xs| => IntToString(xs[i]))
  }

  /** str(xs) for a list of ints: "[x1, x2, ..., xn]". */
  function ListString(xs: seq<int>): string {
    "[" + Join(IntStrings(xs), ", ") + "]"
  }

  /** [int(t) for t in tokens]: ValueError at the first malformed token. */
  function ParseInts(tokens: seq<string>): (r: Result<seq<int>>)
    ensures r.Ok? <==> forall i :: 0 <= i < |tokens| ==> ParseInt(tokens[i]).Ok?
    ensures r.Ok? ==> |r.value| == |tokens|
    ensures r.Ok? ==> forall i :: 0 <= i < |tokens| ==> r.value[i] == ParseInt(tokens[i]).value
    ensures r.Err? ==> r.error == ValueError
    decreases |tokens|
  {
    if tokens == [] then Ok([])
    else match ParseInt(tokens[0])
      case Err(e) => Err(e)
      case Ok(x) =>
        match ParseInts(tokens[1..])
        case Err(e) => Err(e)
        case Ok(xs) => Ok([x] + xs)
  }

  // ---------------------------------------------------------------------
  // Facts the round-trip proofs use

  /** [int(t) for t in [str(x) for x in xs]] == xs. */
  lemma {:induction false} ParseIntsOfIntStrings(xs: seq<int>)
    ensures ParseInts(IntStrings(xs)) == Ok(xs)
    decreases |xs|
  {
    if xs != [] {
      ParseIntOfIntToString(xs[0]);
      assert IntStrings(xs)[1..] == IntStrings(xs[1..]);
      ParseIntsOfIntStrings(xs[1..]);
      assert [xs[0]] + xs[1..] == xs;
    }
  }

  lemma {:induction false} RemoveSpacesAppend(a: string, b: string)
    ensures RemoveSpaces(a + b) == RemoveSpaces(a) + RemoveSpaces(b)
    decreases |a|
  {
    if a == [] {
      assert a + b == b;
    } else {
      var h: string := if a[0] == ' ' then [] else [a[0]];
      assert (a + b)[0] == a[0];
      assert (a + b)[1..] == a[1..] + b;
      RemoveSpacesAppend(a[1..], b);
      assert RemoveSpaces(a + b) == h + (RemoveSpaces(a[1..]) + RemoveSpaces(b));
      assert RemoveSpaces(a) == h + RemoveSpaces(a[1..]);
    }
  }

  lemma {:induction false} RemoveSpacesOfSpaceFree(s: string)
    requires ' ' !in s
    ensures RemoveSpaces(s) == s
    decreases |s|
  {
    if s != [] {
      RemoveSpacesOfSpaceFree(s[1..]);
    }
  }

  /** Removing spaces adds no character. */
  lemma {:induction false} RemoveSpacesKeepsOut(s: string, c: char)
    requires c !in s
    ensures c !in RemoveSpaces(s)
    decreases |s|
  {
    if s != [] {
      RemoveSpacesKeepsOut(s[1..], c);
    }
  }

  /** Spaces are removed once and for all: a second pass changes nothing. */
  lemma RemoveSpacesIdempotent(s: string)
    ensures RemoveSpaces(RemoveSpaces(s)) == RemoveSpaces(s)
  {
    RemoveSpacesOfSpaceFree(RemoveSpaces(s));
  }

  /** Removing the spaces from ", ".join(parts) gives ",".join(parts). */
  lemma {:induction false} RemoveSpacesOfCommaJoin(parts: seq<string>)
    requires forall i :: 0 <= i < |parts| ==> ' ' !in parts[i]
    ensures RemoveSpaces(Join(parts, ", ")) == Join(parts, ",")
    decreases |parts|
  {
    if |parts| == 1 {
      RemoveSpacesOfSpaceFree(parts[0]);
    } else if |parts| > 1 {
      RemoveSpacesAppend(parts[0] + ", ", Join(parts[1..], ", "));
      RemoveSpacesAppend(parts[0], ", ");
      RemoveSpacesOfSpaceFree(parts[0]);
      assert RemoveSpaces(", ") == ",";
      RemoveSpacesOfCommaJoin(parts[1..]);
    }
  }

  /** A character in neither the parts nor the separator is not in the join. */
  lemma {:induction false} JoinAvoids(parts: seq<string>, sep: string, c: char)
    requires c !in sep
    requires forall i :: 0 <= i < |parts| ==> c !in parts[i]
    ensures c !in Join(parts, sep)
    decreases |parts|
  {
    if |parts| > 1 {
      JoinAvoids(parts[1..], sep, c);
    }
  }

  /** A non-empty join of numerals ends in a digit. */
  lemma {:induction false} JoinEndsInDigit(parts: seq<string>, sep: string)
    requires |parts| >= 1
    requires forall i :: 0 <= i < |parts| ==> IsNumeral(parts[i])
    ensures var j := Join(parts, sep); |j| > 0 && IsDigit(j[|j| - 1])
    decreases |parts|
  {
    if |parts| > 1 {
      JoinEndsInDigit(parts[1..], sep);
    }
  }

  /** The parts of a split after a prefix free of the separator. */
  lemma {:induction false} SplitAfterFreePrefix(p: string, x: string, sep: char)
    requires sep !in p
    ensures Split(p + x, sep) == [p + Split(x, sep)[0]] + Split(x, sep)[1..]
    decreases |p|
  {
    if p == [] {
      assert p + x == x;
      assert p + Split(x, sep)[0] == Split(x, sep)[0];
      assert Split(x, sep) == [Split(x, sep)[0]] + Split(x, sep)[1..];
    } else {
      assert (p + x)[0] == p[0];
      assert (p + x)[1..] == p[1..] + x;
      SplitAfterFreePrefix(p[1..], x, sep);
      assert [p[0]] + (p[1..] + Split(x, sep)[0]) == p + Split(x, sep)[0];
    }
  }

  /** The last part of a split is the text after the last separator. */
  lemma {:induction false} SplitEndsAfterLastSep(x: string, t: string, sep: char)
    requires sep !in t
    ensures var parts := Split(x + [sep] + t, sep);
            |parts| >= 2 && parts[|parts| - 1] == t
    decreases |x|
  {
    if x == [] {
      assert x + [sep] + t == [sep] + t;
      assert ([sep] + t)[1..] == t;
      SplitAfterFreePrefix(t, "", sep);
      assert t + "" == t;
      assert Split(t, sep) == [t];
    } else {
      assert (x + [sep] + t)[0] == x[0];
      assert (x + [sep] + t)[1..] == x[1..] + [sep] + t;
      SplitEndsAfterLastSep(x[1..], t, sep);
    }
  }

  /** Splitting a join on its one-character separator recovers the parts. */
  lemma {:induction false} SplitOfJoin(parts: seq<string>, sep: char)
    requires |parts| >= 1
    requires forall i :: 0 <= i < |parts| ==> sep !in parts[i]
    ensures Split(Join(parts, [sep]), sep) == parts
    decreases |parts|
  {
    if |parts| == 1 {
      SplitAfterFreePrefix(parts[0], "", sep);
      assert parts[0] + "" == parts[0];
    } else {
      var rest := Join(parts[1..], [sep]);
      assert Join(parts, [sep]) == parts[0] + ([sep] + rest);
      SplitAfterFreePrefix(parts[0], [sep] + rest, sep);
      assert ([sep] + rest)[1..] == rest;
      SplitOfJoin(parts[1..], sep);
      assert parts[0] + "" == parts[0];
    }
  }

  /** Every part followed by sep, then one more part: a join. */
  lemma {:induction false} TerminatedThenLast(parts: seq<string>, sep: string, last: string)
    ensures Terminated(parts, sep) + last == Join(parts + [last], sep)
    decreases |parts|
  {
    if parts != [] {
      assert (parts + [last])[1..] == parts[1..] + [last];
      TerminatedThenLast(parts[1..], sep, last);
    }
  }

  /** Every part followed by sep is the join followed by one sep. */
  lemma {:induction false} TerminatedIsJoinThenSep(parts: seq<string>, sep: string)
    requires |parts| >= 1
    ensures Terminated(parts, sep) == Join(parts, sep) + sep
    decreases |parts|
  {
    if |parts| > 1 {
      TerminatedIsJoinThenSep(parts[1..], sep);
    }
  }
}
