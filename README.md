# confrac in Dafny

This project models `ContinuedFraction`, a Python class for simple continued fractions. A value is a leading term `a0` and a list of partial quotients `a1, a2, …`. Each value is tagged with a kind: finite, non-finite non-repeating, or non-finite repeating. The class is written twice, and the two versions disagree, so each is modelled as written:

- the draft `confrac.py`, with kinds `FINITE`, `NON_FINITE` and `REPEATING`, is module `ConfracDraft` (draft.dfy);
- the packaged `src/confrac/confrac.py`, with kinds `F`, `NFR` and `NFNR`, is module `Confrac` (packaged.dfy).

Each version has five parts, all modelled:

- **Construction from a list, a notation string or a Fraction.** The notation is `"[a0; a1, a2]"`, `"[a0; a1, a2 ...]"`, and `"[a0; (a1, a2) ...]"` in the draft or `"[a0; ([a1, a2]) ...]"` in the packaged version.
- **The two term generators.** These decide which tail terms `calculate` folds, and in what order.
- **`calculate`.** It folds the generated terms with `result = 1/(b + result)`, then adds `a0`.
- **`__str__`.** It renders a value back into notation.
- **`getSquareRoot`.** It runs the integer `(m, d, a)` recurrence for the square root of `s`.

Shared modules:

- `PyRuntime` (py_runtime.dfy): the Python exceptions the core can raise, plus `Result` and `Option`.
- `PyText` (py_text.dfy): the string operations the parser and renderer use. These are `str.replace(' ', '')`, `split`, `join`, slicing with negative indices, `endswith`, `int()` and `str()` of integers and lists.
- `Notation` (notation.dfy): the parsing part of `_initFromString`, which is the same in both files except for the number of characters trimmed off the period.
- `ContinuedValue` (continued_value.dfy): the fold that `calculate` runs, and the nested value `a0 + 1/(a1 + 1/(… + 1/an))` it is compared with.
- `SquareRoot` (square_root.dfy): the recurrence of `getSquareRoot`, identical in both files.
- `FractionExpansion` (fraction_expansion.dfy): the loop of `_initFromFraction`, identical in both files. The module holds both the loop as written and the expansion it evidently intends.

Modelling choices:

- Python `Fraction` is Dafny `real`, and `math.floor` of a rational is `.Floor`.
- The generators are functions that return the sequence of terms they yield. Methods with the same `while` loops are proved equal to those functions.
- An instance attribute that was never assigned is `None`; reading it raises `AttributeError`.
- In the draft, the function-valued `genFunc` attribute is a tag naming one of the two generators.
- Each class's methods update its fields as the source does. Each method is proved to leave the attributes that a specification function (`Construct`, `FromString`, `FromFraction`) computes.

Behaviour of the code worth knowing before reading the model:

- `"[3; 4, 12, 4]"` evaluates to 649/200, which is 3 + 1/(4 + 1/(12 + 1/4)).
- A non-empty string that is not bracketed once its spaces are removed assigns nothing and raises nothing; a string that is empty once its spaces are removed raises `IndexError` at `cf[0]`; a bracketed one raises `ValueError` through `int()`, or `IndexError` when the text after its last ';' is just "...".
- Any list of integers is stored as given, including an empty tail or non-positive terms.
- The fraction expansion stops silently after `precision` rounds, and as written it always stops after one.
- `getSquareRoot` of a perfect square gives an empty list, tagged repeating.

## Model

| member | source | states |
|---|---|---|
| PyText.ParseIntOfIntToString | src/confrac/confrac.py:69 | `int()` of the decimal text `str()` gives an integer returns that integer |
| PyText.ParseInts | confrac.py:85-93 | the list comprehension of `int()` over split tokens succeeds exactly when every token is an integer, giving each token's value in order; a non-integer token raises ValueError |
| PyText.ParseIntsOfIntStrings | src/confrac/confrac.py:78-81 | `int()` over the `str()` of every integer of a list returns the list |
| PyText.RemoveSpacesIdempotent | confrac.py:75 | removing spaces twice is removing them once |
| PyText.RemoveSpacesOfCommaJoin | src/confrac/confrac.py:66 | removing spaces from the ", "-joined text gives the ","-joined text |
| PyText.SplitOfJoin | confrac.py:93 | splitting at a separator that no part contains recovers the joined parts |
| PyText.SplitEndsAfterLastSep | confrac.py:79 | the last part of a split is the text after the last separator |
| Notation.ParseIgnoresSpaces | confrac.py:75 | parsing after removing spaces is parsing the original string |
| Notation.ParsedHasTail | confrac.py:76-93 | a bracketed string that parses has at least a0 and one tail quotient; parsing fails only with IndexError or ValueError |
| Notation.ParseNumbered | confrac.py:77-79 | with a single ';' after `str(a0)`, the string reads as a0 followed by the tail parsed from the text after it |
| Notation.ParseFirstAndLast | confrac.py:77-79 | with two or more ';', a0 is int of the text before the first and the tail is parsed from the text after the last; the text between is dropped |
| Notation.ParseWithoutSemicolon | confrac.py:77-79 | with no ';', the whole text between the brackets is read both as a0 and as the tail |
| Notation.MiddleSegmentDropped | confrac.py:77-79 | "[1;2;3]" reads as [1, 3] |
| Notation.NoSemicolonRepeats | src/confrac/confrac.py:68-70 | "[5]" reads as [5, 5] |
| Notation.BareEllipsisRaises | confrac.py:80-82 | "[1;...]" raises IndexError: the text before "..." is empty and its first character is read |
| Notation.ParsePlain | confrac.py:90-93 | a tail without "..." reads back the integers whose comma-joined text it is, as a finite tail |
| Notation.ParseEllipsis | confrac.py:86-89 | a tail ending in "..." and not parenthesised reads back its listed integers, as a non-finite tail |
| Notation.ParsePeriodic | src/confrac/confrac.py:73-75 | a tail opened and closed by the period brackets and ending in "..." reads back the integers inside, as a periodic tail |
| Notation.ParseRendered | confrac.py:74-93 | a string "[a0; body]" whose body has no ';' parses to a0 followed by the tail parsed from the body |
| Notation.PeriodTextParses | confrac.py:134-141 | the rendered period text of any non-empty list parses back to that list as a periodic tail |
| ContinuedValue.WalkOfReverse | confrac.py:119-121 | folding `result = 1/(b + result)` over the tail from its last term computes the nested tail value 1/(a1 + 1/(… + 1/an)) |
| ContinuedValue.Accumulate | confrac.py:114-116 | the accumulator loop of `calculate` computes the fold over the yielded terms, including a division by zero |
| ContinuedValue.TailValueBounds | confrac.py:118-121 | with every tail term at least 1 the fold never divides by zero, and the tail value lies in [0, 1], strictly above 0 when the tail is non-empty |
| ContinuedValue.ValueBounds | confrac.py:121 | with positive tail terms the value lies between a0 and a0 + 1, strictly above a0 when there is a tail |
| ContinuedValue.LeadingTermBounds | confrac.py:116 | the first term t0 of a positive tail pins its value to [1/(t0+1), 1/t0] |
| ContinuedValue.CorrectedNextNumberWalk | confrac.py:28-36 | a next-number walk that starts at the last index instead of one past it evaluates the first min(endPoint, L) tail terms, and the whole value once endPoint >= L |
| SquareRoot.FloorSqrt | confrac.py:98-99 | the integer square root r satisfies r*r <= s < (r+1)*(r+1), the floor of `math.sqrt(s)` |
| SquareRoot.FloorSqrtUnique | confrac.py:99 | any r with r*r <= s < (r+1)*(r+1) is that square root |
| SquareRoot.NextKeepsValid | confrac.py:103-105 | one step of the (m, d, a) recurrence keeps d positive and dividing s - m*m, and yields a quotient between 1 and 2*a0 |
| SquareRoot.Turn | src/confrac/confrac.py:135-137 | the in-place update of m, d and a in the loop body produces the state `Next` specifies |
| SquareRoot.FloorOfShiftedRoot | confrac.py:105 | for any real x with floor a0, integer m and d > 0, floor((x + m)/d) equals (a0 + m) div d, so the step computed from sqrt(s) equals the integer step |
| SquareRoot.PeriodShape | confrac.py:102-108 | the loop yields at most `precision` terms, each in [1, 2*a0]; none before the last equals 2*a0, and the last does when the loop stops early |
| SquareRoot.ExpansionShape | confrac.py:95-109 | a negative s raises ValueError; a perfect square gives []; otherwise the quotients start with floor(sqrt(s)), number at most precision + 1, keep later terms in [1, 2*a0] and stop at the first 2*a0 |
| SquareRoot.PerfectSquareExpansion | src/confrac/confrac.py:131 | the square of any integer gives the empty quotient list |
| SquareRoot.SquareRootQuotients | src/confrac/confrac.py:129-140 | the loop of `getSquareRoot` returns the expansion |
| SquareRoot.PeriodLoop | confrac.py:102-108 | the bounded loop with its break appends a0 followed by the recurrence's terms up to the first 2*a0 |
| SquareRoot.ExpansionOf23 | confrac.py:158 | the square root of 23 gives [4, 1, 3, 1, 8] for any precision of at least 4 |
| SquareRoot.ExpansionOf3 | confrac.py:157 | the square root of 3 gives [1, 1, 2] for any precision of at least 2 |
| FractionExpansion.FloorFirstQuotients | confrac.py:62-72 | as written, the loop of `_initFromFraction` returns [floor(cf), floor(cf)] whenever it runs at all |
| FractionExpansion.FloorFirstLosesTheFraction | src/confrac/confrac.py:53-63 | 7/2 becomes [3, 3], worth 10/3, while [3, 2] is worth 7/2 |
| FractionExpansion.FloorFirstDividesByZero | src/confrac/confrac.py:53-63 | every fraction in [0, 1) has floor 0, and its floor-first quotients [0, 0] evaluate to ZeroDivisionError |
| FractionExpansion.ExpandFraction | confrac.py:64-72 | the loop that starts from the fraction itself keeps positive later terms, begins with floor(cf), and reproduces cf exactly unless it uses up all `precision` rounds |
| ConfracDraft.ContinuedFraction.constructor | confrac.py:38 | a new instance has no attributes yet |
| ConfracDraft.ContinuedFraction.InitFromString | confrac.py:74-93 | `_initFromString` fails exactly when the notation parser raises, with its error, and otherwise leaves the parsed attributes |
| ConfracDraft.ContinuedFraction.InitFromFraction | confrac.py:56-72 | `_initFromFraction` leaves kind FINITE, the next-number generator and the quotients of its loop |
| ConfracDraft.ContinuedFraction.New | confrac.py:38-54 | the constructor succeeds exactly when `__init__` does, raises its error otherwise, and a given genFunc replaces the generator |
| ConfracDraft.ContinuedFraction.GetRepetitionGenerator | confrac.py:21-26 | the repetition generator yields rest[endPoint % L] down to rest[1 % L], raises ZeroDivisionError without period terms and AttributeError without quotients |
| ConfracDraft.ContinuedFraction.GetNextNumberGenerator | confrac.py:28-36 | the next-number generator yields rest[i] for i from min(endPoint, L) down to 1, raising IndexError at index L |
| ConfracDraft.ContinuedFraction.Calculate | confrac.py:111-122 | `calculate` folds the generator's terms for a repeating fraction and the reversed tail otherwise, then adds a0, with each attribute error of the source |
| ConfracDraft.ContinuedFraction.GetSquareRoot | confrac.py:95-109 | the result is tagged REPEATING with the repetition generator and holds the expansion; a negative s raises ValueError |
| ConfracDraft.ConstructOutsideTheNotation | confrac.py:43-51 | a non-empty string that is not bracketed once its spaces are removed assigns nothing and raises nothing; one that is empty once its spaces are removed raises IndexError at `cf[0]` (line 76); an argument of another type raises TypeError |
| ConfracDraft.ConstructFromNotation | confrac.py:84-93 | a parsed string always has a tail quotient and gets the next-number generator unless one is passed |
| ConfracDraft.FiniteRoundTrip | confrac.py:136-138 | a FINITE fraction with a tail renders as "[a0; a1, …, an]" and reads back to the same quotients and kind |
| ConfracDraft.NonFiniteReadsBackFinite | confrac.py:142-143 | a NON_FINITE fraction renders without "..." and so reads back as FINITE |
| ConfracDraft.RepeatingRendering | confrac.py:128-134 | a one-term period renders as "(r1) ..." and a longer one as "(r1, …, rn, rn) ...", with its last term twice |
| ConfracDraft.RepeatingRoundTripOneTerm | confrac.py:132 | a REPEATING fraction with one period term reads back to the same quotients and kind |
| ConfracDraft.RepeatingRoundTripRepeatsLast | confrac.py:130 | a REPEATING fraction with a longer period reads back with its last term appended once more |
| ConfracDraft.CorrectedRepeatingRoundTrip | confrac.py:127-141 | rendering the period without the repeated term reads back to the same quotients for every period length |
| ConfracDraft.FiniteWithoutTailDoesNotReadBack | confrac.py:136 | a FINITE fraction without tail renders as "[a0; ]", which raises ValueError when read back |
| ConfracDraft.FiniteCalculation | confrac.py:118-122 | for a non-repeating kind `calculate` is exactly a0 + 1/(a1 + 1/(… + 1/an)); without quotients it raises IndexError |
| ConfracDraft.FractionBelowOneRaises | confrac.py:48-49 | a Fraction in [0, 1) is stored as FINITE [0, 0], and `calculate` raises ZeroDivisionError |
| ConfracDraft.FiniteExample1Parses | confrac.py:165 | "[3; 4, 12, 4]" reads as FINITE [3, 4, 12, 4] |
| ConfracDraft.FiniteExample1Value | confrac.py:165 | "[3; 4, 12, 4]" evaluates to 649/200 |
| ConfracDraft.FiniteExample2Parses | confrac.py:164 | "[12; 34, 1, 4]" reads as FINITE [12, 34, 1, 4] |
| ConfracDraft.FiniteExample2Value | confrac.py:164 | "[12; 34, 1, 4]" evaluates to 2093/174 |
| ConfracDraft.RepetitionCalculation | confrac.py:113-117 | with the repetition generator a REPEATING fraction evaluates the period shifted by one, rest[1 % L] outermost; without period terms it raises ZeroDivisionError |
| ConfracDraft.SquareRootOf23Shifted | confrac.py:158 | the square root of 23 is calculated below 4 + 1/3, while [4; 1, 3, 1, 8, …] is at least 4 + 1/2 |
| ConfracDraft.NextNumberOutOfRange | confrac.py:30-35 | whenever the tail has between 1 and endPoint terms, the next-number generator raises IndexError |
| ConfracDraft.ParsedRepeatingRaises | confrac.py:84 | a REPEATING fraction read from a string with at most 100 period terms cannot be calculated and raises IndexError |
| Confrac.ContinuedFraction.constructor | src/confrac/confrac.py:38 | the kind is stored before anything else, and the quotients are not yet assigned |
| Confrac.ContinuedFraction.A0 | src/confrac/confrac.py:83-85 | `a0` is the first quotient; it raises IndexError for an empty list and AttributeError when the quotients were never assigned |
| Confrac.ContinuedFraction.Rest | src/confrac/confrac.py:87-89 | `rest` is what follows a0, so a0 followed by rest is the quotient list |
| Confrac.ContinuedFraction.InitFromString | src/confrac/confrac.py:65-81 | `_initFromString` fails exactly when the notation parser raises, with its error, and otherwise leaves the parsed attributes |
| Confrac.ContinuedFraction.InitFromFraction | src/confrac/confrac.py:48-63 | `_initFromFraction` leaves kind F and the quotients of its loop |
| Confrac.ContinuedFraction.New | src/confrac/confrac.py:32-46 | the constructor succeeds exactly when `__init__` does and raises its error otherwise |
| Confrac.ContinuedFraction.RepetitionGenerator | src/confrac/confrac.py:15-19 | the repetition generator yields rest[endPoint % L] down to rest[0], endPoint + 1 terms, and raises ZeroDivisionError without period terms |
| Confrac.ContinuedFraction.NextNumberGenerator | src/confrac/confrac.py:21-29 | the next-number generator yields rest[i % L] for i from min(endPoint, L) down to 1 |
| Confrac.ContinuedFraction.Calculate | src/confrac/confrac.py:91-101 | `calculate(terms)` folds the repetition terms for NFR and the next-number terms for F, then adds a0; NFNR gives 0 |
| Confrac.ContinuedFraction.GetSquareRoot | src/confrac/confrac.py:125-141 | the result is tagged NFR and holds the expansion; a negative s raises ValueError |
| Confrac.ConstructOutsideTheNotation | src/confrac/confrac.py:38-46 | a string that is empty once its spaces are removed raises IndexError at `cf[0]` (line 67); a non-empty one that is not bracketed leaves the quotients unassigned but keeps the kind, and calculating then raises AttributeError unless the kind is NFNR; another type raises TypeError |
| Confrac.ConstructFromNotation | src/confrac/confrac.py:67-81 | a string that parses always yields a0 and at least one tail quotient |
| Confrac.DefaultIsZero | src/confrac/confrac.py:32 | the default instance holds [0] with kind F and calculates to 0 |
| Confrac.RepeatingCalculation | src/confrac/confrac.py:93-96 | an NFR fraction evaluates a0 followed by terms + 1 period terms from rest[0] outward; ZeroDivisionError without period terms, a0 for negative terms |
| Confrac.RepeatingCalculationBounds | src/confrac/confrac.py:93-96 | with a positive period the value lies in (a0, a0 + 1] |
| Confrac.RepeatingExampleParses | src/confrac/confrac.py:145-147 | "[1; ([2]) ...]" and the list [1, 2] of kind NFR give the same attributes |
| Confrac.RepeatingExampleRendering | src/confrac/confrac.py:148 | [1, 2] of kind NFR renders as "[1; ([2]) ...]" |
| Confrac.RepeatingExampleValue | src/confrac/confrac.py:146 | [1, 2] of kind NFR evaluates 101 twos after 1, a value in (1, 2] |
| Confrac.FiniteCalculation | src/confrac/confrac.py:97-100 | an F fraction evaluates rest[1..start] followed by rest[start % L] innermost; a0 alone without a tail or for terms <= 0; IndexError without quotients |
| Confrac.NextNumberReversed | src/confrac/confrac.py:21-29 | the next-number terms read from the outside in are rest[1], …, rest[start-1], then rest[start % L] |
| Confrac.FiniteCalculationRotates | src/confrac/confrac.py:21-29 | with terms >= L an F fraction evaluates its tail with rest[0] moved to the far end |
| Confrac.FiniteExampleOneTerm | src/confrac/confrac.py:149-150 | [3, 2] of kind F evaluates to 7/2 |
| Confrac.FiniteExampleParses | src/confrac/confrac.py:151 | "[3; 2, 1, 3]" reads as F [3, 2, 1, 3] |
| Confrac.FiniteExampleValue | src/confrac/confrac.py:152 | "[3; 2, 1, 3]" is worth 37/11 but calculates to 34/9; the corrected walk gives 37/11 |
| Confrac.CorrectedFiniteCalculation | src/confrac/confrac.py:21-29 | a walk from the last tail index down to index 0 evaluates every F fraction exactly once terms >= L |
| Confrac.FractionBelowOneRaises | src/confrac/confrac.py:43-44 | a Fraction in [0, 1) is stored as F [0, 0]; `calculate(terms)` raises ZeroDivisionError for terms >= 1 and gives 0 for terms <= 0 |
| Confrac.NonRepeatingIsZero | src/confrac/confrac.py:92-101 | NFNR matches neither branch and calculates to 0 |
| Confrac.PeriodListIsListString | src/confrac/confrac.py:108-112 | the hand-built period list is `str()` of the list, for every length |
| Confrac.Rendering | src/confrac/confrac.py:106-123 | NFR renders as "[a0; ([r1, …, rn]) ...]" and every other kind as "[a0; a1, …, an]" |
| Confrac.FiniteRoundTrip | src/confrac/confrac.py:115-117 | an F fraction with a tail reads back to the same quotients and kind |
| Confrac.RepeatingRoundTrip | src/confrac/confrac.py:107-120 | an NFR fraction with a period reads back to the same quotients and kind |
| Confrac.NonRepeatingReadsBackFinite | src/confrac/confrac.py:121-122 | an NFNR fraction renders without "..." and reads back as F |
| Confrac.FiniteWithoutTailDoesNotReadBack | src/confrac/confrac.py:115 | an F fraction without tail renders as "[a0; ]", which raises ValueError when read back |
| Confrac.RepeatingWithoutPeriodDoesNotReadBack | src/confrac/confrac.py:112 | an NFR fraction without period renders "([]) ...", which raises ValueError when read back |
| Confrac.EmptyPeriodDoesNotParse | src/confrac/confrac.py:75 | the period text of an empty list raises ValueError in `int()` |
| Confrac.SquareRootOf23 | src/confrac/confrac.py:141 | the square root of 23 gives [4, 1, 3, 1, 8] and calculates a0 followed by 101 period terms, a value in (4, 5] |
| Confrac.SquareRootOfPerfectSquare | src/confrac/confrac.py:131 | a perfect square gives no quotients, and calculating it raises ZeroDivisionError |

## Left out

- Console output is not modelled. This covers the `print` calls in the draft's repetition generator and `calculate`, `testPrint`, and both `main` functions. Their example inputs and values appear as lemmas.
- `getSquareRoot` uses float `math.sqrt` and true division `/`. The model computes the recurrence in exact arithmetic. `SquareRoot.FloorOfShiftedRoot` shows that the step taken from the exact root equals the integer step. Float rounding of `math.sqrt` and `/` is not modelled.
- The float comparisons against `math.sqrt` and `math.e` in `main` are not modelled.
- `Fraction` is an exact rational (`real`). Its normalisation, and the possibility of its denominator being zero, are represented only as `ZeroDivisionError` results.
- `int()` accepts an optional sign followed by ASCII digits. Underscores, Unicode digits and surrounding whitespace are not modelled.
- Generators are the sequences they yield. Suspension, and the order in which a lazily raised error interleaves with the fold, are not modelled; the fold's result is the same.
- In the draft, `genFunc` holds one of two tags instead of a function object.
- Lists are values, so aliasing between the caller's list and the stored one is not modelled. This includes the shared mutable default `[0]` in the packaged constructor.
- An `_initFromString` that raises partway may have assigned some attributes. The model does not track those, because the failing constructor never hands out the instance.
- A Fraction with a zero denominator cannot be built in Python, so `FractionArg` takes any real.
- `ListArg` carries only lists of integers. Python stores any list, including lists of Fractions or floats, and `calculate` would fold those values; such lists are not modelled.
- setup.py is packaging metadata and is not part of this model.

## Findings

| source | as written | input that shows it | evidently intended | confidence | as-written member | corrected member |
|---|---|---|---|---|---|---|
| confrac.py:62-72, src/confrac/confrac.py:53-63 | `r` is floored before the loop, so the first round finds no fraction and stops | Fraction(7, 2) gives [3, 3], worth 10/3; Fraction(1, 2) gives [0, 0], which divides by zero | expand from `r = cf`: [3, 2] for 7/2, a list whose value is cf | not executed | FractionExpansion.FloorFirstLosesTheFraction | FractionExpansion.ExpandFraction |
| confrac.py:28-36 | the walk starts at index min(endPoint, L) of a list of length L | "[1; (2) ...]" raises IndexError in `calculate` | start at the last index and walk the whole tail | not executed | ConfracDraft.NextNumberOutOfRange | ContinuedValue.CorrectedNextNumberWalk |
| confrac.py:130 | the joined terms, each followed by ", ", are followed by the last term once more | [1, 2, 4] of kind REPEATING renders "[1; (2, 4, 4) ...]" and reads back as [1, 2, 4, 4] | render each period term once | not executed | ConfracDraft.RepeatingRoundTripRepeatsLast | ConfracDraft.CorrectedRepeatingRoundTrip |
| src/confrac/confrac.py:21-29 | index min(terms, L) % L wraps to rest[0], which is folded innermost | "[3; 2, 1, 3]" calculates to 34/9 instead of 37/11 | walk from rest[L-1] down to rest[0] | not executed | Confrac.FiniteExampleValue | Confrac.CorrectedFiniteCalculation |
| confrac.py:21-26 | the repetition generator counts down to 1, so rest[1 % L] is outermost and rest[0] never leads | getSquareRoot(23) calculates below 4 + 1/3, but its square root is above 4.5 | count down to 0, as the packaged version does | not executed | ConfracDraft.SquareRootOf23Shifted | Confrac.RepeatingCalculation |

Each class models its source as written. The corrected members are separate definitions, and each has its intended property proved.
