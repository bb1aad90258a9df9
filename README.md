# Bulking surplus-range calculator, modelled in Dafny

The page's range calculator knows three bulking approaches. Each one is a
name and a pair of kcal offsets above maintenance calories (TDEE):
Conservative [100,250], Moderate [250,500] and Aggressive [500,750].
For a TDEE typed into a form, it fills a table with one text per approach:

- `"[lo+tdee,hi+tdee] kcal"` when the TDEE is usable;
- `"TDEE + [lo,hi] kcal"` when the TDEE is null, NaN or 0.

Before the text reaches that table, the form handler cleans it with `parseInt`
and then `Math.round`.

The model is four modules:

- `Wrappers` (`wrappers.dfy`) holds `Option`.
- `JsNumber` (`js_number.dfy`) holds the JavaScript number behaviour the
  calculator depends on:
  - integers printed as `String(n)` prints them;
  - a strict decimal reader, used as the reference for printed numbers;
  - the global `parseInt` on decimal text;
  - `Math.round`.
- `JsArray` (`js_array.dfy`) holds `Array.prototype.toString` for integer arrays
  (comma-joined, no spaces) and its inverse.
- `Bulking` (`bulking.dfy`) holds the calculator itself:
  - the `BulkingApproach` record and the three constants in table order;
  - `GetPersonalRange`;
  - the value part of `setRangeTable`;
  - the cleaning in the submission handler;
  - the initial page state.

The value that reaches `getPersonalRange` is `Tdee = Absent | NotANumber | Num(int)`.
These are the only values its callers produce: `null` (or `undefined`, which skips the
cleaning and behaves the same), or `Math.round(parseInt(...))`.
The number -0 behaves exactly like 0 at every step, so it is written `Num(0)`.
`DecodeRange` reads a cell's text back into the bounds it shows. The main
properties are stated through it: the text of a cell determines whether the
TDEE was usable and which bounds it shows.

At a TDEE of 2000 the Conservative row shows `[2100,2250] kcal`: 2000 is added
to each of 100 and 250 (`TableForValidTdee`).

## Model

| member | source | states |
|---|---|---|
| `JsNumber.NatToString` | bulking.js:43 | printing a non-negative number gives a non-empty string of decimal digits with no leading zero |
| `JsNumber.IntToString` | bulking.js:43 | a printed integer is non-empty, starts with `-` exactly when the integer is negative, is digits otherwise, and has no leading zero unless it is 0 |
| `JsNumber.ParseDecimalOfIntToString` | bulking.js:43 | reading a printed integer back gives that integer |
| `JsNumber.IntToStringInjective` | bulking.js:43 | two integers that print the same are equal |
| `JsNumber.TrimStart` | bulking.js:111 | `parseInt` skips exactly the leading white space: what it removes is all white space, and what is left is empty or starts with a non-space |
| `JsNumber.DigitPrefix` | bulking.js:111 | `parseInt` reads the longest run of digits: a prefix of the input, all digits, stopped by the end of the input or by a non-digit |
| `JsNumber.ParseInt` | bulking.js:111 | `parseInt(s)`: skip leading white space (`TrimStart`), drop one optional sign, take the digit run (`DigitPrefix`); NaN exactly when that run is empty, otherwise its value, negated after a `-` |
| `JsNumber.StripSign` | bulking.js:111 | `parseInt` drops the leading `-` or `+` when there is one, and nothing otherwise |
| `JsNumber.ParseIntReadsLeadingInteger` | bulking.js:111 | `parseInt` of a printed integer followed by any text that does not start with a digit (nor, after a lone `0`, with the hexadecimal marker `x`/`X`) gives that integer, so a fraction is cut off |
| `JsNumber.MathRound` | bulking.js:112 | `Math.round(x)` is the integer `r` with `x - 0.5 < r <= x + 0.5` (halves round up) |
| `JsNumber.MathRoundFixesIntegers` | bulking.js:112 | `Math.round` leaves an integer unchanged |
| `JsArray.ArrayToString` | bulking.js:37 | an array prints as the empty string exactly when it is empty |
| `JsArray.ParseListOfArrayToString` | bulking.js:37 | reading back the comma-joined text of an integer array gives the array |
| `Bulking.IsInvalidExactly` | bulking.js:38 | the guard `isNaN(tdee) \|\| !tdee` holds exactly for null, NaN and 0; every other integer, negatives included, passes it |
| `Bulking.Shift` | bulking.js:42 | `rangeConstants.map(c => c + tdee)`: a new array of the same length whose i-th element is the i-th offset plus TDEE |
| `Bulking.GetPersonalRange` | bulking.js:36-47 | defined for every input; the text always ends in `] kcal`; it starts with `TDEE + [` exactly when `tdee` is null, NaN or 0 |
| `Bulking.DecodeGetPersonalRange` | bulking.js:36-47 | the cell text reads back to the unmodified offsets for an invalid TDEE, and to every offset plus TDEE, in order, for a valid one (the approach itself is an immutable value, so the `map` cannot change its offsets) |
| `Bulking.GetPersonalRangeInjective` | bulking.js:41-43 | two valid TDEE values that give the same text are equal |
| `Bulking.InvalidTdeeGivesDefault` | bulking.js:37-40 | for a pair of offsets and a null, NaN or zero TDEE the text is exactly `TDEE + [lo,hi] kcal` |
| `Bulking.ValidTdeeGivesPersonalRange` | bulking.js:41-43 | for a pair of offsets and any non-zero TDEE, negatives included, the text is exactly `[lo+tdee,hi+tdee] kcal` |
| `Bulking.RangeTable` | bulking.js:84-90 | the table has exactly three rows, named Conservative, Moderate and Aggressive in that order |
| `Bulking.RangeTableRows` | bulking.js:69-73 | row i holds the name of the i-th recommended approach and that approach's text for the TDEE |
| `Bulking.RangeTableDecodes` | bulking.js:85-90 | every row's text reads back to what its approach means for the TDEE |
| `Bulking.ShownPair` | bulking.js:42 | a pair-offset approach shows its two offsets, both moved by the same amount (TDEE if valid, otherwise nothing) |
| `Bulking.ShownTable` | bulking.js:54-64 | the three rows show [100,250], [250,500] and [500,750], all moved by the same amount |
| `Bulking.BoundsStayOrdered` | bulking.js:54-64 | for every TDEE, each row shows two bounds with the lower strictly below the upper |
| `Bulking.AdjacentRangesMeet` | bulking.js:54-64 | for every TDEE, Conservative's upper bound equals Moderate's lower bound, and Moderate's upper equals Aggressive's lower |
| `Bulking.TableForValidTdee` | bulking.js:85-90 | for a non-zero TDEE n the table is exactly the three names with `[100+n,250+n] kcal`, `[250+n,500+n] kcal` and `[500+n,750+n] kcal` |
| `Bulking.PrintedOffsets` | bulking.js:54-64 | the offsets print as `100`, `250`, `500` and `750` |
| `Bulking.DefaultTexts` | bulking.js:37 | the three default texts spelled out: `TDEE + [100,250] kcal`, `TDEE + [250,500] kcal`, `TDEE + [500,750] kcal` |
| `Bulking.TableForInvalidTdee` | bulking.js:37-40 | for a null, NaN or zero TDEE the table is exactly those three default texts, in order |
| `Bulking.InitialRangeTable` | bulking.js:123-125 | `setUpPageFormsInitialState` fills three rows, every one in the default `TDEE + [` form |
| `Bulking.InitialStateShowsDefaults` | bulking.js:123-125 | the initial page state, `setRangeTable(null)`, shows the three default texts |
| `Bulking.CleanTdee` | bulking.js:108-113 | null is passed on as null; any other value becomes NaN exactly when `parseInt` finds no digits, and otherwise becomes the integer `parseInt` read, which `Math.round` leaves unchanged |
| `Bulking.CleanTdeeTruncates` | bulking.js:109-113 | a field holding an integer, followed by nothing or by a non-digit (not `x`/`X` after a lone `0`), cleans to that integer |
| `Bulking.CleanTdeeDropsFraction` | bulking.js:111-112 | the field value `2000.7` cleans to 2000, not 2001 |
| `Bulking.HandleRangeCalculatorSubmission` | bulking.js:107-114 | a submission fills three rows, named after the three approaches in order, each reading back to what its approach means for the cleaned TDEE |
| `Bulking.SubmissionUsesIntegerPart` | bulking.js:107-114 | submitting an integer, with or without a trailing fraction (not `x`/`X` after a lone `0`), shows the table for that integer |
| `Bulking.SubmissionOfZeroShowsDefaults` | bulking.js:38 | submitting `0` shows the same table as the initial state |

## Left out

- Page access is not modelled:
  - reading the form field (bulking.js:108);
  - building the element id `"personal"+name+"Range"`;
  - the `forEach` that writes each text into the page (bulking.js:91-97).
  The model stops at the list of rows that loop would write.
- Event wiring is not modelled: the `DOMContentLoaded` listener (bulking.js:130)
  and the `PREVENT_PAGE_RELOAD` return value (bulking.js:6, bulking.js:115).
  Neither holds any logic.
- The `catch` branch of `getPersonalRange` (bulking.js:44-46) is not modelled.
  For the values its callers pass, nothing in the `try` can throw, so the model
  function is total without it.
- ParseInt: the `0x`/`0X` prefix is not modelled. JavaScript reads it as
  hexadecimal; the model reads `0x1A` as 0.
- ParseInt: decimal digit runs only. Signs, white space and trailing text follow
  JavaScript.
- IntToString: integers are unbounded. JavaScript numbers lose precision above
  2^53 and print in exponent form from 1e21. A `parseInt` of a very long digit
  run gives Infinity. None of this is modelled.
- A numeric string passed as `tdee` would make `+` concatenate instead of add.
  This is not modelled: the only callers pass `null` or a `Math.round` result.
- A fractional `tdee` is not modelled, for the same reason.
- A rate-of-weight-gain classification does not exist in this source, so it is
  not modelled.
