/**
 * The surplus-range calculator of the bulking page: three bulking
 * approaches, each a pair of kcal offsets, and the text each one shows for
 * a maintenance calorie figure (TDEE) typed in by the user.
 */
module Bulking {
  import opened Wrappers
  import opened JsNumber
  import opened JsArray

  /**
   * The value handed to `getPersonalRange` as `tdee`.  Its callers pass
   * either `null` (`Absent`; `undefined` behaves the same) or the result of `Math.round(parseInt(...))`,
   * which is NaN (`NotANumber`) or an integer-valued number (`Num`); the
   * number -0 behaves exactly as 0 here and is written `Num(0)`.
   */
  datatype Tdee = Absent | NotANumber | Num(n: int)

  /** `isNaN(tdee)`: `isNaN(null)` is false, because `Number(null)` is 0. */
  predicate IsNaN(tdee: Tdee) { tdee.NotANumber? }

  /** JavaScript truthiness: `null`, NaN and 0 are falsy. */
  predicate Truthy(tdee: Tdee) { tdee.Num? && tdee.n != 0 }

  /** The guard of `getPersonalRange`: `isNaN(tdee) || !tdee`. */
  predicate IsInvalid(tdee: Tdee) { IsNaN(tdee) || !Truthy(tdee) }

  /** The guard rejects exactly null, NaN and zero; every other number, negatives included, passes. */
  lemma IsInvalidExactly(tdee: Tdee)
    ensures IsInvalid(tdee) <==> tdee == Absent || tdee == NotANumber || tdee == Num(0)
  {
  }

  /** A bulking approach: a name and the offsets added to TDEE (lower bound first). */
  datatype BulkingApproach = BulkingApproach(name: string, rangeConstants: seq<int>)

  /** `rangeConstants.map(c => c + d)`: a new array; the approach is left as it was. */
  function Shift(xs: seq<int>, d: int): (ys: seq<int>)
    ensures |ys| == |xs|
    ensures forall i | 0 <= i < |xs| :: ys[i] == xs[i] + d
  {
    seq(|xs|, i requires 0 <= i < |xs| => xs[i] + d)
  }

  const DefaultPrefix := "TDEE + ["
  const Suffix := "] kcal"

  /** True of the text shown when no usable TDEE was entered. */
  predicate IsDefaultForm(s: string)
  {
    |s| >= |DefaultPrefix| && s[..|DefaultPrefix|] == DefaultPrefix
  }

  /**
   * `getPersonalRange(tdee)`: with an invalid TDEE the offsets themselves
   * behind "TDEE + ", otherwise the offsets with TDEE added, in brackets,
   * both followed by " kcal".  Defined for every input.
   */
  function GetPersonalRange(approach: BulkingApproach, tdee: Tdee): (r: string)
    ensures |r| >= |Suffix| && r[|r| - |Suffix|..] == Suffix
    ensures IsDefaultForm(r) <==> IsInvalid(tdee)
  {
    var defaultResponse := DefaultPrefix + ArrayToString(approach.rangeConstants) + Suffix;
    if IsNaN(tdee) || !Truthy(tdee) then defaultResponse
    else
      var personalizedRange := "[" + ArrayToString(Shift(approach.rangeConstants, tdee.n)) + Suffix;
      assert personalizedRange[0] != DefaultPrefix[0];
      personalizedRange
  }

  /** What a range cell shows, read back: the bare offsets or the personalised bounds. */
  datatype Display = DefaultDisplay(bounds: seq<int>) | PersonalDisplay(bounds: seq<int>)

  /** Reads back the text produced by `GetPersonalRange`. */
  function DecodeRange(s: string): Option<Display>
  {
    if |s| >= |DefaultPrefix| + |Suffix| && s[..|DefaultPrefix|] == DefaultPrefix
       && s[|s| - |Suffix|..] == Suffix then
      match ParseList(s[|DefaultPrefix|..|s| - |Suffix|])
      case None => None
      case Some(xs) => Some(DefaultDisplay(xs))
    else if |s| >= 1 + |Suffix| && s[0] == '[' && s[|s| - |Suffix|..] == Suffix then
      match ParseList(s[1..|s| - |Suffix|])
      case None => None
      case Some(xs) => Some(PersonalDisplay(xs))
    else None
  }

  /** What the range cell of `approach` is meant to say for `tdee`. */
  function Intended(approach: BulkingApproach, tdee: Tdee): Display
  {
    if IsInvalid(tdee) then DefaultDisplay(approach.rangeConstants)
    else PersonalDisplay(Shift(approach.rangeConstants, tdee.n))
  }

  /**
   * The text of a range cell determines what it says: an invalid TDEE shows
   * the unmodified offsets, a valid one each offset plus TDEE, in order.
   */
  lemma DecodeGetPersonalRange(approach: BulkingApproach, tdee: Tdee)
    ensures DecodeRange(GetPersonalRange(approach, tdee)) == Some(Intended(approach, tdee))
  {
    var s := GetPersonalRange(approach, tdee);
    if IsInvalid(tdee) {
      var body := ArrayToString(approach.rangeConstants);
      assert s == DefaultPrefix + body + Suffix;
      assert s[..|DefaultPrefix|] == DefaultPrefix;
      assert s[|DefaultPrefix|..|s| - |Suffix|] == body;
      ParseListOfArrayToString(approach.rangeConstants);
    } else {
      var shifted := Shift(approach.rangeConstants, tdee.n);
      var body := ArrayToString(shifted);
      assert s == "[" + body + Suffix;
      assert s[1..|s| - |Suffix|] == body;
      ParseListOfArrayToString(shifted);
    }
  }

  /** Two valid TDEE values that show the same text for an approach are equal. */
  lemma GetPersonalRangeInjective(approach: BulkingApproach, a: int, b: int)
    requires |approach.rangeConstants| > 0 && a != 0 && b != 0
    requires GetPersonalRange(approach, Num(a)) == GetPersonalRange(approach, Num(b))
    ensures a == b
  {
    DecodeGetPersonalRange(approach, Num(a));
    DecodeGetPersonalRange(approach, Num(b));
    assert Shift(approach.rangeConstants, a)[0] == Shift(approach.rangeConstants, b)[0];
  }

  /** For a pair of offsets, an invalid TDEE shows exactly "TDEE + [lo,hi] kcal". */
  lemma InvalidTdeeGivesDefault(approach: BulkingApproach, tdee: Tdee)
    requires |approach.rangeConstants| == 2 && IsInvalid(tdee)
    ensures GetPersonalRange(approach, tdee)
         == "TDEE + [" + IntToString(approach.rangeConstants[0]) + ","
            + IntToString(approach.rangeConstants[1]) + "] kcal"
  {
    var xs := approach.rangeConstants;
    assert ArrayToString(xs[1..]) == IntToString(xs[1]);
  }

  /**
   * For a pair of offsets and any non-zero TDEE, negative ones included, the
   * text is exactly "[lo+tdee,hi+tdee] kcal".
   */
  lemma ValidTdeeGivesPersonalRange(approach: BulkingApproach, tdee: int)
    requires |approach.rangeConstants| == 2 && tdee != 0
    ensures GetPersonalRange(approach, Num(tdee))
         == "[" + IntToString(approach.rangeConstants[0] + tdee) + ","
            + IntToString(approach.rangeConstants[1] + tdee) + "] kcal"
  {
    var ys := Shift(approach.rangeConstants, tdee);
    assert ArrayToString(ys[1..]) == IntToString(ys[1]);
  }

  const ConservativeSurplusRange := BulkingApproach("Conservative", [100, 250])
  const ModerateSurplusRange := BulkingApproach("Moderate", [250, 500])
  const AggressiveSurplusRange := BulkingApproach("Aggressive", [500, 750])

  /** All recommended approaches, in the order the table lists them. */
  const RecommendedRanges := [ConservativeSurplusRange, ModerateSurplusRange, AggressiveSurplusRange]

  /** One row of the range table: an approach's name and the text of its cell. */
  datatype PersonalRange = PersonalRange(name: string, personalizedRange: string)

  /**
   * The rows `setRangeTable(tdee)` writes into the page: one per
   * recommended approach, in order, each carrying the approach's name.
   */
  function RangeTable(tdee: Tdee): (rows: seq<PersonalRange>)
    ensures |rows| == 3
    ensures rows[0].name == "Conservative" && rows[1].name == "Moderate"
         && rows[2].name == "Aggressive"
  {
    seq(|RecommendedRanges|, i requires 0 <= i < |RecommendedRanges| =>
      PersonalRange(RecommendedRanges[i].name, GetPersonalRange(RecommendedRanges[i], tdee)))
  }

  /** Every row of the table says what its approach is meant to say for `tdee`. */
  lemma RangeTableDecodes(tdee: Tdee)
    ensures forall i | 0 <= i < 3 ::
      DecodeRange(RangeTable(tdee)[i].personalizedRange) == Some(Intended(RecommendedRanges[i], tdee))
  {
    forall i | 0 <= i < 3
      ensures DecodeRange(RangeTable(tdee)[i].personalizedRange) == Some(Intended(RecommendedRanges[i], tdee))
    {
      DecodeGetPersonalRange(RecommendedRanges[i], tdee);
    }
  }

  /** The bounds a row shows, lower first. */
  function ShownBounds(row: PersonalRange): seq<int>
  {
    match DecodeRange(row.personalizedRange)
    case None => []
    case Some(d) => d.bounds
  }

  /** The bounds the row of `approach` shows for `tdee`, when its offsets are a pair. */
  lemma ShownPair(approach: BulkingApproach, tdee: Tdee)
    requires |approach.rangeConstants| == 2
    ensures var b := ShownBounds(PersonalRange(approach.name, GetPersonalRange(approach, tdee)));
      var d := if IsInvalid(tdee) then 0 else tdee.n;
      b == [approach.rangeConstants[0] + d, approach.rangeConstants[1] + d]
  {
    var xs := approach.rangeConstants;
    DecodeGetPersonalRange(approach, tdee);
    if IsInvalid(tdee) {
      assert xs == [xs[0] + 0, xs[1] + 0];
    } else {
      var ys := Shift(xs, tdee.n);
      assert ys == [xs[0] + tdee.n, xs[1] + tdee.n];
    }
  }

  /** The three rows show the offsets, all moved by the same amount. */
  lemma ShownTable(tdee: Tdee)
    ensures var rows := RangeTable(tdee);
      var d := if IsInvalid(tdee) then 0 else tdee.n;
      ShownBounds(rows[0]) == [100 + d, 250 + d]
      && ShownBounds(rows[1]) == [250 + d, 500 + d]
      && ShownBounds(rows[2]) == [500 + d, 750 + d]
  {
    ShownPair(ConservativeSurplusRange, tdee);
    ShownPair(ModerateSurplusRange, tdee);
    ShownPair(AggressiveSurplusRange, tdee);
  }

  /** Two bounds, the lower strictly below the upper. */
  predicate IsOrderedPair(bounds: seq<int>)
  {
    |bounds| == 2 && bounds[0] < bounds[1]
  }

  /** Every row shows two bounds, the lower strictly below the upper, whatever `tdee` is. */
  lemma BoundsStayOrdered(tdee: Tdee)
    ensures var rows := RangeTable(tdee);
      IsOrderedPair(ShownBounds(rows[0])) && IsOrderedPair(ShownBounds(rows[1]))
      && IsOrderedPair(ShownBounds(rows[2]))
  {
    ShownTable(tdee);
  }

  /**
   * Adjacent approaches meet: each row's upper bound is the next row's lower
   * bound, for the bare offsets and for personalised bounds alike.
   */
  lemma AdjacentRangesMeet(tdee: Tdee)
    ensures var rows := RangeTable(tdee);
      && |ShownBounds(rows[0])| == |ShownBounds(rows[1])| == |ShownBounds(rows[2])| == 2
      && ShownBounds(rows[0])[1] == ShownBounds(rows[1])[0]
      && ShownBounds(rows[1])[1] == ShownBounds(rows[2])[0]
  {
    ShownTable(tdee);
  }

  /**
   * The cleaning step of `handleRangeCalculatorSubmission`: a field value
   * that is not null goes through `parseInt` and then `Math.round`; null is
   * passed on unchanged.
   */
  function CleanTdee(raw: Option<string>): (tdee: Tdee)
    ensures raw.None? <==> tdee.Absent?
    ensures raw.Some? ==> (tdee.NotANumber? <==> ParseInt(raw.value).None?)
    ensures tdee.Num? ==> ParseInt(raw.value) == Some(tdee.n)
  {
    match raw
    case None => Absent
    case Some(s) =>
      match ParseInt(s)
      case None => NotANumber
      case Some(v) => MathRoundFixesIntegers(v); Num(MathRound(v as real))
  }

  /** A field holding an integer, possibly followed by a fraction or other text, cleans to that integer. */
  lemma CleanTdeeTruncates(n: int, tail: string)
    requires tail == [] || !IsDigit(tail[0])
    requires n != 0 || tail == [] || (tail[0] != 'x' && tail[0] != 'X')
    ensures CleanTdee(Some(IntToString(n) + tail)) == Num(n)
  {
    ParseIntReadsLeadingInteger(n, tail);
  }

  /** The rows `handleRangeCalculatorSubmission` writes for the raw field value. */
  function HandleRangeCalculatorSubmission(raw: Option<string>): (rows: seq<PersonalRange>)
    ensures |rows| == 3
    ensures forall i | 0 <= i < 3 :: rows[i].name == RecommendedRanges[i].name
    ensures forall i | 0 <= i < 3 ::
      DecodeRange(rows[i].personalizedRange) == Some(Intended(RecommendedRanges[i], CleanTdee(raw)))
  {
    RangeTableDecodes(CleanTdee(raw));
    RangeTable(CleanTdee(raw))
  }

  /** The rows `setUpPageFormsInitialState` writes: `setRangeTable(null)`. */
  function InitialRangeTable(): (rows: seq<PersonalRange>)
    ensures |rows| == 3
    ensures forall i | 0 <= i < 3 :: IsDefaultForm(rows[i].personalizedRange)
  {
    RangeTable(Absent)
  }

  /** The table as the list of each approach's name and cell text. */
  lemma RangeTableRows(tdee: Tdee)
    ensures RangeTable(tdee) == [
      PersonalRange("Conservative", GetPersonalRange(ConservativeSurplusRange, tdee)),
      PersonalRange("Moderate", GetPersonalRange(ModerateSurplusRange, tdee)),
      PersonalRange("Aggressive", GetPersonalRange(AggressiveSurplusRange, tdee))]
  {
  }

  /**
   * With any non-zero TDEE, negative ones included, the table lists the three
   * approaches in order, each with its offsets plus TDEE.
   */
  lemma TableForValidTdee(n: int)
    requires n != 0
    ensures RangeTable(Num(n)) == [
      PersonalRange("Conservative", "[" + IntToString(100 + n) + "," + IntToString(250 + n) + "] kcal"),
      PersonalRange("Moderate", "[" + IntToString(250 + n) + "," + IntToString(500 + n) + "] kcal"),
      PersonalRange("Aggressive", "[" + IntToString(500 + n) + "," + IntToString(750 + n) + "] kcal")]
  {
    ValidTdeeGivesPersonalRange(ConservativeSurplusRange, n);
    ValidTdeeGivesPersonalRange(ModerateSurplusRange, n);
    ValidTdeeGivesPersonalRange(AggressiveSurplusRange, n);
    RangeTableRows(Num(n));
  }

  /** The decimal forms of the three approaches' offsets. */
  lemma PrintedOffsets()
    ensures IntToString(100) == "100" && IntToString(250) == "250"
    ensures IntToString(500) == "500" && IntToString(750) == "750"
  {
    assert NatToString(1) == "1" && NatToString(10) == "10";
    assert NatToString(2) == "2" && NatToString(25) == "25";
    assert NatToString(5) == "5" && NatToString(50) == "50";
    assert NatToString(7) == "7" && NatToString(75) == "75";
  }

  /** The default texts of the three approaches, spelled out. */
  lemma DefaultTexts()
    ensures "TDEE + [" + IntToString(100) + "," + IntToString(250) + "] kcal" == "TDEE + [100,250] kcal"
    ensures "TDEE + [" + IntToString(250) + "," + IntToString(500) + "] kcal" == "TDEE + [250,500] kcal"
    ensures "TDEE + [" + IntToString(500) + "," + IntToString(750) + "] kcal" == "TDEE + [500,750] kcal"
  {
    PrintedOffsets();
  }

  /** With a null, NaN or zero TDEE, every row shows its bare offsets. */
  lemma TableForInvalidTdee(tdee: Tdee)
    requires IsInvalid(tdee)
    ensures RangeTable(tdee) == [
      PersonalRange("Conservative", "TDEE + [100,250] kcal"),
      PersonalRange("Moderate", "TDEE + [250,500] kcal"),
      PersonalRange("Aggressive", "TDEE + [500,750] kcal")]
  {
    InvalidTdeeGivesDefault(ConservativeSurplusRange, tdee);
    InvalidTdeeGivesDefault(ModerateSurplusRange, tdee);
    InvalidTdeeGivesDefault(AggressiveSurplusRange, tdee);
    RangeTableRows(tdee);
    DefaultTexts();
  }

  /** Before any submission every row shows its bare offsets. */
  lemma InitialStateShowsDefaults()
    ensures InitialRangeTable() == [
      PersonalRange("Conservative", "TDEE + [100,250] kcal"),
      PersonalRange("Moderate", "TDEE + [250,500] kcal"),
      PersonalRange("Aggressive", "TDEE + [500,750] kcal")]
  {
    TableForInvalidTdee(Absent);
  }

  /** Entering "2000.7" gives a TDEE of 2000: the fraction is dropped, not rounded to 2001. */
  lemma CleanTdeeDropsFraction()
    ensures CleanTdee(Some("2000.7")) == Num(2000)
  {
    assert IntToString(2000) == "2000" by {
      assert NatToString(2) == "2" && NatToString(20) == "20" && NatToString(200) == "200";
    }
    assert "2000.7" == IntToString(2000) + ".7";
    CleanTdeeTruncates(2000, ".7");
  }

  /** A submitted integer, with or without a trailing fraction, shows the table for that integer. */
  lemma SubmissionUsesIntegerPart(n: int, tail: string)
    requires tail == [] || !IsDigit(tail[0])
    requires n != 0 || tail == [] || (tail[0] != 'x' && tail[0] != 'X')
    ensures HandleRangeCalculatorSubmission(Some(IntToString(n) + tail)) == RangeTable(Num(n))
  {
    CleanTdeeTruncates(n, tail);
  }

  /** Entering "0" is treated like an empty field: every row shows its bare offsets. */
  lemma SubmissionOfZeroShowsDefaults()
    ensures HandleRangeCalculatorSubmission(Some("0")) == InitialRangeTable()
  {
    assert "0" == IntToString(0) + "";
    CleanTdeeTruncates(0, "");
  }
}
