/**
 * How JavaScript turns an array of integers into text: `Array.prototype.toString`
 * (which `"..." + array` calls) prints each element with `String` and joins
 * them with a comma and no space.  `ParseList` reads such text back.
 */
module JsArray {
  import opened Wrappers
  import opened JsNumber

  /** `xs.toString()` for an array of integer-valued numbers: `[100,250]` prints as `100,250`. */
  function ArrayToString(xs: seq<int>): (s: string)
    ensures s == [] <==> xs == []
  {
    if |xs| == 0 then ""
    else if |xs| == 1 then IntToString(xs[0])
    else IntToString(xs[0]) + "," + ArrayToString(xs[1..])
  }

  /** The index of the first comma in `s`, or `|s|` when there is none. */
  function FieldEnd(s: string): (i: nat)
    ensures i <= |s|
    ensures forall j | 0 <= j < i :: s[j] != ','
    ensures i < |s| ==> s[i] == ','
  {
    if s == [] || s[0] == ',' then 0 else 1 + FieldEnd(s[1..])
  }

  /** Reads the comma-separated decimal integers of a non-empty string. */
  function ParseFields(s: string): Option<seq<int>>
    decreases |s|
  {
    var i := FieldEnd(s);
    match ParseDecimal(s[..i])
    case None => None
    case Some(n) =>
      if i == |s| then Some([n])
      else match ParseFields(s[i + 1..])
        case None => None
        case Some(ns) => Some([n] + ns)
  }

  /** Reads text printed by `ArrayToString`; the empty string is the empty array. */
  function ParseList(s: string): Option<seq<int>>
  {
    if s == [] then Some([]) else ParseFields(s)
  }

  lemma IntToStringHasNoComma(n: int)
    ensures forall j | 0 <= j < |IntToString(n)| :: IntToString(n)[j] != ','
  {
  }

  /** The first field of printed text is the first element's printed form. */
  lemma FieldEndOfPrefix(a: string, rest: string)
    requires forall j | 0 <= j < |a| :: a[j] != ','
    ensures FieldEnd(a + "," + rest) == |a|
  {
    var s := a + "," + rest;
    assert s[|a|] == ',';
    assert forall j | 0 <= j < |a| :: s[j] == a[j];
  }

  /** Printing an array of integers and reading it back gives the array. */
  lemma {:induction false} ParseListOfArrayToString(xs: seq<int>)
    ensures ParseList(ArrayToString(xs)) == Some(xs)
  {
    if |xs| > 0 {
      ParseFieldsOfArrayToString(xs);
    }
  }

  lemma {:induction false} ParseFieldsOfArrayToString(xs: seq<int>)
    requires |xs| > 0
    ensures ParseFields(ArrayToString(xs)) == Some(xs)
  {
    var a := IntToString(xs[0]);
    IntToStringHasNoComma(xs[0]);
    ParseDecimalOfIntToString(xs[0]);
    if |xs| == 1 {
      assert ArrayToString(xs) == a;
      assert FieldEnd(a) == |a|;
      assert a[..|a|] == a;
      assert xs == [xs[0]];
    } else {
      var rest := ArrayToString(xs[1..]);
      var s := a + "," + rest;
      assert ArrayToString(xs) == s;
      FieldEndOfPrefix(a, rest);
      assert s[..|a|] == a;
      assert s[|a| + 1..] == rest;
      ParseFieldsOfArrayToString(xs[1..]);
      assert [xs[0]] + xs[1..] == xs;
    }
  }
}
