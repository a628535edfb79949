/** The `Browser` enum: the browsers a crawler can drive, each with the display
    string its `toString()` returns. */
module Browsers {

  import opened Common

  /** The four constants, in declaration order. */
  datatype Browser = HtmlUnit | Chrome | Firefox | Remote

  /** Every constant, in declaration order (`Browser.values()`). */
  const AllBrowsers: seq<Browser> := [HtmlUnit, Chrome, Firefox, Remote]

  /** `toString()`: the textual representation fixed by each constant's constructor
      argument. Distinct constants never share a string: the name reads back. */
  function ToString(b: Browser): (s: string)
    ensures FromString(s) == Some(b)
  {
    match b
    case HtmlUnit => "HtmlUnit"
    case Chrome => "Chrome"
    case Firefox => "Firefox"
    case Remote => "Remote"
  }

  /** The constant whose textual representation is `s`, if any: the inverse of
      `ToString`, written as an independent lookup over the display strings. */
  function FromString(s: string): (r: Option<Browser>)
    ensures r.Some? ==> r.value in AllBrowsers
  {
    if s == "HtmlUnit" then Some(HtmlUnit)
    else if s == "Chrome" then Some(Chrome)
    else if s == "Firefox" then Some(Firefox)
    else if s == "Remote" then Some(Remote)
    else None
  }

  /** `ToString` is injective: distinct constants have distinct display strings. */
  lemma ToStringInjective(a: Browser, b: Browser)
    ensures ToString(a) == ToString(b) ==> a == b
  {
    assert FromString(ToString(a)) == Some(a);
    assert FromString(ToString(b)) == Some(b);
  }

  /** There are exactly four constants, all distinct, and every value is one of them. */
  lemma ExactlyFourConstants(b: Browser)
    ensures |AllBrowsers| == 4 && b in AllBrowsers
    ensures forall i, j :: 0 <= i < j < |AllBrowsers| ==> AllBrowsers[i] != AllBrowsers[j]
  {
  }

  /** `FromString` recognises exactly the four display strings. */
  lemma FromStringOnlyDisplayStrings(s: string)
    ensures FromString(s).Some? <==> exists b :: b in AllBrowsers && ToString(b) == s
  {
    if FromString(s).Some? {
      var b := FromString(s).value;
      assert ToString(b) == s;
    }
  }
}
