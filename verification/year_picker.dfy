/**
 * The year picker: a page of up to sixteen years starting at the decade of the
 * view year, clipped to the offered range, paged sixteen years at a time.
 */
module YearPicker {

  /** `Math.floor(y / 10) * 10`: Dafny's division rounds down for a positive divisor. */
  function DecadeStart(y: int): (r: int)
    ensures r <= y < r + 10 && r % 10 == 0
  {
    (y / 10) * 10
  }

  /** Offered on the page of `viewYear`: within its sixteen years and within the range. */
  predicate InView(year: int, viewYear: int, startYear: int, endYear: int) {
    var decade := DecadeStart(viewYear);
    decade <= year <= decade + 15 && startYear <= year <= endYear
  }

  /** The years `first .. first + n - 1` that lie in `[lo, hi]`, in order. */
  function Window(first: int, n: nat, lo: int, hi: int): seq<int> {
    if n == 0 then []
    else
      var year := first + n - 1;
      Window(first, n - 1, lo, hi) + (if lo <= year <= hi then [year] else [])
  }

  function YearsInView(viewYear: int, startYear: int, endYear: int): seq<int> {
    Window(DecadeStart(viewYear), 16, startYear, endYear)
  }

  lemma {:induction false} WindowProperties(first: int, n: nat, lo: int, hi: int)
    ensures var w := Window(first, n, lo, hi);
      && |w| <= n
      && (forall i :: 0 <= i < |w| ==> first <= w[i] < first + n && lo <= w[i] <= hi)
      && (forall i, j :: 0 <= i < j < |w| ==> w[i] < w[j])
      && (forall year :: first <= year < first + n && lo <= year <= hi ==> year in w)
  {
    if n > 0 {
      WindowProperties(first, n - 1, lo, hi);
    }
  }

  /**
   * The page lists at most sixteen years, in increasing order, each on the page
   * and in range, and every such year is listed.
   */
  lemma YearsInViewExact(viewYear: int, startYear: int, endYear: int)
    ensures var ys := YearsInView(viewYear, startYear, endYear);
      && |ys| <= 16
      && (forall i, j :: 0 <= i < j < |ys| ==> ys[i] < ys[j])
      && (forall year :: year in ys <==> InView(year, viewYear, startYear, endYear))
  {
    WindowProperties(DecadeStart(viewYear), 16, startYear, endYear);
  }

  /** A page entirely below the range lists nothing. */
  lemma PageBelowRangeIsEmpty(viewYear: int, startYear: int, endYear: int)
    requires DecadeStart(viewYear) + 15 < startYear
    ensures YearsInView(viewYear, startYear, endYear) == []
  {
    WindowBelowRange(DecadeStart(viewYear), 16, startYear, endYear);
  }

  lemma {:induction false} WindowBelowRange(first: int, n: nat, lo: int, hi: int)
    requires first + n <= lo
    ensures Window(first, n, lo, hi) == []
  {
    if n > 0 {
      WindowBelowRange(first, n - 1, lo, hi);
    }
  }

  function PreviousYears(viewYear: int, startYear: int): (r: int)
    ensures r >= startYear
    ensures r == viewYear - 16 || r == startYear
  {
    if viewYear - 16 > startYear then viewYear - 16 else startYear
  }

  function NextYears(viewYear: int, endYear: int): (r: int)
    ensures r <= endYear - 15
    ensures r == viewYear + 16 || r == endYear - 15
  {
    if viewYear + 16 < endYear - 15 then viewYear + 16 else endYear - 15
  }

  predicate PrevDisabled(viewYear: int, startYear: int) {
    viewYear <= startYear
  }

  predicate NextDisabled(viewYear: int, endYear: int) {
    viewYear + 16 > endYear
  }

  /** An enabled arrow always moves the view year in its own direction. */
  lemma EnabledArrowsMove(viewYear: int, startYear: int, endYear: int)
    ensures !PrevDisabled(viewYear, startYear) ==> startYear <= PreviousYears(viewYear, startYear) < viewYear
    ensures !NextDisabled(viewYear, endYear) ==> viewYear < NextYears(viewYear, endYear) <= endYear - 15
  {
  }

  /** The forward step can move the view year back: it would from 2040 with the range ending at 2046. */
  lemma NextYearsCanMoveBack()
    ensures NextYears(2040, 2046) == 2031 && NextDisabled(2040, 2046)
  {
  }

  class YearPicker {
    var viewYear: int

    constructor(selectedYear: int)
      ensures viewYear == DecadeStart(selectedYear)
    {
      viewYear := (selectedYear / 10) * 10;
    }

    /** The pass over the sixteen years of the page, keeping those in range. */
    method GetYearsInView(startYear: int, endYear: int) returns (years: seq<int>)
      ensures years == YearsInView(viewYear, startYear, endYear)
    {
      years := [];
      var startDecade := (viewYear / 10) * 10;
      for i := 0 to 16
        invariant years == Window(startDecade, i, startYear, endYear)
      {
        var year := startDecade + i;
        if year >= startYear && year <= endYear {
          years := years + [year];
        }
      }
    }

    method GoToPreviousYears(startYear: int)
      modifies this
      ensures viewYear == PreviousYears(old(viewYear), startYear)
    {
      viewYear := if viewYear - 16 > startYear then viewYear - 16 else startYear;
    }

    method GoToNextYears(endYear: int)
      modifies this
      ensures viewYear == NextYears(old(viewYear), endYear)
    {
      viewYear := if viewYear + 16 < endYear - 15 then viewYear + 16 else endYear - 15;
    }

    /** A click on the `i`-th year of the page reports that year, which lies in the range. */
    method PickYear(startYear: int, endYear: int, i: int) returns (year: int)
      requires 0 <= i < |YearsInView(viewYear, startYear, endYear)|
      ensures startYear <= year <= endYear
      ensures InView(year, viewYear, startYear, endYear)
    {
      var years := GetYearsInView(startYear, endYear);
      year := years[i];
      assert year in years;
      YearsInViewExact(viewYear, startYear, endYear);
    }
  }
}
