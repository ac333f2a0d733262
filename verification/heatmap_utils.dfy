/**
 * The heatmap classifier: study time in half hours to an intensity bucket, the
 * bucket to its colour classes, and the time as the text a cell shows.
 */
module HeatmapUtils {
  import opened Types
  import opened Text

  /** The keys of the colour table: none, low, medium, high, veryHigh. */
  datatype Intensity = Zero | Low | Medium | High | VeryHigh

  /** The position of a bucket in the order none < low < medium < high < veryHigh. */
  function Rank(i: Intensity): nat {
    match i
    case Zero => 0
    case Low => 1
    case Medium => 2
    case High => 3
    case VeryHigh => 4
  }

  /** Buckets of up to 2, 4 and 6 hours; only exactly no time is "none". */
  function IntensityClass(h: HalfHours): (i: Intensity)
    ensures i == Zero <==> h == 0
    ensures h < 0 ==> i == Low
  {
    if h == 0 then Zero
    else if h <= 4 then Low
    else if h <= 8 then Medium
    else if h <= 12 then High
    else VeryHigh
  }

  /** More time never lands in a lower bucket. */
  lemma IntensityMonotone(a: HalfHours, b: HalfHours)
    requires 0 <= a <= b
    ensures Rank(IntensityClass(a)) <= Rank(IntensityClass(b))
  {
  }

  /** The times each bucket holds. */
  lemma IntensityBuckets(h: HalfHours)
    ensures IntensityClass(h) == Low <==> h != 0 && h <= 4
    ensures IntensityClass(h) == Medium <==> 4 < h <= 8
    ensures IntensityClass(h) == High <==> 8 < h <= 12
    ensures IntensityClass(h) == VeryHigh <==> 12 < h
  {
  }

  /** The colour table. */
  function HeatmapColor(i: Intensity): string {
    match i
    case Zero => "bg-gray-50 border-gray-200 hover:bg-gray-100/80"
    case Low => "bg-emerald-50 border-emerald-200 hover:bg-emerald-100/80"
    case Medium => "bg-emerald-100 border-emerald-300 hover:bg-emerald-200/80"
    case High => "bg-emerald-200 border-emerald-400 hover:bg-emerald-300/80"
    case VeryHigh => "bg-emerald-300 border-emerald-500 hover:bg-emerald-400/80"
  }

  function HeatmapColorClass(h: HalfHours): (c: string)
    ensures |c| > 0
  {
    HeatmapColor(IntensityClass(h))
  }

  /** The characters that tell the colour classes apart: the hover shade, then the palette. */
  lemma ColourMarks(i: Intensity)
    ensures var c := HeatmapColor(i);
      |c| >= 8 && c[|c| - 6] == "11234"[Rank(i)] && c[|c| - 8] == (if i == Zero then 'y' else 'd')
  {
  }

  /** Each bucket has its own colour, so two times share a colour exactly when they share a bucket. */
  lemma ColourIdentifiesBucket(a: HalfHours, b: HalfHours)
    ensures HeatmapColorClass(a) == HeatmapColorClass(b) <==> IntensityClass(a) == IntensityClass(b)
  {
    var i, j := IntensityClass(a), IntensityClass(b);
    ColourMarks(i);
    ColourMarks(j);
  }

  /** The time as a cell shows it: "No study time", "1 hour", "2.5 hours". */
  function FormatHours(h: HalfHours): string {
    if h == 0 then "No study time"
    else if h == 2 then "1 hour"
    else NumberText(h) + " hours"
  }

  /** Reads a text of the form FormatHours produces back into half hours. */
  function ParseFormattedHours(s: string): Option<HalfHours> {
    if s == "No study time" then Some(0)
    else if s == "1 hour" then Some(2)
    else if |s| >= 6 && s[|s| - 6..] == " hours" then ParseNumber(s[..|s| - 6])
    else None
  }

  lemma {:induction false} FormatHoursRoundTrip(h: HalfHours)
    ensures ParseFormattedHours(FormatHours(h)) == Some(h)
  {
    if h != 0 && h != 2 {
      var t := NumberText(h);
      var s := t + " hours";
      NumberTextRoundTrip(h);
      assert s[|s| - 6..] == " hours";
      assert s[..|s| - 6] == t;
      assert t[0] == '-' || IsDigit(t[0]) by {
        if h >= 0 {
          UnsignedRoundTrip(h);
        }
      }
      assert s[0] != 'N';
      assert |s| >= 7;
    }
  }

  /** Different times never read the same. */
  lemma FormatHoursInjective(a: HalfHours, b: HalfHours)
    requires FormatHours(a) == FormatHours(b)
    ensures a == b
  {
    FormatHoursRoundTrip(a);
    FormatHoursRoundTrip(b);
  }

  /** The emoji was dropped; the function keeps its signature and always gives the empty text. */
  function IntensityEmoji(h: HalfHours): (e: string)
    ensures e == ""
  {
    ""
  }
}
