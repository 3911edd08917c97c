/**
 * The JavaScript `slice(start, end)` of strings and arrays, for the non-negative
 * arguments the keyboard uses: both bounds are clamped to the length, and an
 * empty result comes back when the clamped end does not lie after the start.
 */
module JsSlice {

  function Min(a: nat, b: nat): nat { if a <= b then a else b }

  /** `s.slice(start, end)` */
  function Slice<T>(s: seq<T>, start: nat, end: nat): (r: seq<T>)
    ensures start <= end <= |s| ==> r == s[start..end]
    ensures |r| <= |s|
    ensures start <= end ==> |r| == Min(end, |s|) - Min(start, |s|)
    ensures start <= |s| <= end ==> r == s[start..]
    ensures end <= start ==> r == []
  {
    var from := Min(start, |s|);
    var to := Min(end, |s|);
    if from <= to then s[from..to] else []
  }

  /** `s.slice(start)`: everything from `start` on. */
  function SliceFrom<T>(s: seq<T>, start: nat): (r: seq<T>)
    ensures start <= |s| ==> r == s[start..]
    ensures start >= |s| ==> r == []
  {
    Slice(s, start, |s|)
  }

}
