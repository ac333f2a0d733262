/**
 * `Object.values` over an object whose keys are integer indices visits the keys
 * in ascending numeric order. This module gives that order for a finite set of
 * integer keys.
 */
module OrderedKeys {

  predicate IsMinimum(k: int, s: set<int>) {
    k in s && forall j :: j in s ==> k <= j
  }

  lemma {:induction false} MinimumExists(s: set<int>)
    requires s != {}
    ensures exists k :: IsMinimum(k, s)
    decreases |s|
  {
    if forall y :: y !in s {
      assert false;
    }
    var x :| x in s;
    if s != {x} {
      MinimumExists(s - {x});
      var k :| IsMinimum(k, s - {x});
      var m := if x < k then x else k;
      forall j | j in s
        ensures m <= j
      {
        if j != x {
          assert j in s - {x};
        }
      }
      assert IsMinimum(m, s);
    } else {
      assert IsMinimum(x, s);
    }
  }

  /** The keys of `s` in ascending order, each exactly once. */
  function Ascending(s: set<int>): (r: seq<int>)
    ensures |r| == |s|
    ensures forall k :: k in r <==> k in s
    ensures forall i, j :: 0 <= i < j < |r| ==> r[i] < r[j]
    decreases |s|
  {
    if s == {} then []
    else
      MinimumExists(s);
      var k :| IsMinimum(k, s);
      [k] + Ascending(s - {k})
  }
}
