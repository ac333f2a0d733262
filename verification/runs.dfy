/**
 * Runs of consecutive studied days in a chronological sequence of "studied"
 * flags. These are the reference definitions that the streak computations of
 * the statistics page and of the progress dashboard are proved against.
 */
module Runs {

  function Max(a: nat, b: nat): nat {
    if a >= b then a else b
  }

  /** Every flag in s[i..j] is set. */
  predicate AllTrue(s: seq<bool>, i: int, j: int)
    requires 0 <= i <= j <= |s|
  {
    forall k :: i <= k < j ==> s[k]
  }

  /** s[i..i + n] is a run of n set flags. */
  predicate RunAt(s: seq<bool>, i: int, n: nat) {
    0 <= i && i + n <= |s| && AllTrue(s, i, i + n)
  }

  /** The number of set flags at the end of `s`. */
  function TrailingRun(s: seq<bool>): (r: nat)
    ensures r <= |s|
  {
    if s == [] || !s[|s| - 1] then 0 else TrailingRun(s[..|s| - 1]) + 1
  }

  /** The longest run: the best trailing run over all prefixes of `s`. */
  function LongestRun(s: seq<bool>): (r: nat)
    ensures TrailingRun(s) <= r <= |s|
  {
    if s == [] then 0 else Max(LongestRun(s[..|s| - 1]), TrailingRun(s))
  }

  /** The length of the last run of set flags, however many unset flags follow it. */
  function LastRun(s: seq<bool>): nat {
    if s == [] then 0
    else if s[|s| - 1] then TrailingRun(s)
    else LastRun(s[..|s| - 1])
  }

  /** Appending one flag: the trailing run grows by one or drops to 0, and the longest run keeps up. */
  lemma AppendFlag(s: seq<bool>, b: bool)
    ensures TrailingRun(s + [b]) == (if b then TrailingRun(s) + 1 else 0)
    ensures LongestRun(s + [b]) == Max(LongestRun(s), TrailingRun(s + [b]))
    ensures LastRun(s + [b]) == (if b then TrailingRun(s) + 1 else LastRun(s))
  {
    assert (s + [b])[..|s|] == s;
  }

  lemma {:induction false} TrailingRunIsRun(s: seq<bool>)
    ensures AllTrue(s, |s| - TrailingRun(s), |s|)
    ensures TrailingRun(s) < |s| ==> !s[|s| - 1 - TrailingRun(s)]
  {
    if s != [] && s[|s| - 1] {
      var init := s[..|s| - 1];
      TrailingRunIsRun(init);
      assert forall k :: 0 <= k < |init| ==> init[k] == s[k];
    }
  }

  lemma {:induction false} TrailingRunAtLeast(s: seq<bool>, i: int)
    requires 0 <= i <= |s| && AllTrue(s, i, |s|)
    ensures TrailingRun(s) >= |s| - i
  {
    if i < |s| {
      var init := s[..|s| - 1];
      assert AllTrue(init, i, |init|) by {
        forall k | i <= k < |init| ensures init[k] { assert init[k] == s[k]; }
      }
      TrailingRunAtLeast(init, i);
    }
  }

  /** No run of set flags is longer than LongestRun. */
  lemma {:induction false} LongestRunIsMaximal(s: seq<bool>, i: int, j: int)
    requires 0 <= i <= j <= |s| && AllTrue(s, i, j)
    ensures j - i <= LongestRun(s)
  {
    if j == |s| {
      TrailingRunAtLeast(s, i);
    } else {
      var init := s[..|s| - 1];
      assert AllTrue(init, i, j) by {
        forall k | i <= k < j ensures init[k] { assert init[k] == s[k]; }
      }
      LongestRunIsMaximal(init, i, j);
    }
  }

  /** Some run of set flags is exactly LongestRun long. */
  lemma {:induction false} LongestRunIsAttained(s: seq<bool>)
    ensures exists i :: RunAt(s, i, LongestRun(s))
  {
    if s == [] {
      assert RunAt(s, 0, 0);
    } else if LongestRun(s) == TrailingRun(s) {
      TrailingRunIsRun(s);
      assert RunAt(s, |s| - LongestRun(s), LongestRun(s));
    } else {
      var init := s[..|s| - 1];
      LongestRunIsAttained(init);
      var i :| RunAt(init, i, LongestRun(init));
      assert RunAt(s, i, LongestRun(s)) by {
        forall k | i <= k < i + LongestRun(s) ensures s[k] { assert init[k] == s[k]; }
      }
    }
  }

  /** The last run is one of the runs, so it is never longer than the longest. */
  lemma {:induction false} LastRunAtMostLongest(s: seq<bool>)
    ensures LastRun(s) <= LongestRun(s)
  {
    if s != [] && !s[|s| - 1] {
      LastRunAtMostLongest(s[..|s| - 1]);
    }
  }

  /**
   * With p the position of the last set flag, LastRun is the run that ends at p;
   * with no set flag it is 0.
   */
  lemma {:induction false} LastRunIsRunEndingAtLastSetFlag(s: seq<bool>, p: int)
    requires 0 <= p < |s| && s[p]
    requires forall q :: p < q < |s| ==> !s[q]
    ensures LastRun(s) == TrailingRun(s[..p + 1])
  {
    if p == |s| - 1 {
      assert s[..p + 1] == s;
    } else {
      var init := s[..|s| - 1];
      assert init[..p + 1] == s[..p + 1];
      LastRunIsRunEndingAtLastSetFlag(init, p);
    }
  }

  lemma {:induction false} LastRunWithoutSetFlag(s: seq<bool>)
    requires forall q :: 0 <= q < |s| ==> !s[q]
    ensures LastRun(s) == 0
  {
    if s != [] {
      LastRunWithoutSetFlag(s[..|s| - 1]);
    }
  }

  /** A trailing run of `b` is still a trailing run once something is put before it. */
  lemma {:induction false} TrailingRunOfSuffix(a: seq<bool>, b: seq<bool>)
    ensures TrailingRun(a + b) >= TrailingRun(b)
  {
    TrailingRunIsRun(b);
    var t := TrailingRun(b);
    var s := a + b;
    assert AllTrue(s, |s| - t, |s|) by {
      forall k | |s| - t <= k < |s| ensures s[k] { assert s[k] == b[k - |a|]; }
    }
    TrailingRunAtLeast(s, |s| - t);
  }
}
