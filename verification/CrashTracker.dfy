/**
 * The crash times of one strategy. Pruning compacts the backing array where it stands; a mere count
 * does so too but keeps the old length, so stale entries can be counted again.
 */
module CrashTracker {

  /** The entries not before `cutoff`, in order. */
  function InWindow(s: seq<int>, cutoff: int): (r: seq<int>)
    ensures |r| <= |s|
    ensures forall i :: 0 <= i < |r| ==> r[i] >= cutoff
  {
    if s == [] then [] else
      InWindow(s[..|s| - 1], cutoff) + if s[|s| - 1] >= cutoff then [s[|s| - 1]] else []
  }

  /** What pruneCrashTimes returns. */
  function PruneTimes(s: seq<int>, window: int, now: int): (r: seq<int>)
    ensures |r| <= |s|
  {
    if window <= 0 then s else InWindow(s, now - window)
  }

  /** What the shared backing array then holds under the unshortened length. */
  function ScanTimes(s: seq<int>, window: int, now: int): (r: seq<int>)
    ensures |r| == |s|
  {
    var kept := PruneTimes(s, window, now);
    kept + s[|kept|..]
  }

  /** `visible` counts at least as many entries as `recorded` from every cutoff on. */
  ghost predicate Tracks(visible: seq<int>, recorded: seq<int>, from: int) {
    && |visible| <= |recorded|
    && forall c :: c >= from ==> |InWindow(recorded, c)| <= |InWindow(visible, c)|
  }

  ghost predicate Exact(visible: seq<int>, recorded: seq<int>, from: int) {
    forall c :: c >= from ==> InWindow(visible, c) == InWindow(recorded, c)
  }

  lemma {:induction false} InWindowConcat(a: seq<int>, b: seq<int>, c: int)
    ensures InWindow(a + b, c) == InWindow(a, c) + InWindow(b, c)
  {
    if b == [] {
      assert a + b == a;
    } else {
      InWindowConcat(a, b[..|b| - 1], c);
      assert (a + b)[..|a + b| - 1] == a + b[..|b| - 1];
    }
  }

  lemma {:induction false} InWindowTwice(s: seq<int>, c1: int, c2: int)
    requires c1 <= c2
    ensures InWindow(InWindow(s, c1), c2) == InWindow(s, c2)
  {
    if s != [] {
      var s', x := s[..|s| - 1], s[|s| - 1];
      InWindowTwice(s', c1, c2);
      InWindowConcat(InWindow(s', c1), if x >= c1 then [x] else [], c2);
    }
  }

  lemma {:induction false} InWindowAntitone(s: seq<int>, c1: int, c2: int)
    requires c1 <= c2
    ensures |InWindow(s, c2)| <= |InWindow(s, c1)|
  {
    InWindowTwice(s, c1, c2);
  }

  /** A suffix wholly inside the window is counted in full. */
  lemma {:induction false} SuffixCounted(s: seq<int>, i: nat, c: int)
    requires i <= |s| && forall k :: i <= k < |s| ==> s[k] >= c
    ensures |InWindow(s, c)| >= |s| - i
  {
    if i < |s| {
      SuffixCounted(s[..|s| - 1], i, c);
    }
  }

  lemma RecordTracks(visible: seq<int>, recorded: seq<int>, from: int, at: int)
    requires Tracks(visible, recorded, from)
    ensures Tracks(visible + [at], recorded + [at], from)
    ensures Exact(visible, recorded, from) ==> Exact(visible + [at], recorded + [at], from)
  {
    forall c | c >= from
      ensures |InWindow(recorded + [at], c)| <= |InWindow(visible + [at], c)|
      ensures Exact(visible, recorded, from) ==> InWindow(visible + [at], c) == InWindow(recorded + [at], c)
    {
      InWindowConcat(visible, [at], c);
      InWindowConcat(recorded, [at], c);
    }
  }

  lemma PruneKeepsLive(visible: seq<int>, window: int, now: int, c: int)
    requires c >= now - window
    ensures InWindow(PruneTimes(visible, window, now), c) == InWindow(visible, c)
  {
    var kept := PruneTimes(visible, window, now);
    if window > 0 {
      assert kept == InWindow(visible, now - window);
      InWindowTwice(visible, now - window, c);
    } else {
      assert kept == visible;
    }
  }

  lemma PruneTracks(visible: seq<int>, recorded: seq<int>, from: int, window: int, now: int)
    requires Tracks(visible, recorded, from) && from <= now - window
    ensures Tracks(PruneTimes(visible, window, now), recorded, now - window)
    ensures Exact(visible, recorded, from) ==> Exact(PruneTimes(visible, window, now), recorded, now - window)
  {
    var pruned := PruneTimes(visible, window, now);
    forall c | c >= now - window
      ensures |InWindow(recorded, c)| <= |InWindow(pruned, c)|
      ensures Exact(visible, recorded, from) ==> InWindow(pruned, c) == InWindow(recorded, c)
    {
      PruneKeepsLive(visible, window, now, c);
    }
  }

  /** A count can only add stale entries: no cutoff loses any. */
  lemma ScanTracks(visible: seq<int>, recorded: seq<int>, from: int, window: int, now: int)
    requires Tracks(visible, recorded, from) && from <= now - window
    ensures Tracks(ScanTimes(visible, window, now), recorded, now - window)
  {
    PruneTracks(visible, recorded, from, window, now);
    var kept := PruneTimes(visible, window, now);
    forall c | c >= now - window
      ensures |InWindow(recorded, c)| <= |InWindow(ScanTimes(visible, window, now), c)|
    {
      InWindowConcat(kept, visible[|kept|..], c);
    }
  }

  /** Any count is at least the number of recorded crashes in the window and at most all of them. */
  lemma CountBounds(visible: seq<int>, recorded: seq<int>, from: int, window: int, now: int)
    requires Tracks(visible, recorded, from) && from <= now - window
    ensures |InWindow(recorded, now - window)| <= |PruneTimes(visible, window, now)| <= |recorded|
  {
    assert |InWindow(recorded, now - window)| <= |InWindow(visible, now - window)|;
  }

  /** A count of exact records is exact, and leaves them exact if it drops nothing. */
  lemma ExactScan(visible: seq<int>, recorded: seq<int>, from: int, window: int, now: int)
    requires Tracks(visible, recorded, from) && Exact(visible, recorded, from) && from <= now - window
    ensures window > 0 ==> |PruneTimes(visible, window, now)| == |InWindow(recorded, now - window)|
    ensures |PruneTimes(visible, window, now)| == |visible| ==> Exact(ScanTimes(visible, window, now), recorded, now - window)
  {
    PruneTracks(visible, recorded, from, window, now);
    var kept := PruneTimes(visible, window, now);
    if |kept| == |visible| { assert kept + visible[|kept|..] == kept; }
  }

  // ---------------------------------------------------------------- counting twice

  predicate AllLive(s: seq<int>, c: int) {
    forall k :: 0 <= k < |s| ==> s[k] >= c
  }

  predicate NoneLive(s: seq<int>, c: int) {
    forall k :: 0 <= k < |s| ==> s[k] < c
  }

  lemma {:induction false} AllInWindow(s: seq<int>, c: int)
    ensures |InWindow(s, c)| == |s| <==> AllLive(s, c)
    ensures AllLive(s, c) ==> InWindow(s, c) == s
  {
    if s != [] {
      var s' := s[..|s| - 1];
      AllInWindow(s', c);
      assert s == s' + [s[|s| - 1]];
      assert AllLive(s, c) <==> AllLive(s', c) && s[|s| - 1] >= c;
    }
  }

  lemma {:induction false} NoneInWindow(s: seq<int>, c: int)
    ensures InWindow(s, c) == [] <==> NoneLive(s, c)
  {
    if s != [] {
      var s' := s[..|s| - 1];
      NoneInWindow(s', c);
      assert NoneLive(s, c) <==> NoneLive(s', c) && s[|s| - 1] < c;
    }
  }

  /** What a second count at the same moment finds. */
  function CountAgain(s: seq<int>, window: int, now: int): nat {
    |PruneTimes(ScanTimes(s, window, now), window, now)|
  }

  lemma KeptCountAgain(kept: seq<int>, rest: seq<int>, c: int)
    requires InWindow(kept, c) == kept
    ensures |InWindow(kept + rest, c)| == |kept| + |InWindow(rest, c)|
  {
    InWindowConcat(kept, rest, c);
  }

  /** Besides the live entries it counts those still standing behind the compacted ones. */
  lemma SecondCount(s: seq<int>, window: int, now: int)
    requires window > 0
    ensures var k := |PruneTimes(s, window, now)|; CountAgain(s, window, now) == k + |InWindow(s[k..], now - window)|
  {
    var kept := PruneTimes(s, window, now);
    InWindowTwice(s, now - window, now - window);
    KeptCountAgain(kept, s[|kept|..], now - window);
  }

  /** No expired entry stands before a live one. */
  predicate LiveFirst(s: seq<int>, c: int) {
    forall i, j :: 0 <= i < j < |s| && s[i] < c ==> s[j] < c
  }

  lemma {:induction false} LiveFirstKept(s: seq<int>, c: int)
    requires LiveFirst(s, c)
    ensures InWindow(s, c) == s[..|InWindow(s, c)|]
  {
    if s != [] {
      var s' := s[..|s| - 1];
      if s[|s| - 1] >= c {
        assert AllLive(s, c);
        AllInWindow(s, c);
      } else {
        LiveFirstKept(s', c);
        assert s'[..|InWindow(s', c)|] == s[..|InWindow(s', c)|];
      }
    }
  }

  lemma SplitLiveFirst(s: seq<int>, k: nat, c: int)
    requires k <= |s| && AllLive(s[..k], c) && NoneLive(s[k..], c)
    ensures LiveFirst(s, c)
  {
    forall i, j | 0 <= i < j < |s| ensures s[i] < c ==> s[j] < c {
      if i < k {
        assert s[..k][i] >= c;
      } else {
        assert s[k..][j - k] < c;
      }
    }
  }

  lemma NothingLeftBehind(s: seq<int>, c: int)
    ensures InWindow(s[|InWindow(s, c)|..], c) == [] <==> LiveFirst(s, c)
  {
    var k := |InWindow(s, c)|;
    assert s == s[..k] + s[k..];
    InWindowConcat(s[..k], s[k..], c);
    if LiveFirst(s, c) {
      LiveFirstKept(s, c);
      InWindowTwice(s, c, c);
    } else if InWindow(s[k..], c) == [] {
      NoneInWindow(s[k..], c);
      AllInWindow(s[..k], c);
      SplitLiveFirst(s, k, c);
    }
  }

  lemma LeftBehind(s: seq<int>, window: int, now: int)
    requires window > 0
    ensures |InWindow(s[|PruneTimes(s, window, now)|..], now - window)| == 0 <==> LiveFirst(s, now - window)
  {
    assert PruneTimes(s, window, now) == InWindow(s, now - window);
    NothingLeftBehind(s, now - window);
  }

  /**
   * Two counts in a row agree exactly when no expired entry stands before a live one; otherwise the
   * second is too high.
   */
  lemma SecondCountIff(s: seq<int>, window: int, now: int)
    requires window > 0
    ensures CountAgain(s, window, now) >= |PruneTimes(s, window, now)|
    ensures CountAgain(s, window, now) == |PruneTimes(s, window, now)| <==> LiveFirst(s, now - window)
  {
    SecondCount(s, window, now);
    LeftBehind(s, window, now);
  }

  predicate Ascending(s: seq<int>) {
    forall i, j :: 0 <= i < j < |s| ==> s[i] <= s[j]
  }

  /** The live entries are those from `m` on. */
  predicate LiveFrom(s: seq<int>, m: nat, c: int) {
    m <= |s| && forall i :: 0 <= i < |s| ==> (s[i] >= c <==> i >= m)
  }

  lemma LiveLast(s: seq<int>, m: nat, c: int)
    requires LiveFrom(s, m, c)
    ensures |InWindow(s, c)| == |s| - m
  {
    assert s == s[..m] + s[m..];
    InWindowConcat(s[..m], s[m..], c);
    NoneInWindow(s[..m], c);
    AllInWindow(s[m..], c);
  }

  lemma {:induction false} FirstLive(s: seq<int>, c: int) returns (m: nat)
    requires Ascending(s)
    ensures LiveFrom(s, m, c)
  {
    if s == [] || s[|s| - 1] < c {
      m := |s|;
    } else {
      m := FirstLive(s[..|s| - 1], c);
    }
  }

  /** Of the live ones, those from position `k` on, where `k` is their own number. */
  lemma LiveBehind(s: seq<int>, m: nat, c: int)
    requires LiveFrom(s, m, c)
    ensures |InWindow(s[|s| - m..], c)| == if |s| - m <= m then |s| - m else m
  {
    var k := |s| - m;
    var m' := if k <= m then m - k else 0;
    assert LiveFrom(s[k..], m', c);
    LiveLast(s[k..], m', c);
  }

  lemma SplitEnds(s: seq<int>, m: nat, c: int)
    requires LiveFrom(s, m, c)
    ensures m == 0 || m == |s| <==> s == [] || s[0] >= c || s[|s| - 1] < c
  {
  }

  /**
   * On an array in time order: with `k` of its `n` entries live the second count is
   * `k + min(k, n - k)`, and agrees with the first exactly when nothing or everything has expired.
   */
  lemma SecondCountAscending(s: seq<int>, window: int, now: int)
    requires window > 0 && Ascending(s)
    ensures var first, second := |PruneTimes(s, window, now)|, CountAgain(s, window, now);
      && second == first + (if first <= |s| - first then first else |s| - first)
      && (second == first <==> s == [] || s[0] >= now - window || s[|s| - 1] < now - window)
  {
    assert PruneTimes(s, window, now) == InWindow(s, now - window);
    var m := FirstLive(s, now - window);
    LiveLast(s, m, now - window);
    LiveBehind(s, m, now - window);
    SecondCount(s, window, now);
    SplitEnds(s, m, now - window);
  }

  /** What the loop leaves in the array is what the specification of a count says. */
  lemma Compacted(was: seq<int>, window: int, now: int, after: seq<int>)
    requires window > 0 && |after| == |was|
    requires var m := |InWindow(was, now - window)|;
      after[..m] == InWindow(was, now - window) && forall k :: m <= k < |was| ==> after[k] == was[k]
    ensures after[..|PruneTimes(was, window, now)|] == PruneTimes(was, window, now)
    ensures after == ScanTimes(was, window, now)
  {
    assert PruneTimes(was, window, now) == InWindow(was, now - window);
    var m := |InWindow(was, now - window)|;
    assert after == after[..m] + was[m..];
  }

  /** pruneCrashTimes on the backing array: overwrites the first `n` slots, returns the new length. */
  method PruneInPlace(times: array<int>, n: nat, window: int, now: int) returns (m: nat)
    requires n <= times.Length
    modifies times
    ensures m == |PruneTimes(old(times[..n]), window, now)| <= n
    ensures times[..m] == PruneTimes(old(times[..n]), window, now)
    ensures times[..n] == ScanTimes(old(times[..n]), window, now)
  {
    if window <= 0 || n == 0 { return n; }
    var cutoff := now - window;
    ghost var was := times[..n];
    m := 0;
    for i := 0 to n
      invariant m <= i && times[..m] == InWindow(was[..i], cutoff)
      invariant forall k :: m <= k < n ==> times[k] == was[k]
    {
      assert was[..i + 1][..i] == was[..i];
      assert times[i] == was[i];
      if times[i] >= cutoff {
        times[m] := times[i];
        m := m + 1;
      }
    }
    assert was[..n] == was;
    ghost var after := times[..n];
    assert after[..m] == times[..m];
    Compacted(was, window, now, after);
  }

  class Tracker {
    var times: array<int>
    var len: nat
    const window: int
    /** Every crash ever recorded, and the latest time seen. */
    ghost var recorded: seq<int>
    ghost var clock: int
    /** No count has met an expired entry so far. */
    ghost var exact: bool

    constructor (window: int)
      ensures Valid() && fresh(times) && recorded == [] && this.window == window
    {
      this.window := window;
      times := new int[0];
      len, recorded, clock, exact := 0, [], 0, true;
    }

    ghost predicate Valid()
      reads this, times
    {
      && len <= times.Length
      && Tracks(times[..len], recorded, clock - window)
      && (exact ==> Exact(times[..len], recorded, clock - window))
    }

    method Record(at: int)
      requires Valid()
      modifies this, times
      ensures Valid() && (times == old(times) || fresh(times))
      ensures recorded == old(recorded) + [at] && clock == old(clock) && exact == old(exact)
      ensures times[..len] == old(times[..len]) + [at]
    {
      ghost var was := times[..len];
      if len == times.Length { Grow(); }
      times[len] := at;
      len := len + 1;
      recorded := recorded + [at];
      assert times[..len] == was + [at];
      RecordTracks(was, old(recorded), clock - window, at);
    }

    method Grow()
      requires len == times.Length
      modifies this`times
      ensures fresh(times) && times.Length > len == old(len) && times[..len] == old(times[..len])
    {
      var bigger := new int[2 * times.Length + 1];
      for i := 0 to len
        invariant times == old(times)
        invariant forall k :: 0 <= k < i ==> bigger[k] == times[k]
      {
        bigger[i] := times[i];
      }
      times := bigger;
    }

    method PruneAndCount(now: int) returns (count: nat)
      requires Valid() && now >= clock
      modifies this, times
      ensures Valid() && times == old(times) && clock == now && recorded == old(recorded) && exact == old(exact)
      ensures times[..len] == PruneTimes(old(times[..len]), window, now) && count == len
      ensures |InWindow(recorded, now - window)| <= count <= |recorded|
      ensures exact && window > 0 ==> count == |InWindow(recorded, now - window)|
    {
      ghost var was := times[..len];
      len := PruneInPlace(times, len, window, now);
      PruneTracks(was, recorded, clock - window, window, now);
      CountBounds(was, recorded, clock - window, window, now);
      clock := now;
      count := len;
    }

    method CountInWindow(now: int) returns (count: nat)
      requires Valid() && now >= clock
      modifies this, times
      ensures Valid() && times == old(times) && len == old(len) && clock == now && recorded == old(recorded)
      ensures times[..len] == ScanTimes(old(times[..len]), window, now)
      ensures count == |PruneTimes(old(times[..len]), window, now)|
      ensures exact <==> old(exact) && count == len
      ensures |InWindow(recorded, now - window)| <= count <= |recorded|
      ensures old(exact) && window > 0 ==> count == |InWindow(recorded, now - window)|
    {
      ghost var was := times[..len];
      count := PruneInPlace(times, len, window, now);
      ScanTracks(was, recorded, clock - window, window, now);
      CountBounds(was, recorded, clock - window, window, now);
      if exact { ExactScan(was, recorded, clock - window, window, now); }
      exact := exact && count == len;
      clock := now;
    }
  }
}
