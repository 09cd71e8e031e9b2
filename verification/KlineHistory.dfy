/**
 * The closed K-line buffers, one per (contract, interval): a window on the newest bars of an
 * unbounded last-write-wins history.
 */
module KlineHistory {
  import opened Sets
  import opened Wrappers

  const DEFAULT_MAX := 2000

  datatype Key = Key(contract: string, interval: string)

  datatype Bar = Bar(ts: int, interval: string, ohlcv: seq<string>, closed: bool)

  datatype Series = Series(contract: string, bars: seq<Option<Bar>>)

  /** One bar written to one buffer. */
  datatype Write = Write(key: Key, bar: Bar)

  // ---------------------------------------------------------------- order

  predicate Increasing(s: seq<Bar>) {
    forall i, j :: 0 <= i < j < |s| ==> s[i].ts < s[j].ts
  }

  predicate Ascending(s: seq<Bar>) {
    forall i, j :: 0 <= i < j < |s| ==> s[i].ts <= s[j].ts
  }

  ghost predicate HasTime(s: seq<Bar>, t: int) {
    exists i :: 0 <= i < |s| && s[i].ts == t
  }

  function Suffix(s: seq<Bar>, n: nat): seq<Bar> {
    if |s| <= n then s else s[|s| - n..]
  }

  // ---------------------------------------------------------------- the unbounded history

  /** The last bar written for each timestamp of one key. */
  function LastWrites(log: seq<Write>, key: Key): map<int, Bar> {
    if log == [] then map[] else
      var older := LastWrites(log[..|log| - 1], key);
      var w := log[|log| - 1];
      if w.key == key then older[w.bar.ts := w.bar] else older
  }

  lemma LastWritesStep(log: seq<Write>, w: Write)
    ensures forall key :: key != w.key ==> LastWrites(log + [w], key) == LastWrites(log, key)
    ensures LastWrites(log + [w], w.key) == LastWrites(log, w.key)[w.bar.ts := w.bar]
  {
    assert (log + [w])[..|log|] == log;
  }

  /**
   * `s` is strictly increasing, holds only bars of `all`, and every bar of `all` it lacks is older
   * than its `n` newest ones.
   */
  ghost predicate Covers(s: seq<Bar>, all: map<int, Bar>, n: nat) {
    && Increasing(s)
    && (forall i :: 0 <= i < |s| ==> s[i].ts in all && all[s[i].ts] == s[i])
    && (forall t {:trigger HasTime(s, t)} :: t in all && !HasTime(s, t) ==> |s| >= n > 0 && t < s[|s| - n].ts)
  }

  /** `s` is the `n` newest bars of `all`, oldest first. */
  ghost predicate NewestOf(s: seq<Bar>, all: map<int, Bar>, n: nat) {
    Covers(s, all, n) && |s| <= n
  }

  lemma TimesButLast(s: seq<Bar>, t: int)
    requires Increasing(s) && s != []
    ensures HasTime(s[..|s| - 1], t) <==> HasTime(s, t) && t != s[|s| - 1].ts
  {
    var s' := s[..|s| - 1];
    if HasTime(s, t) && t != s[|s| - 1].ts {
      var i :| 0 <= i < |s| && s[i].ts == t;
      assert s'[i].ts == t;
    }
  }

  lemma {:induction false} SameTimes(a: seq<Bar>, b: seq<Bar>, all: map<int, Bar>)
    requires Increasing(a) && Increasing(b)
    requires forall t :: HasTime(a, t) <==> HasTime(b, t)
    requires forall i :: 0 <= i < |a| ==> a[i].ts in all && all[a[i].ts] == a[i]
    requires forall i :: 0 <= i < |b| ==> b[i].ts in all && all[b[i].ts] == b[i]
    ensures a == b
  {
    if a == [] || b == [] {
      if a != [] { assert HasTime(a, a[0].ts); }
      if b != [] { assert HasTime(b, b[0].ts); }
    } else {
      var x, y := a[|a| - 1], b[|b| - 1];
      assert HasTime(a, x.ts) && HasTime(b, y.ts);
      assert x == y;
      var a', b' := a[..|a| - 1], b[..|b| - 1];
      forall t ensures HasTime(a', t) <==> HasTime(b', t) {
        TimesButLast(a, t);
        TimesButLast(b, t);
      }
      SameTimes(a', b', all);
      assert a == a' + [x] && b == b' + [y];
    }
  }

  /** The window of a history is unique: the predicate fixes the buffer. */
  lemma NewestUnique(a: seq<Bar>, b: seq<Bar>, all: map<int, Bar>, n: nat)
    requires NewestOf(a, all, n) && NewestOf(b, all, n)
    ensures a == b
  {
    NewestContained(a, b, all, n);
    NewestContained(b, a, all, n);
    SameTimes(a, b, all);
  }

  lemma NewestContained(a: seq<Bar>, b: seq<Bar>, all: map<int, Bar>, n: nat)
    requires NewestOf(a, all, n) && NewestOf(b, all, n)
    ensures forall t :: HasTime(a, t) ==> HasTime(b, t)
  {
    forall t | HasTime(a, t) ensures HasTime(b, t) {
      var i :| 0 <= i < |a| && a[i].ts == t;
      if !HasTime(b, t) {
        // b is full and newer than t, so all its n bars would follow position i of a
        assert |b| == n && t < b[0].ts;
        assert a[0].ts <= a[i].ts;
        forall u | HasTime(b, u) ensures HasTime(a[i + 1..], u) {
          var m :| 0 <= m < |b| && b[m].ts == u;
          assert b[0].ts <= b[m].ts;
          assert HasTime(a, u);
          var j :| 0 <= j < |a| && a[j].ts == u;
          assert i < j;
          assert a[i + 1..][j - i - 1].ts == u;
        }
        Embedded(b, a[i + 1..]);
      }
    }
  }

  /** A strictly increasing buffer is no longer than one that has all its timestamps. */
  lemma {:induction false} Embedded(b: seq<Bar>, c: seq<Bar>)
    requires Increasing(b) && Increasing(c)
    requires forall t :: HasTime(b, t) ==> HasTime(c, t)
    ensures |b| <= |c|
  {
    if b != [] {
      var y := b[|b| - 1];
      assert HasTime(b, y.ts);
      var j :| 0 <= j < |c| && c[j].ts == y.ts;
      var b' := b[..|b| - 1];
      forall t | HasTime(b', t) ensures HasTime(c[..j], t) {
        var m :| 0 <= m < |b'| && b'[m].ts == t;
        assert b[m].ts == t < y.ts;
        assert HasTime(b, t);
        var k :| 0 <= k < |c| && c[k].ts == t;
        assert k < j;
        assert c[..j][k].ts == t;
      }
      Embedded(b', c[..j]);
    }
  }

  // ---------------------------------------------------------------- steps

  /** Where sort.Search puts `t` in a strictly increasing buffer. */
  predicate IsInsertionPoint(s: seq<Bar>, t: int, i: nat) {
    && i <= |s|
    && (forall k :: 0 <= k < i ==> s[k].ts < t)
    && (forall k :: i <= k < |s| ==> s[k].ts >= t)
  }

  function MergeAt(s: seq<Bar>, i: nat, k: Bar): seq<Bar>
    requires i <= |s|
  {
    if i < |s| && s[i].ts == k.ts then s[i := k] else s[..i] + [k] + s[i..]
  }

  function AppendBar(s: seq<Bar>, k: Bar): seq<Bar> {
    if |s| > 0 && s[|s| - 1].ts == k.ts then s[|s| - 1 := k] else s + [k]
  }

  /** `r` is `s` with `k` at position `i`, in place of the bar there or before it. */
  predicate PutAt(s: seq<Bar>, i: nat, k: Bar, r: seq<Bar>) {
    && |s| <= |r| <= |s| + 1 && i <= |s| && i < |r| && r[i] == k
    && (forall j :: 0 <= j < i ==> r[j] == s[j])
    && (forall j :: i < j < |r| ==> r[j] == s[j - (|r| - |s|)])
  }

  lemma OverwriteShape(s: seq<Bar>, i: nat, k: Bar)
    requires Increasing(s) && i < |s| && s[i].ts == k.ts
    ensures Increasing(s[i := k]) && PutAt(s, i, k, s[i := k])
  {
  }

  lemma InsertShape(s: seq<Bar>, i: nat, k: Bar)
    requires Increasing(s) && IsInsertionPoint(s, k.ts, i) && !(i < |s| && s[i].ts == k.ts)
    ensures Increasing(s[..i] + [k] + s[i..]) && PutAt(s, i, k, s[..i] + [k] + s[i..])
  {
    assert forall j :: i <= j < |s| ==> s[j].ts > k.ts;
  }

  lemma MergeShape(s: seq<Bar>, i: nat, k: Bar)
    requires Increasing(s) && IsInsertionPoint(s, k.ts, i)
    ensures Increasing(MergeAt(s, i, k)) && PutAt(s, i, k, MergeAt(s, i, k))
  {
    if i < |s| && s[i].ts == k.ts { OverwriteShape(s, i, k); } else { InsertShape(s, i, k); }
  }

  lemma MergeTimes(s: seq<Bar>, i: nat, k: Bar, t: int)
    requires Increasing(s) && IsInsertionPoint(s, k.ts, i)
    requires HasTime(s, t)
    ensures HasTime(MergeAt(s, i, k), t)
  {
    MergeShape(s, i, k);
    var r := MergeAt(s, i, k);
    var j :| 0 <= j < |s| && s[j].ts == t;
    if t != k.ts {
      assert r[if j < i then j else j + (|r| - |s|)].ts == t;
    }
  }

  lemma MergeKeepsCover(s: seq<Bar>, all: map<int, Bar>, n: nat, i: nat, k: Bar)
    requires Covers(s, all, n) && IsInsertionPoint(s, k.ts, i)
    ensures Covers(MergeAt(s, i, k), all[k.ts := k], n)
    ensures |s| <= |MergeAt(s, i, k)| <= |s| + 1
  {
    MergeShape(s, i, k);
    var r, all' := MergeAt(s, i, k), all[k.ts := k];
    forall t | t in all' && !HasTime(r, t) ensures |r| >= n > 0 && t < r[|r| - n].ts {
      assert r[i].ts == k.ts;
      if HasTime(s, t) { MergeTimes(s, i, k, t); }
      assert t in all && |s| >= n > 0 && t < s[|s| - n].ts;
      NthNewestGrows(s, i, k, n);
    }
  }

  lemma NthNewestGrows(s: seq<Bar>, i: nat, k: Bar, n: nat)
    requires Increasing(s) && IsInsertionPoint(s, k.ts, i) && 0 < n <= |s|
    ensures |MergeAt(s, i, k)| >= n && s[|s| - n].ts <= MergeAt(s, i, k)[|MergeAt(s, i, k)| - n].ts
  {
    MergeShape(s, i, k);
    var r := MergeAt(s, i, k);
    var p := |r| - n;
    if |r| == |s| + 1 && p <= i {
      assert s[p - 1].ts <= r[p].ts;
    }
  }

  lemma TrimKeepsCover(s: seq<Bar>, all: map<int, Bar>, n: nat)
    requires Covers(s, all, n) && n > 0
    ensures NewestOf(Suffix(s, n), all, n)
  {
    var r := Suffix(s, n);
    if |s| > n {
      forall t | t in all && !HasTime(r, t) ensures t < r[0].ts {
        if HasTime(s, t) {
          var j :| 0 <= j < |s| && s[j].ts == t;
          if j >= |s| - n { assert r[j - (|s| - n)].ts == t; }
        }
      }
    }
  }

  /** The newest few of a window are the newest few of its history. */
  lemma FewerNewest(s: seq<Bar>, all: map<int, Bar>, n: nat, few: nat)
    requires NewestOf(s, all, n) && 0 < few <= n
    ensures NewestOf(Suffix(s, few), all, few)
  {
    forall t {:trigger HasTime(s, t)} | t in all && !HasTime(s, t) ensures |s| >= few > 0 && t < s[|s| - few].ts {
      assert |s| == n && t < s[0].ts;
    }
    assert Covers(s, all, few);
    TrimKeepsCover(s, all, few);
  }

  function Times(s: seq<Bar>): set<int> {
    set i | 0 <= i < |s| :: s[i].ts
  }

  lemma {:induction false} AsManyTimes(s: seq<Bar>)
    requires Increasing(s)
    ensures |Times(s)| == |s|
  {
    if s != [] {
      var s', x := s[..|s| - 1], s[|s| - 1];
      AsManyTimes(s');
      assert forall i :: 0 <= i < |s'| ==> s[i] == s'[i];
      assert x.ts !in Times(s');
      assert Times(s) == Times(s') + {x.ts};
    }
  }

  /** A bar of the history is in its window of `n` if fewer than `n` bars are newer. */
  lemma ShownUnlessNewer(s: seq<Bar>, all: map<int, Bar>, n: nat, t: int)
    requires NewestOf(s, all, n) && t in all && |set u | u in all && u > t| < n
    ensures exists k :: 0 <= k < |s| && s[k] == all[t]
  {
    var newer := set u | u in all && u > t;
    if HasTime(s, t) {
      var k :| 0 <= k < |s| && s[k].ts == t;
      assert s[k] == all[t];
    } else {
      AsManyTimes(s);
      assert Times(s) <= newer;
      SubsetSize(Times(s), newer);
      assert false;
    }
  }

  function InsertSorted(s: seq<Bar>, k: Bar): (r: seq<Bar>)
    requires Ascending(s)
    ensures Ascending(r) && |r| == |s| + 1
    ensures r[|s|].ts == if s == [] || k.ts >= s[|s| - 1].ts then k.ts else s[|s| - 1].ts
  {
    if s == [] || k.ts >= s[|s| - 1].ts then s + [k]
    else InsertSorted(s[..|s| - 1], k) + [s[|s| - 1]]
  }

  lemma {:induction false} InsertedBars(s: seq<Bar>, k: Bar)
    requires Ascending(s)
    ensures multiset(InsertSorted(s, k)) == multiset(s) + multiset{k}
  {
    if s != [] && k.ts < s[|s| - 1].ts {
      InsertedBars(s[..|s| - 1], k);
      InsertedBefore(s, k);
      LastAmong(s[..|s| - 1], s[|s| - 1], InsertSorted(s[..|s| - 1], k), k);
      assert s == s[..|s| - 1] + [s[|s| - 1]];
    } else {
      InsertedLast(s, k);
    }
  }

  lemma InsertedBefore(s: seq<Bar>, k: Bar)
    requires Ascending(s) && s != [] && k.ts < s[|s| - 1].ts
    ensures InsertSorted(s, k) == InsertSorted(s[..|s| - 1], k) + [s[|s| - 1]]
  {
  }

  lemma LastAmong(s: seq<Bar>, x: Bar, r: seq<Bar>, k: Bar)
    requires multiset(r) == multiset(s) + multiset{k}
    ensures multiset(r + [x]) == multiset(s + [x]) + multiset{k}
  {
  }

  /** What sort.Slice promises: the same bars in ascending order. */
  function SortByTime(s: seq<Bar>): (r: seq<Bar>)
    ensures Ascending(r) && multiset(r) == multiset(s)
  {
    if s == [] then []
    else
      var sorted := SortByTime(s[..|s| - 1]);
      assert s == s[..|s| - 1] + [s[|s| - 1]];
      InsertedBars(sorted, s[|s| - 1]);
      InsertSorted(sorted, s[|s| - 1])
  }

  /** Sorting a strictly increasing buffer changes nothing. */
  lemma {:induction false} SortedAlready(s: seq<Bar>)
    requires Increasing(s)
    ensures SortByTime(s) == s
  {
    if s != [] {
      var s', x := s[..|s| - 1], s[|s| - 1];
      ButLast(s);
      SortedAlready(s');
      InsertedLast(s', x);
      assert SortByTime(s) == s' + [x];
    }
  }

  lemma ButLast(s: seq<Bar>)
    requires Increasing(s) && s != []
    ensures var s', x := s[..|s| - 1], s[|s| - 1];
      Increasing(s') && s == s' + [x] && (s' == [] || x.ts >= s'[|s'| - 1].ts)
  {
  }

  lemma InsertedLast(s: seq<Bar>, k: Bar)
    requires Ascending(s) && (s == [] || k.ts >= s[|s| - 1].ts)
    ensures InsertSorted(s, k) == s + [k]
  {
  }

  // ---------------------------------------------------------------- the buffers

  class Buffers {
    var history: map<Key, seq<Bar>>
    const configuredMax: int
    ghost var log: seq<Write>

    constructor (configuredMax: int)
      ensures Valid() && history == map[] && log == []
      ensures this.configuredMax == configuredMax
    {
      this.configuredMax := configuredMax;
      history, log := map[], [];
    }

    function Max(): (n: nat)
      ensures n > 0 && n == (if configuredMax > 0 then configuredMax else 2000)
    {
      if configuredMax <= 0 then DEFAULT_MAX else configuredMax
    }

    function Get(key: Key): seq<Bar>
      reads this
    {
      if key in history then history[key] else []
    }

    ghost predicate Windowed(key: Key)
      reads this
    {
      NewestOf(Get(key), LastWrites(log, key), Max())
    }

    /** Every buffer is the window of everything ever written to it. */
    ghost predicate Valid()
      reads this
    {
      forall key :: Windowed(key)
    }

    method Search(list: seq<Bar>, t: int) returns (i: nat)
      requires Increasing(list)
      ensures IsInsertionPoint(list, t, i)
    {
      var j := |list|;
      i := 0;
      while i < j
        invariant 0 <= i <= j <= |list|
        invariant forall k :: 0 <= k < i ==> list[k].ts < t
        invariant forall k :: j <= k < |list| ==> list[k].ts >= t
      {
        var h := (i + j) / 2;
        if list[h].ts < t { i := h + 1; } else { j := h; }
      }
    }

    method TrimList(list: seq<Bar>) returns (r: seq<Bar>)
      ensures r == Suffix(list, Max())
    {
      r := if |list| <= Max() then list else list[|list| - Max()..];
    }

    /** A live closed bar; no check that it is not older than the buffer's newest bar. */
    method AppendClosedKline(key: Key, k: Bar)
      modifies this
      ensures log == old(log) + if k.closed then [Write(key, k)] else []
      ensures history == if k.closed then old(history)[key := Suffix(AppendBar(old(Get(key)), k), Max())] else old(history)
      ensures old(Valid()) && LiveInOrder(old(Get(key)), k) ==> Valid()
    {
      if !k.closed { return; }
      ghost var inOrder := Valid() && LiveInOrder(Get(key), k);
      LastWritesStep(log, Write(key, k));
      if inOrder {
        assert Windowed(key);
        AppendInOrder(Get(key), LastWrites(log, key), Max(), k);
      }
      AppendKline(key, k);
      forall other | inOrder ensures Windowed(other) {
        if other != key { assert old(Windowed(other)); }
      }
    }

    method AppendKline(key: Key, k: Bar)
      modifies this
      ensures log == old(log) + [Write(key, k)]
      ensures history == old(history)[key := Suffix(AppendBar(old(Get(key)), k), Max())]
    {
      var list := Get(key);
      if |list| > 0 && list[|list| - 1].ts == k.ts {
        list := list[|list| - 1 := k];
      } else {
        list := list + [k];
      }
      list := TrimList(list);
      history := history[key := list];
      log := log + [Write(key, k)];
    }

    /** Overwrites the bar of the same timestamp, or shifts the newer ones up by one. */
    method MergeInto(list: seq<Bar>, k: Bar, ghost all: map<int, Bar>) returns (r: seq<Bar>)
      requires Covers(list, all, Max())
      ensures Covers(r, all[k.ts := k], Max())
    {
      var idx := Search(list, k.ts);
      if idx < |list| && list[idx].ts == k.ts {
        r := list[idx := k];
      } else {
        r := list[..idx] + [k] + list[idx..];
      }
      MergeKeepsCover(list, all, Max(), idx, k);
    }

    method MergeKline(key: Key, k: Bar)
      requires Covers(Get(key), LastWrites(log, key), Max())
      modifies this
      ensures log == old(log) + [Write(key, k)]
      ensures Covers(Get(key), LastWrites(log, key), Max())
      ensures forall other :: other != key ==> Get(other) == old(Get(other)) && LastWrites(log, other) == LastWrites(old(log), other)
    {
      var list := MergeInto(Get(key), k, LastWrites(log, key));
      LastWritesStep(log, Write(key, k));
      history := history[key := list];
      log := log + [Write(key, k)];
    }

    method SortTrim(key: Key)
      modifies this`history
      ensures history == if old(Get(key)) == [] then old(history) else old(history)[key := Suffix(SortByTime(old(Get(key))), Max())]
    {
      var list := Get(key);
      if list == [] { return; }
      list := SortByTime(list);
      list := TrimList(list);
      history := history[key := list];
    }

    /** Bars of any age, merged one by one and trimmed at the end of each series. */
    method IngestHistory(interval: string, series: seq<Series>)
      requires Valid()
      modifies this
      ensures Valid()
      ensures log == old(log) + IngestWrites(interval, series)
      ensures Ingested(old(log), log, interval, series)
      ensures forall key: Key :: key.interval != interval ==> Get(key) == old(Get(key))
    {
      IngestWritesKept(log, interval, series);
      if interval == "" || series == [] {
        assert log == log + IngestWrites(interval, series);
        return;
      }
      IngestEach(interval, series);
    }

    method IngestEach(interval: string, series: seq<Series>)
      requires Valid() && interval != ""
      modifies this
      ensures Valid()
      ensures log == old(log) + IngestWrites(interval, series)
      ensures forall key: Key :: key.interval != interval ==> Get(key) == old(Get(key))
    {
      for i := 0 to |series|
        invariant Valid()
        invariant log == old(log) + IngestWrites(interval, series[..i])
        invariant forall key: Key :: key.interval != interval ==> Get(key) == old(Get(key))
      {
        IngestWritesNext(interval, series, i);
        IngestSeries(interval, series[i]);
      }
      assert series[..|series|] == series;
    }

    method IngestSeries(interval: string, s: Series)
      requires Valid() && interval != ""
      modifies this
      ensures Valid()
      ensures log == old(log) + SeriesWrites(interval, s)
      ensures forall key :: key != Key(s.contract, interval) ==> Get(key) == old(Get(key))
    {
      if s.contract == "" || s.bars == [] { return; }
      var key := Key(s.contract, interval);
      assert Windowed(key);
      MergeBars(key, s.bars);
      SettleBuffer(key);
      forall other ensures Windowed(other) {
        if other != key { assert old(Windowed(other)); }
      }
    }

    method SettleBuffer(key: Key)
      requires Covers(Get(key), LastWrites(log, key), Max())
      modifies this`history
      ensures Windowed(key)
      ensures forall other :: other != key ==> Get(other) == old(Get(other))
    {
      SortedAlready(Get(key));
      TrimKeepsCover(Get(key), LastWrites(log, key), Max());
      SortTrim(key);
    }

    method MergeBars(key: Key, bars: seq<Option<Bar>>)
      requires Covers(Get(key), LastWrites(log, key), Max())
      modifies this
      ensures Covers(Get(key), LastWrites(log, key), Max())
      ensures log == old(log) + BarWrites(key, bars)
      ensures forall other :: other != key ==> Get(other) == old(Get(other)) && LastWrites(log, other) == LastWrites(old(log), other)
    {
      for i := 0 to |bars|
        invariant Covers(Get(key), LastWrites(log, key), Max())
        invariant log == old(log) + BarWrites(key, bars[..i])
        invariant forall other :: other != key ==>
          Get(other) == old(Get(other)) && LastWrites(log, other) == LastWrites(old(log), other)
      {
        BarWritesNext(key, bars, i);
        if bars[i].Some? {
          MergeKline(key, Stamped(bars[i].value, key.interval));
        }
      }
      assert bars[..|bars|] == bars;
    }

    /** The newest min(limit, max) bars of a buffer, oldest first. */
    method ListClosedKlines(contract: string, interval: string, limit: int) returns (out: seq<Bar>)
      ensures out == if contract == "" || interval == "" || limit <= 0 then []
                     else Suffix(Get(Key(contract, interval)), if limit > Max() then Max() else limit)
      ensures Valid() && contract != "" && interval != "" && limit > 0 ==>
        NewestOf(out, LastWrites(log, Key(contract, interval)), if limit > Max() then Max() else limit)
    {
      if contract == "" || interval == "" || limit <= 0 { return []; }
      var n := limit;
      if n > Max() { n := Max(); }
      var list := Get(Key(contract, interval));
      var start := 0;
      if |list| > n { start := |list| - n; }
      out := [];
      for i := start to |list|
        invariant out == list[start..i]
      {
        out := out + [list[i]];
      }
      assert out == Suffix(list, n);
      if Valid() { NewestOfBuffer(Key(contract, interval), n); }
    }

    lemma NewestOfBuffer(key: Key, n: nat)
      requires Valid() && 0 < n <= Max()
      ensures NewestOf(Suffix(Get(key), n), LastWrites(log, key), n)
    {
      assert Windowed(key);
      FewerNewest(Get(key), LastWrites(log, key), Max(), n);
    }
  }

  /** The premise on live bars: not older than the newest bar held. */
  predicate LiveInOrder(s: seq<Bar>, k: Bar) {
    s == [] || s[|s| - 1].ts <= k.ts
  }

  function Stamped(b: Bar, interval: string): Bar {
    b.(closed := true, interval := if b.interval == "" then interval else b.interval)
  }

  function BarWrites(key: Key, bars: seq<Option<Bar>>): seq<Write> {
    if bars == [] then [] else
      var older := BarWrites(key, bars[..|bars| - 1]);
      match bars[|bars| - 1]
      case None => older
      case Some(b) => older + [Write(key, Stamped(b, key.interval))]
  }

  lemma BarWritesNext(key: Key, bars: seq<Option<Bar>>, i: nat)
    requires i < |bars|
    ensures BarWrites(key, bars[..i + 1]) ==
      BarWrites(key, bars[..i]) + if bars[i].Some? then [Write(key, Stamped(bars[i].value, key.interval))] else []
  {
    assert bars[..i + 1][..i] == bars[..i];
  }

  function SeriesWrites(interval: string, s: Series): seq<Write> {
    if s.contract == "" then [] else BarWrites(Key(s.contract, interval), s.bars)
  }

  function IngestWrites(interval: string, series: seq<Series>): seq<Write> {
    if interval == "" || series == [] then [] else
      IngestWrites(interval, series[..|series| - 1]) + SeriesWrites(interval, series[|series| - 1])
  }

  lemma IngestWritesNext(interval: string, series: seq<Series>, i: nat)
    requires interval != "" && i < |series|
    ensures IngestWrites(interval, series[..i + 1]) == IngestWrites(interval, series[..i]) + SeriesWrites(interval, series[i])
  {
    assert series[..i + 1][..i] == series[..i];
  }

  // ---------------------------------------------------------------- what an ingest writes

  /** Bar `j` of series `i` is one of this contract and timestamp. */
  predicate Names(series: seq<Series>, contract: string, t: int, i: int, j: int) {
    && 0 <= i < |series| && series[i].contract == contract
    && 0 <= j < |series[i].bars| && series[i].bars[j].Some? && series[i].bars[j].value.ts == t
  }

  /** The last one in the order of the argument. */
  ghost predicate LastNamed(series: seq<Series>, contract: string, t: int, i: int, j: int) {
    && Names(series, contract, t, i, j)
    && forall k, l :: Names(series, contract, t, k, l) ==> k < i || (k == i && l <= j)
  }

  /** A bar as the history keeps it: closed, and of the request's interval if it names none. */
  function Kept(b: Bar, interval: string): Bar {
    Bar(b.ts, if b.interval == "" then interval else b.interval, b.ohlcv, true)
  }

  predicate SameEntry(a: map<int, Bar>, b: map<int, Bar>, t: int) {
    (t in a <==> t in b) && (t in a && t in b ==> a[t] == b[t])
  }

  lemma OneMoreWrite(log: seq<Write>, older: seq<Write>, w: Write)
    ensures log + (older + [w]) == (log + older) + [w]
  {
  }

  /** Of one series' bars with this timestamp the last is kept. */
  lemma {:induction false} LastBarKept(log: seq<Write>, key: Key, bars: seq<Option<Bar>>, j: nat)
    requires j < |bars| && bars[j].Some?
    requires forall l :: j < l < |bars| && bars[l].Some? ==> bars[l].value.ts != bars[j].value.ts
    ensures var all, t := LastWrites(log + BarWrites(key, bars), key), bars[j].value.ts;
      t in all && all[t] == Kept(bars[j].value, key.interval)
  {
    var n := |bars| - 1;
    var older := BarWrites(key, bars[..n]);
    if bars[n].Some? {
      var w := Write(key, Stamped(bars[n].value, key.interval));
      OneMoreWrite(log, older, w);
      LastWritesStep(log + older, w);
    }
    if j < n { LastBarKept(log, key, bars[..n], j); }
  }

  /** Timestamps none of them has, and other buffers, are left alone. */
  lemma {:induction false} OtherBarsStand(log: seq<Write>, key: Key, bars: seq<Option<Bar>>, other: Key, t: int)
    requires other != key || forall l :: 0 <= l < |bars| && bars[l].Some? ==> bars[l].value.ts != t
    ensures SameEntry(LastWrites(log, other), LastWrites(log + BarWrites(key, bars), other), t)
  {
    if bars == [] {
      assert log + BarWrites(key, bars) == log;
    } else {
      var n := |bars| - 1;
      var older := BarWrites(key, bars[..n]);
      OtherBarsStand(log, key, bars[..n], other, t);
      if bars[n].Some? {
        var w := Write(key, Stamped(bars[n].value, key.interval));
        OneMoreWrite(log, older, w);
        LastWritesStep(log + older, w);
      }
    }
  }

  /**
   * After an ingest the history shows, for every timestamp of a contract that the argument names, the
   * last such bar in the argument's order.
   */
  lemma {:induction false} IngestKeepsLast(log: seq<Write>, interval: string, series: seq<Series>, contract: string, t: int, i: nat, j: nat)
    requires interval != "" && contract != "" && LastNamed(series, contract, t, i, j)
    ensures var all := LastWrites(log + IngestWrites(interval, series), Key(contract, interval));
      t in all && all[t] == Kept(series[i].bars[j].value, interval)
  {
    var n := |series| - 1;
    var older := log + IngestWrites(interval, series[..n]);
    assert log + IngestWrites(interval, series) == older + SeriesWrites(interval, series[n]);
    if i == n {
      LastSeries(older, interval, series, contract, t, j);
    } else {
      LastNamedEarlier(series, contract, t, i, j);
      IngestKeepsLast(log, interval, series[..n], contract, t, i, j);
      SeriesStands(older, interval, series[n], Key(contract, interval), t);
    }
  }

  lemma LastSeries(log: seq<Write>, interval: string, series: seq<Series>, contract: string, t: int, j: nat)
    requires contract != "" && series != [] && LastNamed(series, contract, t, |series| - 1, j)
    ensures var s := series[|series| - 1]; var all := LastWrites(log + SeriesWrites(interval, s), Key(contract, interval));
      t in all && all[t] == Kept(s.bars[j].value, interval)
  {
    var n := |series| - 1;
    forall l | j < l < |series[n].bars| && series[n].bars[l].Some? ensures series[n].bars[l].value.ts != t {
      assert !Names(series, contract, t, n, l);
    }
    LastBarKept(log, Key(contract, interval), series[n].bars, j);
  }

  /** The series does not name this timestamp of this contract. */
  predicate Silent(s: Series, contract: string, t: int) {
    s.contract == contract ==> forall l :: 0 <= l < |s.bars| && s.bars[l].Some? ==> s.bars[l].value.ts != t
  }

  lemma LastNamedEarlier(series: seq<Series>, contract: string, t: int, i: nat, j: nat)
    requires LastNamed(series, contract, t, i, j) && i < |series| - 1
    ensures LastNamed(series[..|series| - 1], contract, t, i, j) && Silent(series[|series| - 1], contract, t)
  {
    var n := |series| - 1;
    forall k, l | Names(series[..n], contract, t, k, l) ensures k < i || (k == i && l <= j) {
      assert Names(series, contract, t, k, l);
    }
    forall l | series[n].contract == contract && 0 <= l < |series[n].bars| && series[n].bars[l].Some?
      ensures series[n].bars[l].value.ts != t
    {
      assert !Names(series, contract, t, n, l);
    }
  }

  lemma SeriesStands(log: seq<Write>, interval: string, s: Series, key: Key, t: int)
    requires key.interval != interval || key.contract == "" || Silent(s, key.contract, t)
    ensures SameEntry(LastWrites(log, key), LastWrites(log + SeriesWrites(interval, s), key), t)
  {
    if s.contract == "" {
      assert log + SeriesWrites(interval, s) == log;
    } else {
      OtherBarsStand(log, Key(s.contract, interval), s.bars, key, t);
    }
  }

  /** Every entry the argument does not name, and every other interval's, is what it was. */
  lemma {:induction false} IngestKeepsOthers(log: seq<Write>, interval: string, series: seq<Series>, key: Key, t: int)
    requires interval == "" || key.interval != interval || key.contract == "" || forall i, j :: !Names(series, key.contract, t, i, j)
    ensures SameEntry(LastWrites(log, key), LastWrites(log + IngestWrites(interval, series), key), t)
  {
    if interval == "" || series == [] {
      assert log + IngestWrites(interval, series) == log;
    } else {
      var n := |series| - 1;
      var older := log + IngestWrites(interval, series[..n]);
      assert log + IngestWrites(interval, series) == older + SeriesWrites(interval, series[n]);
      forall i, j | key.interval == interval && key.contract != "" ensures !Names(series[..n], key.contract, t, i, j) {
        assert Names(series[..n], key.contract, t, i, j) ==> Names(series, key.contract, t, i, j);
      }
      IngestKeepsOthers(log, interval, series[..n], key, t);
      forall l | key == Key(series[n].contract, interval) && key.contract != "" && 0 <= l < |series[n].bars| && series[n].bars[l].Some?
        ensures series[n].bars[l].value.ts != t
      {
        assert !Names(series, key.contract, t, n, l);
      }
      SeriesStands(older, interval, series[n], key, t);
    }
  }

  /** What an ingest makes of the history: the bars named, each in its last version, and everything else as it was. */
  ghost predicate Ingested(before: seq<Write>, after: seq<Write>, interval: string, series: seq<Series>) {
    && (forall contract, t, i: nat, j: nat {:trigger LastNamed(series, contract, t, i, j)} ::
          interval != "" && contract != "" && LastNamed(series, contract, t, i, j) ==>
            var all := LastWrites(after, Key(contract, interval));
            t in all && all[t] == Kept(series[i].bars[j].value, interval))
    && (forall key: Key, t {:trigger SameEntry(LastWrites(before, key), LastWrites(after, key), t)} ::
          interval == "" || key.interval != interval || key.contract == "" || (forall i, j :: !Names(series, key.contract, t, i, j)) ==>
            SameEntry(LastWrites(before, key), LastWrites(after, key), t))
  }

  lemma IngestWritesKept(log: seq<Write>, interval: string, series: seq<Series>)
    ensures Ingested(log, log + IngestWrites(interval, series), interval, series)
  {
    var after := log + IngestWrites(interval, series);
    forall contract, t, i: nat, j: nat | interval != "" && contract != "" && LastNamed(series, contract, t, i, j)
      ensures var all := LastWrites(after, Key(contract, interval)); t in all && all[t] == Kept(series[i].bars[j].value, interval)
    {
      IngestKeepsLast(log, interval, series, contract, t, i, j);
    }
    forall key: Key, t | interval == "" || key.interval != interval || key.contract == "" || forall i, j :: !Names(series, key.contract, t, i, j)
      ensures SameEntry(LastWrites(log, key), LastWrites(after, key), t)
    {
      IngestKeepsOthers(log, interval, series, key, t);
    }
  }

  /** Appending keeps a non-empty increasing buffer increasing exactly when the bar is not older than its newest. */
  lemma AppendOrderIff(s: seq<Bar>, k: Bar)
    requires Increasing(s)
    ensures Increasing(AppendBar(s, k)) <==> LiveInOrder(s, k)
  {
    var r := AppendBar(s, k);
    if s != [] && k.ts < s[|s| - 1].ts {
      assert r[|s| - 1].ts > r[|s|].ts;
    }
  }

  lemma AppendInOrder(s: seq<Bar>, all: map<int, Bar>, n: nat, k: Bar)
    requires NewestOf(s, all, n) && n > 0 && LiveInOrder(s, k)
    ensures NewestOf(Suffix(AppendBar(s, k), n), all[k.ts := k], n)
  {
    var i := if |s| > 0 && s[|s| - 1].ts == k.ts then |s| - 1 else |s|;
    assert AppendBar(s, k) == MergeAt(s, i, k);
    MergeKeepsCover(s, all, n, i, k);
    TrimKeepsCover(MergeAt(s, i, k), all[k.ts := k], n);
  }
}
