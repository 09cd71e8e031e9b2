/**
 * What the market router and the websocket hub each remember about public subscriptions, as values:
 * reference counts and subscriber sets on one side, payloads keyed for replay on the other.
 */
module Subscriptions {
  import opened Wrappers
  import opened Strings
  import opened Contract

  const TICKERS := "futures.tickers"
  const CANDLESTICKS := "futures.candlesticks"

  datatype CandleKey = CandleKey(contract: string, interval: string)

  /** A subscription request: a channel, its contracts and extra payload. */
  datatype Request = Request(channel: string, contracts: seq<string>, payload: seq<string>)

  /** One control frame's channel and payload. */
  datatype Frame = Frame(channel: string, payload: seq<string>)

  /** One public stream the router may want. */
  datatype Stream = Ticker(contract: string) | Candles(key: CandleKey)

  type Active = map<string, map<string, seq<string>>>

  // ---------------------------------------------------------------- the hub's side

  function NormalizeChannel(ch: string): string {
    var t := TrimSpace(ch);
    if t == "" then TICKERS else t
  }

  function SubKey(f: Frame): string {
    f.channel + "|" + Join(f.payload, ",")
  }

  /** The payloads of one request on a market-data channel; None is the request's error. */
  function Expand(channel: string, r: Request): Option<seq<seq<string>>> {
    var interval := if |r.payload| > 0 then TrimSpace(r.payload[0]) else "";
    if r.contracts == [] then None
    else if channel == TICKERS then
      Some(seq(|r.contracts|, i requires 0 <= i < |r.contracts| => [ToGateContract(CanonicalContract(r.contracts[i]))]))
    else if channel == CANDLESTICKS && interval != "" then
      Some(seq(|r.contracts|, i requires 0 <= i < |r.contracts| => [interval, ToGateContract(CanonicalContract(r.contracts[i]))]))
    else None
  }

  function Lookup(a: Active, channel: string, key: string): Option<seq<string>> {
    if channel in a && key in a[channel] then Some(a[channel][key]) else None
  }

  function Track(a: Active, f: Frame): Active {
    a[f.channel := (if f.channel in a then a[f.channel] else map[])[SubKey(f) := f.payload]]
  }

  function Untrack(a: Active, f: Frame): Active {
    if f.channel !in a then a else
      var m := a[f.channel] - {SubKey(f)};
      if m == map[] then a - {f.channel} else a[f.channel := m]
  }

  function Update(a: Active, f: Frame, track: bool): Active {
    if track then Track(a, f) else Untrack(a, f)
  }

  lemma LookupUpdated(a: Active, f: Frame, track: bool, channel: string, key: string)
    ensures Lookup(Update(a, f, track), channel, key) ==
      (if channel == f.channel && key == SubKey(f) then if track then Some(f.payload) else None
       else Lookup(a, channel, key))
  {
    if !track && f.channel in a {
      var m := a[f.channel] - {SubKey(f)};
      assert key in m <==> key in a[f.channel] && key != SubKey(f);
    }
  }

  function UpdateAll(a: Active, frames: seq<Frame>, track: bool): Active {
    if frames == [] then a else
      Update(UpdateAll(a, frames[..|frames| - 1], track), frames[|frames| - 1], track)
  }

  lemma {:induction false} UpdateAllConcat(a: Active, xs: seq<Frame>, ys: seq<Frame>, track: bool)
    ensures UpdateAll(a, xs + ys, track) == UpdateAll(UpdateAll(a, xs, track), ys, track)
  {
    if ys == [] {
      assert xs + ys == xs;
    } else {
      UpdateAllConcat(a, xs, ys[..|ys| - 1], track);
      assert (xs + ys)[..|xs + ys| - 1] == xs + ys[..|ys| - 1];
    }
  }

  // ---------------------------------------------------------------- streams and their frames

  function FrameOf(s: Stream): Frame {
    match s
    case Ticker(c) => Frame(TICKERS, [ToGateContract(c)])
    case Candles(k) => Frame(CANDLESTICKS, [k.interval, ToGateContract(k.contract)])
  }

  /** Canonical comma-free symbols and trimmed intervals: what makes keys unambiguous. */
  predicate CleanSymbol(c: string) {
    IsCanonical(c) && ',' !in c
  }

  predicate Clean(s: Stream) {
    match s
    case Ticker(c) => CleanSymbol(c)
    case Candles(k) => CleanSymbol(k.contract) && k.interval != "" && Trimmed(k.interval)
  }

  lemma LastCommaInjective(a: string, g: string, b: string, h: string)
    requires ',' !in g && ',' !in h && a + ("," + g) == b + ("," + h)
    ensures a == b && g == h
  {
    var s := a + ("," + g);
    var t := b + ("," + h);
    assert s[|a|] == ',' && t[|b|] == ',';
    assert forall k :: |a| < k < |s| ==> s[k] == g[k - |a| - 1] && g[k - |a| - 1] in g;
    assert forall k :: |b| < k < |t| ==> t[k] == h[k - |b| - 1] && h[k - |b| - 1] in h;
    assert s[..|a|] == a && t[..|b|] == b && s[|a| + 1..] == g && t[|b| + 1..] == h;
  }

  function BodyOf(s: Stream): string {
    match s
    case Ticker(c) => ToGateContract(c)
    case Candles(k) => k.interval + ("," + ToGateContract(k.contract))
  }

  lemma KeyShape(s: Stream)
    ensures SubKey(FrameOf(s)) == (if s.Ticker? then TICKERS else CANDLESTICKS) + "|" + BodyOf(s)
  {
    if s.Candles? { JoinPair(s.key.interval, ToGateContract(s.key.contract)); }
  }

  lemma BodyInjective(s: Stream, t: Stream)
    requires Clean(s) && Clean(t) && s.Ticker? == t.Ticker? && BodyOf(s) == BodyOf(t)
    ensures s == t
  {
    if s.Ticker? {
      GateInjective(s.contract, t.contract);
    } else {
      var k, l := s.key, t.key;
      GateCommaFree(k.contract);
      GateCommaFree(l.contract);
      LastCommaInjective(k.interval, ToGateContract(k.contract), l.interval, ToGateContract(l.contract));
      GateInjective(k.contract, l.contract);
    }
  }

  lemma ChannelsDiffer()
    ensures TICKERS != CANDLESTICKS
    ensures NormalizeChannel(TICKERS) == TICKERS && NormalizeChannel(CANDLESTICKS) == CANDLESTICKS
  {
    assert TICKERS[8] == 't' && CANDLESTICKS[8] == 'c';
    assert TICKERS[0] == 'f' && TICKERS[|TICKERS| - 1] == 's' && Trimmed(TICKERS);
    assert CANDLESTICKS[0] == 'f' && CANDLESTICKS[|CANDLESTICKS| - 1] == 's' && Trimmed(CANDLESTICKS);
  }

  lemma PrefixInjective(p: string, a: string, b: string)
    requires p + "|" + a == p + "|" + b
    ensures a == b
  {
    assert (p + "|" + a)[|p| + 1..] == a && (p + "|" + b)[|p| + 1..] == b;
  }

  /** Clean streams with the same key on the same channel are the same stream. */
  lemma KeyInjective(s: Stream, t: Stream)
    requires Clean(s) && Clean(t)
    requires FrameOf(s).channel == FrameOf(t).channel && SubKey(FrameOf(s)) == SubKey(FrameOf(t))
    ensures s == t
  {
    ChannelsDiffer();
    KeyShape(s);
    KeyShape(t);
    PrefixInjective(FrameOf(s).channel, BodyOf(s), BodyOf(t));
    BodyInjective(s, t);
  }

  lemma JoinPair(a: string, b: string)
    ensures Join([a, b], ",") == a + ("," + b)
  {
    assert [a, b][1..] == [b];
    assert a + "," + b == a + ("," + b);
  }

  lemma GateCommaFree(c: string)
    requires CleanSymbol(c)
    ensures ',' !in ToGateContract(c)
  {
  }

  /** Frames with the same channel and key are the same frame. */
  ghost predicate NoClash(frames: set<Frame>) {
    forall f, g :: f in frames && g in frames && f.channel == g.channel && SubKey(f) == SubKey(g) ==> f == g
  }

  /** The hub's two market-data channels hold exactly the frames of `want`. */
  ghost predicate Agrees(want: set<Frame>, a: Active) {
    && (forall f :: f in want ==> Lookup(a, f.channel, SubKey(f)) == Some(f.payload))
    && (forall ch, key :: (ch == TICKERS || ch == CANDLESTICKS) && Lookup(a, ch, key).Some? ==>
          exists f :: f in want && f.channel == ch && SubKey(f) == key)
  }

  /** The set wanted after asking for more, or for fewer. */
  function Wish<T>(want: set<T>, more: set<T>, track: bool): set<T> {
    if track then want + more else want - more
  }

  function Elements<T>(s: seq<T>): set<T> {
    set x | x in s
  }

  lemma UpdateAgrees(want: set<Frame>, a: Active, f: Frame, track: bool)
    requires Agrees(want, a) && NoClash(want + {f})
    ensures Agrees(Wish(want, {f}, track), Update(a, f, track))
  {
    var want', a' := Wish(want, {f}, track), Update(a, f, track);
    forall g | g in want' ensures Lookup(a', g.channel, SubKey(g)) == Some(g.payload) {
      LookupUpdated(a, f, track, g.channel, SubKey(g));
    }
    forall ch, key | (ch == TICKERS || ch == CANDLESTICKS) && Lookup(a', ch, key).Some?
      ensures exists g :: g in want' && g.channel == ch && SubKey(g) == key
    {
      LookupUpdated(a, f, track, ch, key);
      if ch == f.channel && key == SubKey(f) {
        assert f in want';
      } else {
        var g :| g in want && g.channel == ch && SubKey(g) == key;
        assert g in want';
      }
    }
  }

  /** Writing a list of frames adds or removes exactly those frames. */
  lemma {:induction false} UpdateAllAgrees(want: set<Frame>, a: Active, frames: seq<Frame>, track: bool)
    requires Agrees(want, a) && NoClash(want + Elements(frames))
    ensures Agrees(Wish(want, Elements(frames), track), UpdateAll(a, frames, track))
  {
    if frames == [] {
      assert Wish(want, Elements(frames), track) == want;
    } else {
      var before, f := frames[..|frames| - 1], frames[|frames| - 1];
      assert frames == before + [f];
      WishSnoc(want, before, f, track);
      UpdateAllAgrees(want, a, before, track);
      var mid := Wish(want, Elements(before), track);
      UpdateAgrees(mid, UpdateAll(a, before, track), f, track);
    }
  }

  lemma WishSnoc<T>(want: set<T>, before: seq<T>, x: T, track: bool)
    ensures Wish(Wish(want, Elements(before), track), {x}, track) == Wish(want, Elements(before + [x]), track)
    ensures Wish(want, Elements(before), track) + {x} <= want + Elements(before + [x])
    ensures want + Elements(before) <= want + Elements(before + [x])
  {
  }

  function FramesOf(streams: set<Stream>): set<Frame> {
    set s | s in streams :: FrameOf(s)
  }

  lemma ImageOfList<A, B>(xs: seq<A>, ys: seq<B>, f: A -> B)
    requires |ys| == |xs| && forall i :: 0 <= i < |xs| ==> ys[i] == f(xs[i])
    ensures Elements(ys) == set x | x in xs :: f(x)
  {
    forall y | y in ys ensures y in set x | x in xs :: f(x) {
      var i :| 0 <= i < |ys| && ys[i] == y;
      assert xs[i] in xs;
    }
    forall x | x in xs ensures f(x) in ys {
      var i :| 0 <= i < |xs| && xs[i] == x;
      assert ys[i] == f(x);
    }
  }

  /** Clean streams never clash, and removing some removes exactly their frames. */
  lemma CleanStreams(want: set<Stream>, more: set<Stream>, track: bool)
    requires forall s :: s in want || s in more ==> Clean(s)
    ensures NoClash(FramesOf(want) + FramesOf(more))
    ensures FramesOf(Wish(want, more, track)) == Wish(FramesOf(want), FramesOf(more), track)
  {
    forall f, g | f in FramesOf(want) + FramesOf(more) && g in FramesOf(want) + FramesOf(more)
                  && f.channel == g.channel && SubKey(f) == SubKey(g)
      ensures f == g
    {
      var s :| (s in want || s in more) && FrameOf(s) == f;
      var t :| (t in want || t in more) && FrameOf(t) == g;
      KeyInjective(s, t);
    }
    if !track {
      forall s, t | s in want && t in more && FrameOf(s) == FrameOf(t) ensures s == t {
        KeyInjective(s, t);
      }
    }
  }

  // ---------------------------------------------------------------- the router's side

  datatype Router = Router(
    refs: map<string, nat>,
    pushes: map<string, set<string>>,
    candles: map<CandleKey, set<string>>)

  const EMPTY := Router(map[], map[], map[])

  function Ref(r: Router, c: string): nat {
    if c in r.refs then r.refs[c] else 0
  }

  function Subscribers<K>(m: map<K, set<string>>, k: K): set<string> {
    if k in m then m[k] else {}
  }

  /** The strategies with any candle subscription on a contract. */
  function Holders(r: Router, c: string): set<string> {
    set k, st | k in r.candles && k.contract == c && st in r.candles[k] :: st
  }

  /** The contracts a strategy holds a candle subscription on. */
  function Held(r: Router, strategy: string): set<string> {
    set k | k in r.candles && strategy in r.candles[k] :: k.contract
  }

  /** The streams the router has asked the exchange for. */
  function Wanted(r: Router): set<Stream> {
    (set c | c in r.refs :: Ticker(c)) + (set k | k in r.candles :: Candles(k))
  }

  function SubscribeSymbol(r: Router, strategy: string, c: string, interval: string, push: bool): Router {
    var k := CandleKey(c, interval);
    Router(
      r.refs[c := Ref(r, c) + 1],
      if push then r.pushes[c := Subscribers(r.pushes, c) + {strategy}] else r.pushes,
      r.candles[k := Subscribers(r.candles, k) + {strategy}])
  }

  function SubscribeSymbols(r: Router, strategy: string, symbols: seq<string>, interval: string, push: bool): Router {
    if symbols == [] then r else
      SubscribeSymbol(SubscribeSymbols(r, strategy, symbols[..|symbols| - 1], interval, push),
                      strategy, symbols[|symbols| - 1], interval, push)
  }

  /** What a loop over the candle and push tables removes for a strategy. */
  function Dropped<K>(m: map<K, set<string>>, strategy: string): map<K, set<string>> {
    map k | k in m && m[k] - {strategy} != {} :: m[k] - {strategy}
  }

  /** One reference fewer for each contract of `held`; the last one removes the entry. */
  function DecRefs(refs: map<string, nat>, held: set<string>): map<string, nat> {
    map c | c in refs && !(c in held && refs[c] == 1) :: if c in held && refs[c] > 0 then refs[c] - 1 else refs[c]
  }

  function UnsubscribeStrategy(r: Router, strategy: string): Router {
    var held := Held(r, strategy);
    Router(
      DecRefs(r.refs, held),
      Dropped(r.pushes, strategy),
      Dropped(r.candles, strategy))
  }

  datatype Op =
    | Subscribe(strategy: string, symbols: seq<string>, interval: string, push: bool)
    | Unsubscribe(strategy: string)

  function ApplyOp(r: Router, op: Op): Router {
    match op
    case Subscribe(st, symbols, interval, push) => SubscribeSymbols(r, st, symbols, interval, push)
    case Unsubscribe(st) => UnsubscribeStrategy(r, st)
  }

  function RunOps(ops: seq<Op>): Router {
    if ops == [] then EMPTY else ApplyOp(RunOps(ops[..|ops| - 1]), ops[|ops| - 1])
  }

  // ---------------------------------------------------------------- reference counts

  /** No table entry is empty and every contract is counted at least once per holder. */
  ghost predicate Counted(r: Router) {
    && (forall c :: c in r.refs ==> r.refs[c] > 0)
    && (forall k :: k in r.candles ==> r.candles[k] != {})
    && (forall c :: |Holders(r, c)| <= Ref(r, c))
  }

  ghost predicate ExactlyCounted(r: Router) {
    forall c :: Ref(r, c) == |Holders(r, c)|
  }

  lemma HoldersAfterSubscribe(r: Router, strategy: string, c: string, interval: string, push: bool, d: string)
    ensures Holders(SubscribeSymbol(r, strategy, c, interval, push), d) == Holders(r, d) + if d == c then {strategy} else {}
  {
    var t := SubscribeSymbol(r, strategy, c, interval, push);
    var k := CandleKey(c, interval);
    forall st | st in Holders(r, d) ensures st in Holders(t, d) {
      var l :| l in r.candles && l.contract == d && st in r.candles[l];
      assert l in t.candles && st in t.candles[l];
    }
    assert k in t.candles && strategy in t.candles[k];
    forall st | st in Holders(t, d) ensures st in Holders(r, d) || (d == c && st == strategy) {
      var l :| l in t.candles && l.contract == d && st in t.candles[l];
      if l in r.candles && st in r.candles[l] { assert st in Holders(r, d); }
    }
  }

  lemma HoldersAfterUnsubscribe(r: Router, strategy: string, c: string)
    ensures Holders(UnsubscribeStrategy(r, strategy), c) == Holders(r, c) - {strategy}
    ensures c in Held(r, strategy) <==> strategy in Holders(r, c)
  {
    var t := UnsubscribeStrategy(r, strategy);
    forall st | st in Holders(r, c) && st != strategy ensures st in Holders(t, c) {
      var k :| k in r.candles && k.contract == c && st in r.candles[k];
      assert st in r.candles[k] - {strategy};
      assert k in t.candles && st in t.candles[k];
    }
    if strategy in Holders(r, c) {
      var k :| k in r.candles && k.contract == c && strategy in r.candles[k];
    }
  }

  lemma SubscribeSymbolCounts(r: Router, strategy: string, c: string, interval: string, push: bool)
    requires Counted(r)
    ensures Counted(SubscribeSymbol(r, strategy, c, interval, push))
  {
    var t := SubscribeSymbol(r, strategy, c, interval, push);
    forall d ensures |Holders(t, d)| <= Ref(t, d) {
      HoldersAfterSubscribe(r, strategy, c, interval, push, d);
    }
  }

  /** References of a contract beyond one per holder. */
  function Excess(r: Router, c: string): int {
    Ref(r, c) - |Holders(r, c)|
  }

  function Occurrences(symbols: seq<string>, c: string): (n: nat)
    ensures n > 0 <==> c in symbols
  {
    if symbols == [] then 0 else
      var last := symbols[|symbols| - 1];
      assert symbols == symbols[..|symbols| - 1] + [last];
      Occurrences(symbols[..|symbols| - 1], c) + if last == c then 1 else 0
  }

  /** References a subscription adds for a contract beyond the one of a new holder. */
  function SurplusOf(r: Router, strategy: string, symbols: seq<string>, c: string): (n: int)
    ensures n >= 0
  {
    Occurrences(symbols, c) - if c in symbols && strategy !in Holders(r, c) then 1 else 0
  }

  lemma AddOneHolder(holders: set<string>, strategy: string)
    ensures |holders + {strategy}| == |holders| + if strategy in holders then 0 else 1
  {
    if strategy in holders {
      assert holders + {strategy} == holders;
    }
  }

  lemma SubscribeSymbolExcess(r: Router, strategy: string, c: string, interval: string, push: bool, d: string)
    ensures Excess(SubscribeSymbol(r, strategy, c, interval, push), d)
      == Excess(r, d) + if d == c && strategy in Holders(r, c) then 1 else 0
  {
    HoldersAfterSubscribe(r, strategy, c, interval, push, d);
    if d == c {
      AddOneHolder(Holders(r, c), strategy);
    }
  }

  lemma {:induction false} HoldersAfterSymbols(r: Router, strategy: string, symbols: seq<string>, interval: string, push: bool, d: string)
    ensures Holders(SubscribeSymbols(r, strategy, symbols, interval, push), d) == Holders(r, d) + if d in symbols then {strategy} else {}
  {
    if symbols != [] {
      var n := |symbols| - 1;
      HoldersAfterSymbols(r, strategy, symbols[..n], interval, push, d);
      HoldersAfterSubscribe(SubscribeSymbols(r, strategy, symbols[..n], interval, push), strategy, symbols[n], interval, push, d);
      assert symbols == symbols[..n] + [symbols[n]];
    }
  }

  /** A subscription raises the excess of a contract by exactly its surplus. */
  lemma {:induction false} SubscribeSymbolsExcess(r: Router, strategy: string, symbols: seq<string>, interval: string, push: bool, d: string)
    ensures Excess(SubscribeSymbols(r, strategy, symbols, interval, push), d) == Excess(r, d) + SurplusOf(r, strategy, symbols, d)
  {
    if symbols != [] {
      var n := |symbols| - 1;
      var mid := SubscribeSymbols(r, strategy, symbols[..n], interval, push);
      SubscribeSymbolsExcess(r, strategy, symbols[..n], interval, push, d);
      HoldersAfterSymbols(r, strategy, symbols[..n], interval, push, d);
      SubscribeSymbolExcess(mid, strategy, symbols[n], interval, push, d);
      SurplusOfNext(r, strategy, symbols[..n], symbols[n], d);
      assert symbols == symbols[..n] + [symbols[n]];
    }
  }

  lemma SurplusOfNext(r: Router, strategy: string, symbols: seq<string>, c: string, d: string)
    ensures SurplusOf(r, strategy, symbols + [c], d)
      == SurplusOf(r, strategy, symbols, d) + if d == c && (strategy in Holders(r, d) || d in symbols) then 1 else 0
  {
    assert (symbols + [c])[..|symbols|] == symbols;
  }

  predicate Distinct(s: seq<string>) {
    forall i, j :: 0 <= i < j < |s| ==> s[i] != s[j]
  }

  /** No symbol twice, and none the strategy holds already. */
  ghost predicate AllNew(r: Router, strategy: string, symbols: seq<string>) {
    Distinct(symbols) && forall c :: c in symbols ==> strategy !in Holders(r, c)
  }

  lemma {:induction false} DistinctOnce(symbols: seq<string>, c: string)
    requires Distinct(symbols)
    ensures Occurrences(symbols, c) <= 1
  {
    if symbols != [] {
      DistinctOnce(symbols[..|symbols| - 1], c);
    }
  }

  lemma {:induction false} TwiceOccurs(symbols: seq<string>, i: nat, j: nat)
    requires i < j < |symbols| && symbols[i] == symbols[j]
    ensures Occurrences(symbols, symbols[i]) >= 2
  {
    var n := |symbols| - 1;
    if j < n {
      TwiceOccurs(symbols[..n], i, j);
    } else {
      assert symbols[..n][i] == symbols[i];
    }
  }

  lemma NewHasNoSurplus(r: Router, strategy: string, symbols: seq<string>, c: string)
    requires AllNew(r, strategy, symbols)
    ensures SurplusOf(r, strategy, symbols, c) == 0
  {
    DistinctOnce(symbols, c);
  }

  lemma NotNewHasSurplus(r: Router, strategy: string, symbols: seq<string>) returns (c: string)
    requires !AllNew(r, strategy, symbols)
    ensures SurplusOf(r, strategy, symbols, c) > 0
  {
    if !Distinct(symbols) {
      var i, j :| 0 <= i < j < |symbols| && symbols[i] == symbols[j];
      TwiceOccurs(symbols, i, j);
      c := symbols[i];
    } else {
      c :| c in symbols && strategy in Holders(r, c);
    }
  }

  lemma {:induction false} SubscribeSymbolsCounts(r: Router, strategy: string, symbols: seq<string>, interval: string, push: bool)
    requires Counted(r)
    ensures Counted(SubscribeSymbols(r, strategy, symbols, interval, push))
  {
    if symbols != [] {
      var n := |symbols| - 1;
      SubscribeSymbolsCounts(r, strategy, symbols[..n], interval, push);
      SubscribeSymbolCounts(SubscribeSymbols(r, strategy, symbols[..n], interval, push), strategy, symbols[n], interval, push);
    }
  }

  /** Unsubscribing takes back one reference per contract held: the excess stays. */
  lemma UnsubscribeExcess(r: Router, strategy: string, c: string)
    requires Counted(r)
    ensures Excess(UnsubscribeStrategy(r, strategy), c) == Excess(r, c)
    ensures |Holders(UnsubscribeStrategy(r, strategy), c)| <= Ref(UnsubscribeStrategy(r, strategy), c)
  {
    HoldersAfterUnsubscribe(r, strategy, c);
    assert |Holders(r, c)| <= Ref(r, c);
  }

  lemma UnsubscribeCounts(r: Router, strategy: string)
    requires Counted(r)
    ensures Counted(UnsubscribeStrategy(r, strategy))
    ensures forall c :: c in r.refs && c !in UnsubscribeStrategy(r, strategy).refs ==>
      Holders(UnsubscribeStrategy(r, strategy), c) == {}
  {
    var t := UnsubscribeStrategy(r, strategy);
    forall c ensures |Holders(t, c)| <= Ref(t, c) {
      UnsubscribeExcess(r, strategy, c);
    }
    forall c | c in r.refs && c !in t.refs ensures Holders(t, c) == {} {
      assert |Holders(t, c)| <= Ref(t, c);
    }
  }

  /** What a run's subscriptions have added beyond one reference for each new holder. */
  function Surplus(ops: seq<Op>, c: string): (n: int)
    ensures n >= 0
  {
    if ops == [] then 0 else
      var before, op := ops[..|ops| - 1], ops[|ops| - 1];
      Surplus(before, c) + if op.Subscribe? then SurplusOf(RunOps(before), op.strategy, op.symbols, c) else 0
  }

  /** Every subscription names distinct symbols the strategy does not hold already. */
  ghost predicate OncePerStrategy(ops: seq<Op>) {
    if ops == [] then true else
      var before, op := ops[..|ops| - 1], ops[|ops| - 1];
      OncePerStrategy(before) && (op.Subscribe? ==> AllNew(RunOps(before), op.strategy, op.symbols))
  }

  lemma {:induction false} RunCounted(ops: seq<Op>)
    ensures Counted(RunOps(ops))
  {
    if ops == [] {
      assert forall d :: Holders(EMPTY, d) == {};
    } else {
      var before := ops[..|ops| - 1];
      RunCounted(before);
      match ops[|ops| - 1]
      case Subscribe(st, symbols, interval, push) => SubscribeSymbolsCounts(RunOps(before), st, symbols, interval, push);
      case Unsubscribe(st) => UnsubscribeCounts(RunOps(before), st);
    }
  }

  /** A contract's count is its holders and the surplus of the whole run, which no unsubscription takes back. */
  lemma {:induction false} CountIsHoldersAndSurplus(ops: seq<Op>, c: string)
    ensures Ref(RunOps(ops), c) == |Holders(RunOps(ops), c)| + Surplus(ops, c)
  {
    if ops == [] {
      assert Holders(EMPTY, c) == {};
    } else {
      var before := ops[..|ops| - 1];
      CountIsHoldersAndSurplus(before, c);
      match ops[|ops| - 1]
      case Subscribe(st, symbols, interval, push) => SubscribeSymbolsExcess(RunOps(before), st, symbols, interval, push, c);
      case Unsubscribe(st) =>
        RunCounted(before);
        UnsubscribeExcess(RunOps(before), st, c);
    }
  }

  lemma {:induction false} OnceHasNoSurplus(ops: seq<Op>, c: string)
    requires OncePerStrategy(ops)
    ensures Surplus(ops, c) == 0
  {
    if ops != [] {
      var before, op := ops[..|ops| - 1], ops[|ops| - 1];
      OnceHasNoSurplus(before, c);
      if op.Subscribe? { NewHasNoSurplus(RunOps(before), op.strategy, op.symbols, c); }
    }
  }

  lemma {:induction false} OtherwiseSurplus(ops: seq<Op>) returns (c: string)
    requires !OncePerStrategy(ops)
    ensures Surplus(ops, c) > 0
  {
    var before, op := ops[..|ops| - 1], ops[|ops| - 1];
    if OncePerStrategy(before) {
      c := NotNewHasSurplus(RunOps(before), op.strategy, op.symbols);
    } else {
      c := OtherwiseSurplus(before);
    }
  }

  /** Over every run the counts are exact if and only if no strategy ever subscribed a symbol it held or named one twice. */
  lemma ExactIff(ops: seq<Op>)
    ensures ExactlyCounted(RunOps(ops)) <==> OncePerStrategy(ops)
  {
    if OncePerStrategy(ops) {
      forall c ensures Ref(RunOps(ops), c) == |Holders(RunOps(ops), c)| {
        CountIsHoldersAndSurplus(ops, c);
        OnceHasNoSurplus(ops, c);
      }
    } else {
      var c := OtherwiseSurplus(ops);
      CountIsHoldersAndSurplus(ops, c);
    }
  }

  /**
   * Over every run a contract is counted at least once per strategy holding it, and all are counted
   * exactly if and only if no strategy ever subscribed a symbol it held or named one twice; and the
   * step that drops a contract's ticker leaves it no holder.
   */
  lemma NoPrematureUnsubscribe(ops: seq<Op>)
    ensures Counted(RunOps(ops))
    ensures ExactlyCounted(RunOps(ops)) <==> OncePerStrategy(ops)
    ensures ops != [] ==> forall c :: c in RunOps(ops[..|ops| - 1]).refs && c !in RunOps(ops).refs ==> Holders(RunOps(ops), c) == {}
  {
    RunCounted(ops);
    ExactIff(ops);
    if ops != [] {
      var before := ops[..|ops| - 1];
      RunCounted(before);
      match ops[|ops| - 1]
      case Subscribe(st, symbols, interval, push) => SubscribeKeepsRefs(RunOps(before), st, symbols, interval, push);
      case Unsubscribe(st) => UnsubscribeCounts(RunOps(before), st);
    }
  }

  /** A contract nobody holds is still counted, and its ticker kept, exactly if some subscription of it was surplus. */
  lemma LeakIff(ops: seq<Op>, c: string)
    requires Holders(RunOps(ops), c) == {}
    ensures c in RunOps(ops).refs <==> Surplus(ops, c) > 0
  {
    RunCounted(ops);
    CountIsHoldersAndSurplus(ops, c);
  }

  // ---------------------------------------------------------------- who gets what

  /** The strategy has not been unsubscribed since step `i`. */
  predicate Stands(ops: seq<Op>, strategy: string, i: nat) {
    i < |ops| && ops[i].Subscribe? && ops[i].strategy == strategy
    && forall j :: i < j < |ops| ==> ops[j] != Unsubscribe(strategy)
  }

  /** It subscribed the contract with ticks pushed, and stands. */
  predicate AsksTicks(ops: seq<Op>, strategy: string, c: string, i: nat) {
    Stands(ops, strategy, i) && c in ops[i].symbols && ops[i].push
  }

  /** It subscribed the contract's bars of this interval, and stands. */
  predicate AsksBars(ops: seq<Op>, strategy: string, k: CandleKey, i: nat) {
    Stands(ops, strategy, i) && k.contract in ops[i].symbols && ops[i].interval == k.interval
  }

  lemma {:induction false} PushesAfterSymbols(r: Router, strategy: string, symbols: seq<string>, interval: string, push: bool, c: string)
    ensures Subscribers(SubscribeSymbols(r, strategy, symbols, interval, push).pushes, c)
         == Subscribers(r.pushes, c) + if push && c in symbols then {strategy} else {}
  {
    if symbols != [] {
      var n := |symbols| - 1;
      PushesAfterSymbols(r, strategy, symbols[..n], interval, push, c);
      assert symbols == symbols[..n] + [symbols[n]];
    }
  }

  lemma {:induction false} CandlesAfterSymbols(r: Router, strategy: string, symbols: seq<string>, interval: string, push: bool, k: CandleKey)
    ensures Subscribers(SubscribeSymbols(r, strategy, symbols, interval, push).candles, k)
         == Subscribers(r.candles, k) + if k.contract in symbols && k.interval == interval then {strategy} else {}
  {
    if symbols != [] {
      var n := |symbols| - 1;
      CandlesAfterSymbols(r, strategy, symbols[..n], interval, push, k);
      assert symbols == symbols[..n] + [symbols[n]];
    }
  }

  lemma SubscribersAfterDrop<K>(m: map<K, set<string>>, strategy: string, k: K)
    ensures Subscribers(Dropped(m, strategy), k) == Subscribers(m, k) - {strategy}
  {
  }

  /** Over every run a strategy is pushed a contract's ticks exactly if it asked for that and has not unsubscribed since. */
  lemma {:induction false} PushedIff(ops: seq<Op>, strategy: string, c: string)
    ensures strategy in Subscribers(RunOps(ops).pushes, c) <==> exists i: nat :: AsksTicks(ops, strategy, c, i)
  {
    if ops != [] {
      var n := |ops| - 1;
      var before, op := ops[..n], ops[n];
      PushedIff(before, strategy, c);
      StepPushed(ops, strategy, c);
      match op
      case Subscribe(st, symbols, interval, push) => PushesAfterSymbols(RunOps(before), st, symbols, interval, push, c);
      case Unsubscribe(st) => SubscribersAfterDrop(RunOps(before).pushes, st, c);
    }
  }

  lemma StepPushed(ops: seq<Op>, strategy: string, c: string)
    requires ops != []
    ensures var before, op := ops[..|ops| - 1], ops[|ops| - 1];
      (exists i: nat :: AsksTicks(ops, strategy, c, i)) <==>
      || (op.Subscribe? && op.strategy == strategy && c in op.symbols && op.push)
      || (op != Unsubscribe(strategy) && exists i: nat :: AsksTicks(before, strategy, c, i))
  {
    var n := |ops| - 1;
    var before, op := ops[..n], ops[n];
    if i: nat :| AsksTicks(ops, strategy, c, i) {
      assert i == n || AsksTicks(before, strategy, c, i);
    }
    if i: nat :| op != Unsubscribe(strategy) && AsksTicks(before, strategy, c, i) {
      assert AsksTicks(ops, strategy, c, i);
    }
    if op.Subscribe? && op.strategy == strategy && c in op.symbols && op.push {
      assert AsksTicks(ops, strategy, c, n);
    }
  }

  /** The same of the bars of one contract and interval. */
  lemma {:induction false} StreamedIff(ops: seq<Op>, strategy: string, k: CandleKey)
    ensures strategy in Subscribers(RunOps(ops).candles, k) <==> exists i: nat :: AsksBars(ops, strategy, k, i)
  {
    if ops != [] {
      var n := |ops| - 1;
      var before, op := ops[..n], ops[n];
      StreamedIff(before, strategy, k);
      StepStreamed(ops, strategy, k);
      match op
      case Subscribe(st, symbols, interval, push) => CandlesAfterSymbols(RunOps(before), st, symbols, interval, push, k);
      case Unsubscribe(st) => SubscribersAfterDrop(RunOps(before).candles, st, k);
    }
  }

  lemma StepStreamed(ops: seq<Op>, strategy: string, k: CandleKey)
    requires ops != []
    ensures var before, op := ops[..|ops| - 1], ops[|ops| - 1];
      (exists i: nat :: AsksBars(ops, strategy, k, i)) <==>
      || (op.Subscribe? && op.strategy == strategy && k.contract in op.symbols && op.interval == k.interval)
      || (op != Unsubscribe(strategy) && exists i: nat :: AsksBars(before, strategy, k, i))
  {
    var n := |ops| - 1;
    var before, op := ops[..n], ops[n];
    if i: nat :| AsksBars(ops, strategy, k, i) {
      assert i == n || AsksBars(before, strategy, k, i);
    }
    if i: nat :| op != Unsubscribe(strategy) && AsksBars(before, strategy, k, i) {
      assert AsksBars(ops, strategy, k, i);
    }
    if op.Subscribe? && op.strategy == strategy && k.contract in op.symbols && op.interval == k.interval {
      assert AsksBars(ops, strategy, k, n);
    }
  }

  predicate NoneEmpty<K>(m: map<K, set<string>>) {
    forall k :: k in m ==> m[k] != {}
  }

  lemma FilledEntry<K>(m: map<K, set<string>>, k: K, strategy: string)
    requires NoneEmpty(m)
    ensures NoneEmpty(m[k := Subscribers(m, k) + {strategy}])
  {
    assert strategy in Subscribers(m, k) + {strategy};
  }

  lemma {:induction false} SymbolsFillEntries(r: Router, strategy: string, symbols: seq<string>, interval: string, push: bool)
    requires NoneEmpty(r.pushes) && NoneEmpty(r.candles)
    ensures var t := SubscribeSymbols(r, strategy, symbols, interval, push); NoneEmpty(t.pushes) && NoneEmpty(t.candles)
  {
    if symbols != [] {
      var n := |symbols| - 1;
      var mid := SubscribeSymbols(r, strategy, symbols[..n], interval, push);
      SymbolsFillEntries(r, strategy, symbols[..n], interval, push);
      FilledEntry(mid.pushes, symbols[n], strategy);
      FilledEntry(mid.candles, CandleKey(symbols[n], interval), strategy);
    }
  }

  /** No table keeps an empty entry, so the last subscriber of a contract leaves nothing behind. */
  lemma {:induction false} NoEmptyEntries(ops: seq<Op>)
    ensures NoneEmpty(RunOps(ops).pushes) && NoneEmpty(RunOps(ops).candles)
  {
    if ops != [] {
      var before := ops[..|ops| - 1];
      NoEmptyEntries(before);
      match ops[|ops| - 1]
      case Subscribe(st, symbols, interval, push) => SymbolsFillEntries(RunOps(before), st, symbols, interval, push);
      case Unsubscribe(_) =>
    }
  }

  lemma {:induction false} SubscribeKeepsRefs(r: Router, strategy: string, symbols: seq<string>, interval: string, push: bool)
    ensures var t := SubscribeSymbols(r, strategy, symbols, interval, push);
      t.refs.Keys == r.refs.Keys + Elements(symbols)
  {
    if symbols != [] {
      SubscribeKeepsRefs(r, strategy, symbols[..|symbols| - 1], interval, push);
      assert symbols == symbols[..|symbols| - 1] + [symbols[|symbols| - 1]];
    }
  }

  /** The shortest leak: subscribed twice, unsubscribed once. */
  lemma ResubscribeLeaks(strategy: string, c: string, interval: string)
    ensures var sub := Subscribe(strategy, [c], interval, false); var ops := [sub, sub, Unsubscribe(strategy)];
      c in RunOps(ops).refs && Holders(RunOps(ops), c) == {}
  {
    var sub := Subscribe(strategy, [c], interval, false);
    var ops := [sub, sub, Unsubscribe(strategy)];
    assert ops[..2] == [sub, sub] && [sub, sub][..1] == [sub] && [sub][..0] == [];
    HoldersAfterSymbols(EMPTY, strategy, [c], interval, false, c);
    HoldersAfterSymbols(RunOps([sub]), strategy, [c], interval, false, c);
    HoldersAfterUnsubscribe(RunOps([sub, sub]), strategy, c);
    assert Holders(EMPTY, c) == {};
    assert Occurrences([c], c) == 1;
    assert Surplus([sub, sub], c) >= SurplusOf(RunOps([sub]), strategy, [c], c) == 1;
    LeakIff(ops, c);
  }
}
