/** The market router: per-strategy subscriptions counted down to the hub's public streams. */
module MarketRouter {
  import opened Wrappers
  import opened Strings
  import opened Contract
  import opened Subscriptions
  import opened WsHub

  // ---------------------------------------------------------------- what a call asks of the hub

  /** The symbols that had no ticker reference when their turn came. */
  function NewTickers(r: Router, st: string, symbols: seq<string>, interval: string, push: bool): seq<string> {
    if symbols == [] then [] else
      var before, c := symbols[..|symbols| - 1], symbols[|symbols| - 1];
      NewTickers(r, st, before, interval, push)
      + FirstTicker(SubscribeSymbols(r, st, before, interval, push), c)
  }

  function NewCandles(r: Router, st: string, symbols: seq<string>, interval: string, push: bool): seq<CandleKey> {
    if symbols == [] then [] else
      var before, k := symbols[..|symbols| - 1], CandleKey(symbols[|symbols| - 1], interval);
      NewCandles(r, st, before, interval, push)
      + FirstCandles(SubscribeSymbols(r, st, before, interval, push), k)
  }

  /** The streams of a list of tickers and a list of candle keys. */
  function Streams(tickers: seq<string>, keys: seq<CandleKey>): set<Stream> {
    (set c | c in tickers :: Ticker(c)) + (set k | k in keys :: Candles(k))
  }

  function TickerRequests(tickers: seq<string>): seq<Request> {
    if tickers == [] then [] else [Request(TICKERS, tickers, [])]
  }

  function CandleRequests(keys: seq<CandleKey>): seq<Request> {
    if keys == [] then [] else
      CandleRequests(keys[..|keys| - 1]) + [CandleRequest(keys[|keys| - 1])]
  }

  function CandleRequest(k: CandleKey): Request {
    Request(CANDLESTICKS, [k.contract], [k.interval])
  }

  function FirstTicker(r: Router, c: string): seq<string> {
    if Ref(r, c) == 0 then [c] else []
  }

  function FirstCandles(r: Router, k: CandleKey): seq<CandleKey> {
    if k !in r.candles then [k] else []
  }

  lemma SubscribedSymbol(r: Router, st: string, c: string, interval: string, push: bool)
    ensures Wanted(SubscribeSymbol(r, st, c, interval, push)) ==
      Wanted(r) + Streams(FirstTicker(r, c), FirstCandles(r, CandleKey(c, interval)))
  {
    var k := CandleKey(c, interval);
    assert Wanted(SubscribeSymbol(r, st, c, interval, push)) == Wanted(r) + {Ticker(c), Candles(k)};
    assert Ref(r, c) != 0 ==> Ticker(c) in Wanted(r);
    assert k in r.candles ==> Candles(k) in Wanted(r);
    assert Streams(FirstTicker(r, c), FirstCandles(r, k)) <= {Ticker(c), Candles(k)};
    assert Ref(r, c) == 0 ==> Ticker(c) in Streams(FirstTicker(r, c), FirstCandles(r, k));
    assert k !in r.candles ==> Candles(k) in Streams(FirstTicker(r, c), FirstCandles(r, k));
  }

  lemma StreamsSnoc(tickers: seq<string>, keys: seq<CandleKey>, ts: seq<string>, ks: seq<CandleKey>)
    ensures Streams(tickers + ts, keys + ks) == Streams(tickers, keys) + Streams(ts, ks)
  {
  }

  /** A subscription asks for exactly the streams the router gains. */
  lemma {:induction false} SubscribedStreams(r: Router, st: string, symbols: seq<string>, interval: string, push: bool)
    ensures Wanted(SubscribeSymbols(r, st, symbols, interval, push)) ==
      Wanted(r) + Streams(NewTickers(r, st, symbols, interval, push), NewCandles(r, st, symbols, interval, push))
  {
    if symbols == [] {
      assert Streams([], []) == {};
    } else {
      var before, c := symbols[..|symbols| - 1], symbols[|symbols| - 1];
      SubscribedStreams(r, st, before, interval, push);
      var mid := SubscribeSymbols(r, st, before, interval, push);
      SubscribedSymbol(mid, st, c, interval, push);
      var nt, nc := NewTickers(r, st, before, interval, push), NewCandles(r, st, before, interval, push);
      var ts, ks := FirstTicker(mid, c), FirstCandles(mid, CandleKey(c, interval));
      StreamsSnoc(nt, nc, ts, ks);
      UnionAssociates(Wanted(r), Streams(nt, nc), Streams(ts, ks));
    }
  }

  lemma UnionAssociates<T>(a: set<T>, b: set<T>, c: set<T>)
    ensures a + b + c == a + (b + c)
  {
  }

  lemma {:induction false} NewStreamsNamed(r: Router, st: string, symbols: seq<string>, interval: string, push: bool)
    ensures forall c :: c in NewTickers(r, st, symbols, interval, push) ==> c in symbols
    ensures forall k :: k in NewCandles(r, st, symbols, interval, push) ==> k.contract in symbols && k.interval == interval
  {
    if symbols != [] {
      NewStreamsNamed(r, st, symbols[..|symbols| - 1], interval, push);
    }
  }

  /** After subscribing, what was held before and what was listed is held. */
  lemma {:induction false} HeldAfter(r: Router, st: string, symbols: seq<string>, interval: string, push: bool, c: string)
    ensures var t := SubscribeSymbols(r, st, symbols, interval, push);
      && (Ref(t, c) == 0 <==> Ref(r, c) == 0 && c !in symbols)
      && (CandleKey(c, interval) in t.candles <==> CandleKey(c, interval) in r.candles || c in symbols)
  {
    if symbols != [] {
      var before, last := symbols[..|symbols| - 1], symbols[|symbols| - 1];
      assert symbols == before + [last];
      HeldAfter(r, st, before, interval, push, c);
    }
  }

  lemma CountSnoc<T>(s: seq<T>, t: seq<T>, x: T)
    requires |t| <= 1
    ensures multiset(s + t)[x] == multiset(s)[x] + if t != [] && t[0] == x then 1 else 0
  {
  }

  /** A subscription asks for a listed contract's ticker and candles once if they are new, and not at all if not. */
  lemma {:induction false} AsksOnce(r: Router, st: string, symbols: seq<string>, interval: string, push: bool, c: string)
    ensures multiset(NewTickers(r, st, symbols, interval, push))[c] == if c in symbols && Ref(r, c) == 0 then 1 else 0
    ensures multiset(NewCandles(r, st, symbols, interval, push))[CandleKey(c, interval)] ==
      if c in symbols && CandleKey(c, interval) !in r.candles then 1 else 0
  {
    if symbols != [] {
      var before, last := symbols[..|symbols| - 1], symbols[|symbols| - 1];
      assert symbols == before + [last];
      var nt, nc := NewTickers(r, st, before, interval, push), NewCandles(r, st, before, interval, push);
      var mid := SubscribeSymbols(r, st, before, interval, push);
      AsksOnce(r, st, before, interval, push, c);
      HeldAfter(r, st, before, interval, push, c);
      CountSnoc(nt, FirstTicker(mid, last), c);
      CountSnoc(nc, FirstCandles(mid, CandleKey(last, interval)), CandleKey(c, interval));
    }
  }

  lemma UnsubscribedStreams(r: Router, st: string, tickers: seq<string>, keys: seq<CandleKey>)
    requires Elements(tickers) == r.refs.Keys - UnsubscribeStrategy(r, st).refs.Keys
    requires Elements(keys) == r.candles.Keys - UnsubscribeStrategy(r, st).candles.Keys
    ensures Wanted(UnsubscribeStrategy(r, st)) == Wanted(r) - Streams(tickers, keys)
    ensures Streams(tickers, keys) <= Wanted(r)
  {
    var t := UnsubscribeStrategy(r, st);
    forall s ensures s in Wanted(t) <==> s in Wanted(r) - Streams(tickers, keys) {
      match s
      case Ticker(c) => assert c in tickers <==> c in Elements(tickers);
      case Candles(k) => assert k in keys <==> k in Elements(keys);
    }
    forall s | s in Streams(tickers, keys) ensures s in Wanted(r) {
      match s
      case Ticker(c) => assert c in Elements(tickers);
      case Candles(k) => assert k in Elements(keys);
    }
  }

  // ---------------------------------------------------------------- from requests to frames

  lemma {:induction false} FramesSnoc(bs: seq<Batch>, frames: seq<Frame>)
    requires AllAccepted(bs)
    ensures AllAccepted(bs + [Some(frames)]) && AllFrames(bs + [Some(frames)]) == AllFrames(bs) + frames
  {
    if bs == [] {
      assert AllFrames([Some(frames)]) == frames + AllFrames([]);
    } else {
      FramesSnoc(bs[1..], frames);
      assert (bs + [Some(frames)])[1..] == bs[1..] + [Some(frames)];
    }
  }

  lemma BatchesSnoc(rs: seq<Request>, r: Request)
    ensures Batches(rs + [r]) == Batches(rs) + [BatchOf(r)]
  {
    assert (rs + [r])[..|rs|] == rs;
  }

  lemma TickerBatch(tickers: seq<string>)
    requires tickers != [] && forall c :: c in tickers ==> CleanSymbol(c)
    ensures BatchOf(Request(TICKERS, tickers, [])).Some?
    ensures Elements(BatchOf(Request(TICKERS, tickers, [])).value) == FramesOf(Streams(tickers, []))
  {
    var b := BatchOf(Request(TICKERS, tickers, []));
    TickerFrames(tickers);
    var streams := seq(|tickers|, i requires 0 <= i < |tickers| => Ticker(tickers[i]));
    ImageOfList(tickers, streams, c => Ticker(c));
    ImageOfList(streams, b.value, s => FrameOf(s));
    assert Streams(tickers, []) == Elements(streams);
  }

  lemma TickerFrames(tickers: seq<string>)
    requires tickers != [] && forall c :: c in tickers ==> CleanSymbol(c)
    ensures var b := BatchOf(Request(TICKERS, tickers, []));
      b.Some? && |b.value| == |tickers| && forall i :: 0 <= i < |tickers| ==> b.value[i] == FrameOf(Ticker(tickers[i]))
  {
    ChannelsDiffer();
    var b := BatchOf(Request(TICKERS, tickers, []));
    forall i | 0 <= i < |tickers| ensures b.value[i] == FrameOf(Ticker(tickers[i])) {
      assert CleanSymbol(tickers[i]);
    }
  }

  lemma CandleBatch(k: CandleKey)
    requires Clean(Candles(k))
    ensures BatchOf(CandleRequest(k)) == Some([FrameOf(Candles(k))])
  {
    ChannelsDiffer();
    var b := BatchOf(CandleRequest(k));
    assert b.Some? && |b.value| == 1 && b.value[0] == FrameOf(Candles(k));
    assert b.value == [b.value[0]];
  }

  lemma NoCandles(tickers: seq<string>)
    requires forall s :: s in Streams(tickers, []) ==> Clean(s)
    ensures AllAccepted(Batches(TickerRequests(tickers)))
    ensures Elements(AllFrames(Batches(TickerRequests(tickers)))) == FramesOf(Streams(tickers, []))
  {
    if tickers != [] {
      forall c | c in tickers ensures CleanSymbol(c) { assert Clean(Ticker(c)); }
      TickerBatch(tickers);
      var r := Request(TICKERS, tickers, []);
      BatchesSnoc([], r);
      assert [] + [r] == TickerRequests(tickers);
      FramesSnoc([], BatchOf(r).value);
      assert [] + BatchOf(r).value == BatchOf(r).value;
    }
  }

  lemma OneMoreCandle(rs: seq<Request>, k: CandleKey)
    requires AllAccepted(Batches(rs)) && Clean(Candles(k))
    ensures AllAccepted(Batches(rs + [CandleRequest(k)]))
    ensures Elements(AllFrames(Batches(rs + [CandleRequest(k)]))) == Elements(AllFrames(Batches(rs))) + {FrameOf(Candles(k))}
  {
    CandleBatch(k);
    BatchesSnoc(rs, CandleRequest(k));
    FramesSnoc(Batches(rs), [FrameOf(Candles(k))]);
  }

  /** The requests for clean streams are all accepted and write exactly their frames. */
  lemma {:induction false} RequestsWriteStreams(tickers: seq<string>, keys: seq<CandleKey>)
    requires forall s :: s in Streams(tickers, keys) ==> Clean(s)
    ensures var bs := Batches(TickerRequests(tickers) + CandleRequests(keys));
      AllAccepted(bs) && Elements(AllFrames(bs)) == FramesOf(Streams(tickers, keys))
  {
    if keys == [] {
      assert TickerRequests(tickers) + [] == TickerRequests(tickers);
      NoCandles(tickers);
    } else {
      var before, k := keys[..|keys| - 1], keys[|keys| - 1];
      StreamsMore(tickers, before, k);
      assert keys == before + [k];
      RequestsWriteStreams(tickers, before);
      var rs := TickerRequests(tickers) + CandleRequests(before);
      OneMoreCandle(rs, k);
      assert TickerRequests(tickers) + CandleRequests(keys) == rs + [CandleRequest(k)];
      FramesOfMore(Streams(tickers, before), Candles(k));
    }
  }

  lemma StreamsMore(tickers: seq<string>, keys: seq<CandleKey>, k: CandleKey)
    ensures Streams(tickers, keys + [k]) == Streams(tickers, keys) + {Candles(k)}
  {
  }

  lemma FramesOfMore(streams: set<Stream>, s: Stream)
    ensures FramesOf(streams + {s}) == FramesOf(streams) + {FrameOf(s)}
  {
  }

  /** A successful write of the requests moves the hub by exactly those streams. */
  lemma WrittenRequestsAgree(want: set<Stream>, a: Active, tickers: seq<string>, keys: seq<CandleKey>, track: bool)
    requires Agrees(FramesOf(want), a)
    requires forall s :: s in want || s in Streams(tickers, keys) ==> Clean(s)
    ensures var frames := AllFrames(Batches(TickerRequests(tickers) + CandleRequests(keys)));
      Agrees(FramesOf(Wish(want, Streams(tickers, keys), track)), UpdateAll(a, frames, track))
  {
    RequestsWriteStreams(tickers, keys);
    CleanStreams(want, Streams(tickers, keys), track);
    UpdateAllAgrees(FramesOf(want), a, AllFrames(Batches(TickerRequests(tickers) + CandleRequests(keys))), track);
  }

  // ---------------------------------------------------------------- whole runs

  /** A router call with the streams it wrote, in the order they were written. */
  datatype Call = Call(op: Op, tickers: seq<string>, keys: seq<CandleKey>)

  /** The lists a call writes; an unsubscription writes what it drops in any order. */
  ghost predicate Writes(r: Router, call: Call) {
    match call.op
    case Subscribe(st, symbols, interval, push) =>
      call.tickers == NewTickers(r, st, symbols, interval, push) && call.keys == NewCandles(r, st, symbols, interval, push)
    case Unsubscribe(st) =>
      var t := UnsubscribeStrategy(r, st);
      Elements(call.tickers) == r.refs.Keys - t.refs.Keys && Elements(call.keys) == r.candles.Keys - t.candles.Keys
  }

  function RouterAfter(calls: seq<Call>): Router {
    if calls == [] then EMPTY else ApplyOp(RouterAfter(calls[..|calls| - 1]), calls[|calls| - 1].op)
  }

  /** What the hub tracks after a run of calls whose writes all succeed. */
  function Tracked(calls: seq<Call>): Active {
    if calls == [] then map[] else WriteCall(Tracked(calls[..|calls| - 1]), calls[|calls| - 1])
  }

  /** Canonical comma-free symbols and a trimmed interval. */
  predicate CleanArguments(op: Op) {
    op.Subscribe? ==> op.interval != "" && Trimmed(op.interval) && forall c :: c in op.symbols ==> CleanSymbol(c)
  }

  /** Every call writes what the router then asks for and names canonical comma-free symbols. */
  ghost predicate Genuine(calls: seq<Call>) {
    calls != [] ==>
      var before, last := calls[..|calls| - 1], calls[|calls| - 1];
      Genuine(before) && Writes(RouterAfter(before), last) && CleanArguments(last.op)
  }

  ghost predicate AllClean(streams: set<Stream>) {
    forall s :: s in streams ==> Clean(s)
  }

  lemma CallStreamsClean(r: Router, call: Call)
    requires AllClean(Wanted(r)) && Writes(r, call) && CleanArguments(call.op)
    ensures AllClean(Streams(call.tickers, call.keys))
    ensures Wanted(ApplyOp(r, call.op)) == Wish(Wanted(r), Streams(call.tickers, call.keys), call.op.Subscribe?)
  {
    match call.op
    case Subscribe(st, symbols, interval, push) =>
      NewStreamsNamed(r, st, symbols, interval, push);
      SubscribedStreams(r, st, symbols, interval, push);
    case Unsubscribe(st) =>
      UnsubscribedStreams(r, st, call.tickers, call.keys);
  }

  ghost predicate LayersAgree(r: Router, a: Active) {
    AllClean(Wanted(r)) && KeysMatch(a) && Agrees(FramesOf(Wanted(r)), a)
  }

  function WriteCall(a: Active, call: Call): Active {
    UpdateAll(a, AllFrames(Batches(TickerRequests(call.tickers) + CandleRequests(call.keys))), call.op.Subscribe?)
  }

  lemma OneMoreCall(r: Router, a: Active, call: Call)
    requires LayersAgree(r, a) && Writes(r, call) && CleanArguments(call.op)
    ensures LayersAgree(ApplyOp(r, call.op), WriteCall(a, call))
  {
    CallStreamsClean(r, call);
    WrittenRequestsAgree(Wanted(r), a, call.tickers, call.keys, call.op.Subscribe?);
    KeysMatchAll(a, AllFrames(Batches(TickerRequests(call.tickers) + CandleRequests(call.keys))), call.op.Subscribe?);
    assert AllClean(Wish(Wanted(r), Streams(call.tickers, call.keys), call.op.Subscribe?));
  }

  /**
   * Agreement across the layers: after any run of calls the hub's tickers and candlesticks are
   * exactly the expansions of the router's reference and subscriber tables.
   */
  lemma {:induction false} AgreementOverRuns(calls: seq<Call>)
    requires Genuine(calls)
    ensures LayersAgree(RouterAfter(calls), Tracked(calls))
  {
    if calls == [] {
      EmptyAgrees();
    } else {
      var before, last := calls[..|calls| - 1], calls[|calls| - 1];
      AgreementOverRuns(before);
      OneMoreCall(RouterAfter(before), Tracked(before), last);
    }
  }

  lemma EmptyAgrees()
    ensures LayersAgree(EMPTY, map[])
  {
    assert Wanted(EMPTY) == {};
  }

  /** What a successful reconnect replays on the market-data channels is what the router wants, failed writes aside. */
  lemma ReplayIsWanted(want: set<Frame>, a: Active, replayed: seq<Frame>, accepts: Frame -> bool)
    requires Agrees(want, a) && ListsAccepted(replayed, a, accepts)
    ensures forall f: Frame :: f.channel == TICKERS || f.channel == CANDLESTICKS ==>
      (f in replayed <==> f in want && accepts(f))
    ensures forall f :: f in want && accepts(f) ==> f in replayed
  {
    forall f | f in replayed && (f.channel == TICKERS || f.channel == CANDLESTICKS) ensures f in want {
      var g :| g in want && g.channel == f.channel && SubKey(g) == SubKey(f);
      assert g == f;
    }
  }

  // ---------------------------------------------------------------- the router

  class Feed {
    var refs: map<string, nat>
    var pushes: map<string, set<string>>
    var candles: map<CandleKey, set<string>>
    const hub: Hub

    constructor (hub: Hub)
      ensures View() == EMPTY && this.hub == hub
    {
      refs, pushes, candles := map[], map[], map[];
      this.hub := hub;
    }

    function View(): Router
      reads this
    {
      Router(refs, pushes, candles)
    }

    /** The hub tracks exactly the router's streams, all of them with unambiguous keys. */
    ghost predicate Consistent()
      reads this, hub
    {
      && (forall s :: s in Wanted(View()) ==> Clean(s))
      && Agrees(FramesOf(Wanted(View())), hub.active)
    }

    method SubscribeSymbol(st: string, c: string, interval: string, push: bool) returns (ts: seq<string>, ks: seq<CandleKey>)
      modifies this
      ensures View() == Subscriptions.SubscribeSymbol(old(View()), st, c, interval, push)
      ensures ts == FirstTicker(old(View()), c) && ks == FirstCandles(old(View()), CandleKey(c, interval))
    {
      ts, ks := [], [];
      if c !in refs || refs[c] == 0 { ts := [c]; }
      refs := refs[c := Ref(View(), c) + 1];
      if push {
        pushes := AddMember(pushes, c, st);
      }
      var key := CandleKey(c, interval);
      if key !in candles { ks := [key]; }
      candles := AddMember(candles, key, st);
    }

    /** Counts every symbol, then asks the hub for the streams nobody had asked for. */
    method SubscribeContracts(st: string, symbols: seq<string>, interval: string, push: bool, accepts: nat) returns (ok: bool)
      modifies this, hub`active
      ensures View() == SubscribeSymbols(old(View()), st, symbols, interval, push)
      ensures var streams := Streams(NewTickers(old(View()), st, symbols, interval, push),
                                     NewCandles(old(View()), st, symbols, interval, push));
        && (streams == {} ==> ok && hub.active == old(hub.active))
        && (ok && old(Consistent()) && (forall s :: s in streams ==> Clean(s)) ==> Consistent())
    {
      var newTickers, newCandles := [], [];
      ghost var r := View();
      for i := 0 to |symbols|
        invariant View() == SubscribeSymbols(r, st, symbols[..i], interval, push)
        invariant newTickers == NewTickers(r, st, symbols[..i], interval, push)
        invariant newCandles == NewCandles(r, st, symbols[..i], interval, push)
        invariant hub.active == old(hub.active)
      {
        assert symbols[..i + 1][..i] == symbols[..i];
        var ts, ks := SubscribeSymbol(st, symbols[i], interval, push);
        newTickers, newCandles := newTickers + ts, newCandles + ks;
      }
      assert symbols[..|symbols|] == symbols;
      SubscribedStreams(r, st, symbols, interval, push);
      ok := AskHub(newTickers, newCandles, true, accepts, Wanted(r));
      if newTickers != [] { assert Ticker(newTickers[0]) in Streams(newTickers, newCandles); }
      if newCandles != [] { assert Candles(newCandles[0]) in Streams(newTickers, newCandles); }
    }

    /** One request for all tickers and one for each candle key; none if there is nothing to ask. */
    method AskHub(tickers: seq<string>, keys: seq<CandleKey>, track: bool, accepts: nat, ghost want: set<Stream>) returns (ok: bool)
      modifies hub`active
      ensures tickers == [] && keys == [] ==> ok && hub.active == old(hub.active)
      ensures ok && Agrees(FramesOf(want), old(hub.active)) && (forall s :: s in want || s in Streams(tickers, keys) ==> Clean(s)) ==>
        Agrees(FramesOf(Wish(want, Streams(tickers, keys), track)), hub.active)
    {
      var requests := [];
      if tickers != [] { requests := [Request(TICKERS, tickers, [])]; }
      for i := 0 to |keys|
        invariant requests == TickerRequests(tickers) + CandleRequests(keys[..i])
      {
        assert keys[..i + 1][..i] == keys[..i];
        requests := requests + [Request(CANDLESTICKS, [keys[i].contract], [keys[i].interval])];
      }
      assert keys[..|keys|] == keys;
      if requests == [] {
        assert tickers == [] && Streams(tickers, keys) == {} by { NoRequests(tickers, keys); }
        assert Wish(want, {}, track) == want;
        return true;
      }
      ok := hub.SetSubscriptions(requests, track, accepts);
      if ok && Agrees(FramesOf(want), old(hub.active)) && (forall s :: s in want || s in Streams(tickers, keys) ==> Clean(s)) {
        WrittenRequestsAgree(want, old(hub.active), tickers, keys, track);
      }
    }

    /** Drops one reference per contract the strategy holds, then all its memberships. */
    method UnsubscribeAll(st: string, accepts: nat) returns (ok: bool)
      modifies this, hub`active
      ensures View() == UnsubscribeStrategy(old(View()), st)
      ensures ok && old(Consistent()) ==> Consistent()
    {
      ghost var r := View();
      var unsubTickers := DecTickerRefs(st);
      var unsubCandles;
      candles, unsubCandles := DropStrategy(candles, st);
      var dropped;
      pushes, dropped := DropStrategy(pushes, st);
      UnsubscribedStreams(r, st, unsubTickers, unsubCandles);
      ok := AskHub(unsubTickers, unsubCandles, false, accepts, Wanted(r));
    }

    method DecTickerRefs(st: string) returns (unsub: seq<string>)
      modifies this`refs
      ensures refs == UnsubscribeStrategy(old(View()), st).refs
      ensures Elements(unsub) == old(refs.Keys) - refs.Keys
    {
      var held := HeldContracts(st);
      ghost var was := refs;
      unsub := [];
      var left := held;
      while left != {}
        invariant left <= held
        invariant refs == DecRefs(was, held - left)
        invariant forall c :: c in unsub <==> c in was && c !in refs
        decreases left
      {
        var c :| c in left;
        var gone := DecTickerRef(c);
        unsub := unsub + gone;
        assert DecRefs(DecRefs(was, held - left), {c}) == DecRefs(was, held - (left - {c}));
        left := left - {c};
      }
      assert held - {} == held;
    }

    method DecTickerRef(c: string) returns (unsub: seq<string>)
      modifies this`refs
      ensures refs == DecRefs(old(refs), {c})
      ensures unsub == if c in old(refs) && c !in refs then [c] else []
    {
      unsub := [];
      if c in refs && refs[c] > 0 {
        if refs[c] == 1 {
          refs := refs - {c};
          unsub := [c];
        } else {
          refs := refs[c := refs[c] - 1];
        }
      }
    }

    method HeldContracts(st: string) returns (held: set<string>)
      ensures held == Held(View(), st)
    {
      held := {};
      var keys := candles.Keys;
      while keys != {}
        invariant keys <= candles.Keys
        invariant held == set k | k in candles && k !in keys && st in candles[k] :: k.contract
        decreases keys
      {
        var k :| k in keys;
        keys := keys - {k};
        if st in candles[k] { held := held + {k.contract}; }
      }
    }
  }

  lemma NoRequests(tickers: seq<string>, keys: seq<CandleKey>)
    requires TickerRequests(tickers) + CandleRequests(keys) == []
    ensures tickers == [] && keys == [] && Streams(tickers, keys) == {}
  {
    assert |CandleRequests(keys)| == 0 && |TickerRequests(tickers)| == 0;
  }

  method AddMember<K(==)>(m: map<K, set<string>>, k: K, st: string) returns (r: map<K, set<string>>)
    ensures r == m[k := Subscribers(m, k) + {st}]
  {
    r := m;
    if k !in r { r := r[k := {}]; }
    r := r[k := r[k] + {st}];
  }

  /** Removes a strategy from every entry of a table, and the entries left empty. */
  method DropStrategy<K(==)>(m: map<K, set<string>>, st: string) returns (rest: map<K, set<string>>, removed: seq<K>)
    ensures rest == Dropped(m, st)
    ensures Elements(removed) == m.Keys - rest.Keys
  {
    rest, removed := m, [];
    var keys := m.Keys;
    while keys != {}
      invariant keys <= m.Keys
      invariant rest.Keys <= m.Keys && keys <= rest.Keys
      invariant forall k :: k in keys ==> rest[k] == m[k]
      invariant forall k :: k in m && k !in keys ==> (k in rest <==> m[k] - {st} != {}) && (k in rest ==> rest[k] == m[k] - {st})
      invariant forall k :: k in removed <==> k in m && k !in rest
      decreases keys
    {
      var k :| k in keys;
      keys := keys - {k};
      var others := rest[k] - {st};
      if others == {} {
        rest := rest - {k};
        removed := removed + [k];
      } else {
        rest := rest[k := others];
      }
    }
  }
}
