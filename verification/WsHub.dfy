/** The websocket hub's subscription bookkeeping and its replay after a reconnect. */
module WsHub {
  import opened Wrappers
  import opened Contract
  import opened Strings
  import opened Subscriptions

  /** The frames of one request; None if it is refused. */
  function BatchOf(r: Request): Option<seq<Frame>> {
    var channel := NormalizeChannel(r.channel);
    match Expand(channel, r)
    case None => None
    case Some(payloads) => Some(seq(|payloads|, i requires 0 <= i < |payloads| => Frame(channel, payloads[i])))
  }

  /** A blank channel means tickers, and blanks around a channel's name do not matter. */
  lemma ChannelDefaults(r: Request)
    ensures TrimSpace(r.channel) == "" ==> BatchOf(r) == BatchOf(r.(channel := "futures.tickers"))
    ensures TrimSpace(r.channel) != "" ==> BatchOf(r) == BatchOf(r.(channel := TrimSpace(r.channel)))
  {
    ChannelsDiffer();
  }

  /** Requests without contracts, of unknown channels, or of candlesticks without an interval are refused. */
  lemma RefusedIff(r: Request)
    requires TrimSpace(r.channel) == r.channel && r.channel != ""
    ensures BatchOf(r).None? <==>
      || r.contracts == []
      || !(r.channel == "futures.tickers"
           || (r.channel == "futures.candlesticks" && r.payload != [] && TrimSpace(r.payload[0]) != ""))
  {
  }

  /** One frame per contract, in order: its exchange name, behind the trimmed interval for candlesticks. */
  lemma FramesOfRequest(r: Request, i: nat)
    requires TrimSpace(r.channel) == r.channel && r.channel != "" && BatchOf(r).Some? && i < |r.contracts|
    ensures var frames := BatchOf(r).value;
      && |frames| == |r.contracts|
      && frames[i] == Frame(r.channel, if r.channel == "futures.tickers" then [ToGateContract(r.contracts[i])]
                                       else [TrimSpace(r.payload[0]), ToGateContract(r.contracts[i])])
  {
    CanonicalIdempotent(r.contracts[i]);
  }

  type Batch = Option<seq<Frame>>

  function Batches(rs: seq<Request>): seq<Batch> {
    if rs == [] then [] else Batches(rs[..|rs| - 1]) + [BatchOf(rs[|rs| - 1])]
  }

  predicate AllAccepted(bs: seq<Batch>) {
    bs == [] || (bs[0].Some? && AllAccepted(bs[1..]))
  }

  /** The frames of a list of batches, up to the first refused one. */
  function AllFrames(bs: seq<Batch>): seq<Frame> {
    if bs == [] || bs[0].None? then [] else bs[0].value + AllFrames(bs[1..])
  }

  function Prefix(frames: seq<Frame>, n: nat): seq<Frame> {
    if n < |frames| then frames[..n] else frames
  }

  lemma PrefixSplit(done: seq<Frame>, written: seq<Frame>, batch: seq<Frame>, tail: seq<Frame>)
    requires written <= batch
    ensures Prefix(done + (batch + tail), |done| + |written|) == done + written
    ensures written == batch ==> done + (batch + tail) == (done + written) + tail
  {
  }

  /** Every key is the one its payload is stored under. */
  ghost predicate KeysMatch(a: Active) {
    forall ch, key :: Lookup(a, ch, key).Some? ==> key == SubKey(Frame(ch, Lookup(a, ch, key).value))
  }

  lemma KeysMatchUpdated(a: Active, f: Frame, track: bool)
    requires KeysMatch(a)
    ensures KeysMatch(Update(a, f, track))
  {
    var a' := Update(a, f, track);
    forall ch, key | Lookup(a', ch, key).Some? ensures key == SubKey(Frame(ch, Lookup(a', ch, key).value)) {
      LookupUpdated(a, f, track, ch, key);
    }
  }

  lemma {:induction false} KeysMatchAll(a: Active, frames: seq<Frame>, track: bool)
    requires KeysMatch(a)
    ensures KeysMatch(UpdateAll(a, frames, track))
  {
    if frames != [] {
      KeysMatchAll(a, frames[..|frames| - 1], track);
      KeysMatchUpdated(UpdateAll(a, frames[..|frames| - 1], track), frames[|frames| - 1], track);
    }
  }

  /** No channel is kept without a subscription. */
  predicate NoEmptyChannels(a: Active) {
    forall ch :: ch in a ==> a[ch] != map[]
  }

  /** Whatever frames are written, a channel leaves the table with its last subscription. */
  lemma {:induction false} ChannelsLeave(a: Active, frames: seq<Frame>, track: bool)
    requires NoEmptyChannels(a)
    ensures NoEmptyChannels(UpdateAll(a, frames, track))
  {
    if frames != [] {
      var before, f := UpdateAll(a, frames[..|frames| - 1], track), frames[|frames| - 1];
      ChannelsLeave(a, frames[..|frames| - 1], track);
      ChannelStays(before, f);
    }
  }

  lemma ChannelStays(a: Active, f: Frame)
    requires NoEmptyChannels(a)
    ensures NoEmptyChannels(Track(a, f)) && NoEmptyChannels(Untrack(a, f))
  {
    assert SubKey(f) in Track(a, f)[f.channel];
  }

  /** `frames` lists every tracked subscription exactly once. */
  ghost predicate Lists(frames: seq<Frame>, a: Active) {
    && (forall i, j :: 0 <= i < j < |frames| ==> frames[i] != frames[j])
    && (forall f :: f in frames <==> Lookup(a, f.channel, SubKey(f)) == Some(f.payload))
  }

  /** `frames` lists every tracked subscription the connection accepts exactly once, and no other. */
  ghost predicate ListsAccepted(frames: seq<Frame>, a: Active, accepts: Frame -> bool) {
    && (forall i, j :: 0 <= i < j < |frames| ==> frames[i] != frames[j])
    && (forall f :: f in frames <==> Lookup(a, f.channel, SubKey(f)) == Some(f.payload) && accepts(f))
  }

  /** How the dial of a reconnect ends. */
  datatype Dial = Cancelled | Refused | Connected

  class Hub {
    var connected: bool
    var active: Active
    var backoff: nat
    const maxBackoff: nat

    constructor (maxBackoff: nat)
      ensures !connected && active == map[] && backoff == 1 && this.maxBackoff == maxBackoff
    {
      connected, active, backoff := false, map[], 1;
      this.maxBackoff := maxBackoff;
    }

    /** Writes the frames of one request and tracks each once written. */
    method WriteFrames(frames: seq<Frame>, track: bool, accepts: nat) returns (written: nat)
      modifies this`active
      ensures written == if accepts < |frames| then accepts else |frames|
      ensures active == UpdateAll(old(active), frames[..written], track)
    {
      written := 0;
      while written < |frames|
        invariant written <= accepts && written <= |frames|
        invariant active == UpdateAll(old(active), frames[..written], track)
      {
        if written == accepts { return; }
        active := Update(active, frames[written], track);
        assert frames[..written + 1][..written] == frames[..written];
        written := written + 1;
      }
    }

    /**
     * Writes the batches in order up to the first refused one; `accepts` is the number of writes
     * the connection takes before it fails.
     */
    method WriteBatches(batches: seq<Batch>, track: bool, accepts: nat) returns (ok: bool)
      modifies this`active
      ensures active == UpdateAll(old(active), Prefix(AllFrames(batches), accepts), track)
      ensures ok <==> AllAccepted(batches) && accepts >= |AllFrames(batches)|
    {
      ghost var done: seq<Frame> := [];
      var left := accepts;
      var rest := batches;
      while rest != []
        invariant left >= 0 && |done| + left == accepts
        invariant AllFrames(batches) == done + AllFrames(rest)
        invariant AllAccepted(rest) <==> AllAccepted(batches)
        invariant active == UpdateAll(old(active), done, track)
        decreases |rest|
      {
        ghost var tail := AllFrames(rest[1..]);
        if rest[0].None? {
          assert AllFrames(batches) == done;
          return false;
        }
        var n := WriteFrames(rest[0].value, track, left);
        ghost var written := rest[0].value[..n];
        UpdateAllConcat(old(active), done, written, track);
        PrefixSplit(done, written, rest[0].value, tail);
        if n < |rest[0].value| {
          assert Prefix(AllFrames(batches), accepts) == done + written;
          return false;
        }
        done := done + written;
        left := left - n;
        rest := rest[1..];
      }
      assert AllFrames(batches) == done;
      ok := true;
    }

    method SetSubscriptions(requests: seq<Request>, track: bool, accepts: nat) returns (ok: bool)
      modifies this`active
      ensures !connected ==> !ok && active == old(active)
      ensures connected ==>
        && active == UpdateAll(old(active), Prefix(AllFrames(Batches(requests)), accepts), track)
        && (ok <==> AllAccepted(Batches(requests)) && accepts >= |AllFrames(Batches(requests))|)
    {
      if !connected { return false; }
      var batches := [];
      for i := 0 to |requests|
        invariant batches == Batches(requests[..i])
      {
        assert requests[..i + 1][..i] == requests[..i];
        batches := batches + [BatchOf(requests[i])];
      }
      assert requests[..|requests|] == requests;
      ok := WriteBatches(batches, track, accepts);
    }

    /** Closes the connection, dials again and replays what is tracked; a failed write is passed over. */
    method ReconnectAfterError(dial: Dial, accepts: Frame -> bool) returns (ok: bool, replayed: seq<Frame>)
      requires KeysMatch(active)
      modifies this`connected, this`backoff
      ensures ok == connected == dial.Connected?
      ensures ok ==> ListsAccepted(replayed, active, accepts) && backoff == 1
      ensures !ok ==> replayed == []
      ensures dial.Refused? ==> backoff == if 2 * old(backoff) > maxBackoff then maxBackoff else 2 * old(backoff)
      ensures dial.Cancelled? ==> backoff == old(backoff)
    {
      connected := false;
      match dial
      case Cancelled => return false, [];
      case Refused =>
        backoff := 2 * backoff;
        if backoff > maxBackoff { backoff := maxBackoff; }
        return false, [];
      case Connected =>
        connected := true;
        backoff := 1;
        var frames := Snapshot();
        replayed := Replay(frames, accepts);
        ok := true;
    }

    method Replay(frames: seq<Frame>, accepts: Frame -> bool) returns (written: seq<Frame>)
      requires forall i, j :: 0 <= i < j < |frames| ==> frames[i] != frames[j]
      ensures forall i, j :: 0 <= i < j < |written| ==> written[i] != written[j]
      ensures forall f :: f in written <==> f in frames && accepts(f)
    {
      written := [];
      for i := 0 to |frames|
        invariant forall k, j :: 0 <= k < j < |written| ==> written[k] != written[j]
        invariant forall f :: f in written <==> f in frames[..i] && accepts(f)
      {
        assert frames[..i + 1] == frames[..i] + [frames[i]];
        if accepts(frames[i]) {
          written := written + [frames[i]];
        }
      }
      assert frames[..|frames|] == frames;
    }

    method Snapshot() returns (frames: seq<Frame>)
      requires KeysMatch(active)
      ensures Lists(frames, active)
    {
      frames := [];
      var channels := active.Keys;
      while channels != {}
        invariant channels <= active.Keys
        invariant Lists(frames, active - channels)
        decreases channels
      {
        var ch :| ch in channels;
        var list := ChannelFrames(ch);
        ghost var rest := active - channels;
        forall f ensures f in frames + list <==> Lookup(active - (channels - {ch}), f.channel, SubKey(f)) == Some(f.payload) {
          assert f in frames <==> Lookup(rest, f.channel, SubKey(f)) == Some(f.payload);
        }
        frames := frames + list;
        channels := channels - {ch};
      }
      assert active - channels == active;
    }

    method ChannelFrames(ch: string) returns (frames: seq<Frame>)
      requires KeysMatch(active) && ch in active
      ensures forall i, j :: 0 <= i < j < |frames| ==> frames[i] != frames[j]
      ensures forall f :: f in frames <==> f.channel == ch && Lookup(active, ch, SubKey(f)) == Some(f.payload)
    {
      frames := [];
      var keys := active[ch].Keys;
      while keys != {}
        invariant keys <= active[ch].Keys
        invariant forall i, j :: 0 <= i < j < |frames| ==> frames[i] != frames[j]
        invariant forall f :: f in frames <==>
          f.channel == ch && SubKey(f) !in keys && Lookup(active, ch, SubKey(f)) == Some(f.payload)
        decreases keys
      {
        var key :| key in keys;
        var frame := Frame(ch, active[ch][key]);
        assert Lookup(active, ch, key).Some?;
        assert SubKey(frame) == key;
        frames := frames + [frame];
        keys := keys - {key};
      }
    }
  }
}
