/** The perpetual-futures executor: the tag table it shares with its pump and its bounded event queue. */
module PerpExecutor {
  import opened Wrappers
  import opened Strings
  import opened Orders
  import opened OmsProtocol

  /** The exchange's answer to a Place request. */
  datatype PlaceReply = Failed | NoResponse | Opened(exchangeId: string)

  class Executor {
    const cfg: Config
    var tagToLocal: map<string, string>
    var orderEvents: seq<Report>

    constructor (cfg: Config)
      ensures this.cfg == cfg && AsPipe() == Pipe(Waiting, [], map[])
    {
      this.cfg, tagToLocal, orderEvents := cfg, map[], [];
    }

    /** The executor between two user-stream events. */
    ghost function AsPipe(): Pipe
      reads this
    {
      Pipe(Waiting, orderEvents, tagToLocal)
    }

    method RegisterClientTag(localId: string)
      modifies this`tagToLocal
      ensures tagToLocal == if localId == "" || cfg.tag(localId) == "" then old(tagToLocal)
                            else old(tagToLocal)[cfg.tag(localId) := localId]
    {
      if localId == "" {
        return;
      }
      var tag := cfg.tag(localId);
      if tag == "" {
        return;
      }
      tagToLocal := tagToLocal[tag := localId];
    }

    method UnregisterClientTag(clientTag: string)
      modifies this`tagToLocal
      ensures tagToLocal == if TrimSpace(clientTag) == "" then old(tagToLocal) else old(tagToLocal) - {TrimSpace(clientTag)}
    {
      var tag := TrimSpace(clientTag);
      if tag == "" {
        return;
      }
      tagToLocal := tagToLocal - {tag};
    }

    method ResolveLocalClientId(clientTag: string) returns (localId: string)
      ensures localId == LookUp(cfg, tagToLocal, TrimSpace(clientTag))
      ensures TrimSpace(clientTag) == "" ==> localId == ""
      ensures TrimSpace(clientTag) != "" ==>
        localId == if TrimSpace(clientTag) in tagToLocal then tagToLocal[TrimSpace(clientTag)] else cfg.decode(TrimSpace(clientTag))
    {
      var tag := TrimSpace(clientTag);
      if tag == "" {
        return "";
      }
      if tag in tagToLocal {
        return tagToLocal[tag];
      }
      localId := cfg.decode(tag);
    }

    /** Never blocks: a full queue drops the event. */
    method EmitOrderEvent(ev: Report) returns (ghost dropped: bool)
      requires |orderEvents| <= EVENT_BUFFER
      modifies this`orderEvents
      ensures dropped <==> |old(orderEvents)| == 64
      ensures |orderEvents| <= EVENT_BUFFER
      ensures orderEvents == if dropped then old(orderEvents) else old(orderEvents) + [ev]
    {
      dropped := |orderEvents| == EVENT_BUFFER;
      if |orderEvents| < EVENT_BUFFER {
        orderEvents := orderEvents + [ev];
      }
    }

    /**
     * The pump's handling of one order update is the protocol's three pump steps on the trimmed tag,
     * and it drops the event exactly when the queue is full.
     */
    method PumpOne(update: Report) returns (ghost dropped: bool)
      requires |orderEvents| <= EVENT_BUFFER
      modifies this
      ensures |orderEvents| <= EVENT_BUFFER
      ensures dropped <==> |old(orderEvents)| == EVENT_BUFFER
      ensures var resolved := Resolving(cfg, old(AsPipe()), update.(key := TrimSpace(update.key)));
        MayEmit(resolved, dropped) && AsPipe() == Unregistering(Emitting(resolved, dropped))
      ensures tagToLocal == if TrimSpace(update.key) != "" && update.view.status in {Filled, Cancelled, Rejected}
                            then old(tagToLocal) - {TrimSpace(update.key)} else old(tagToLocal)
      ensures !dropped ==> |orderEvents| == |old(orderEvents)| + 1 && old(orderEvents) <= orderEvents
      ensures var local := LookUp(cfg, old(tagToLocal), TrimSpace(update.key));
        !dropped ==> orderEvents[|orderEvents| - 1] == Report(update.exchangeId, local, update.view, update.at)
    {
      var clientTag := TrimSpace(update.key);
      var localId := ResolveLocalClientId(clientTag);
      dropped := EmitOrderEvent(update.(key := localId));
      if clientTag != "" && Terminal(update.view.status) {
        UnregisterClientTag(clientTag);
      }
    }

    /** A success registers the order's tag before the engine learns the exchange ID. */
    method Place(id: string, reply: PlaceReply) returns (exchangeId: Option<string>)
      modifies this`tagToLocal
      ensures exchangeId == if reply.Opened? then Some(reply.exchangeId) else None
      ensures !reply.Opened? || id == "" || cfg.tag(id) == "" ==> tagToLocal == old(tagToLocal)
      ensures reply.Opened? && id != "" && cfg.tag(id) != "" ==> tagToLocal == old(tagToLocal)[cfg.tag(id) := id]
    {
      match reply
      case Failed => exchangeId := None;
      case NoResponse => exchangeId := None;
      case Opened(x) =>
        RegisterClientTag(id);
        exchangeId := Some(x);
    }
  }
}
