/** The whole server, run to completion: every completion handler and every posted closure is one
    atomic step, as one thread running the executor makes them. */
module Server {
  import opened Domain
  import opened Protocol
  import opened RoomCodes
  import opened Codec
  import opened Sessions
  import opened History
  import R = RoomStore
  import Dispatcher

  datatype Delivery = Delivery(to: ParticipantId, message: Json)

  /** What handling one message or one disconnect does to everything but the acting session. */
  datatype Effect = Effect(store: R.Store, sends: seq<Delivery>, facts: seq<Fact>)

  // ------------------------------------------------------------------
  // Fan-out
  // ------------------------------------------------------------------

  /** The inner loop over an event's receivers: the one to skip and those without a registered
      session get nothing. */
  function ReceiverSends(registry: set<ParticipantId>, ps: seq<Participant>, skip: Option<ParticipantId>,
      m: Json): seq<Delivery> {
    if ps == [] then []
    else (if Some(ps[0].id) != skip && ps[0].id in registry then [Delivery(ps[0].id, m)] else [])
         + ReceiverSends(registry, ps[1..], skip, m)
  }

  function Skipped(e: Event): Option<ParticipantId> {
    if e.JoinedRoomEvent? then Some(e.joined.id) else None
  }

  function EventSends(registry: set<ParticipantId>, e: Event): seq<Delivery> {
    ReceiverSends(registry, e.receivers, Skipped(e), EncodeEvent(e))
  }

  function DeliverEvents(registry: set<ParticipantId>, es: seq<Event>): seq<Delivery> {
    if es == [] then [] else EventSends(registry, es[0]) + DeliverEvents(registry, es[1..])
  }

  // ------------------------------------------------------------------
  // Messages and disconnects
  // ------------------------------------------------------------------

  /** What the dispatcher's handler sends: a relay before its confirmation, a reply before events. */
  function Respond(registry: set<ParticipantId>, id: ParticipantId, o: Dispatcher.Outcome): seq<Delivery> {
    if o.response.Succeeded? && o.response.payload.Signaled? then
      var signal := o.response.payload.signal;
      if signal.target !in registry
      then [Delivery(id, EncodeResponse(Failed(o.response.meta, ParticipantUnavailable)))]
      else [Delivery(signal.target, EncodeSignal(signal)), Delivery(id, EncodeResponse(o.response))] + DeliverEvents(registry, o.events)
    else
      [Delivery(id, EncodeResponse(o.response))] + DeliverEvents(registry, o.events)
  }

  function Handle(s: R.Store, registry: set<ParticipantId>, id: ParticipantId, m: Inbound, draws: seq<Draw>): Effect {
    match m
    case Binary => Effect(s, [Delivery(id, EncodeProtocolError(None, "invalid_message", None))], [])
    case Malformed => Effect(s, [Delivery(id, EncodeProtocolError(None, "invalid_json", None))], [])
    case Text(json) =>
      match DecodeRequest(id, json)
      case Rejected(meta, code, requestId) => Effect(s, [Delivery(id, EncodeProtocolError(meta, code, requestId))], [])
      case Accepted(request) =>
        var o := Dispatcher.Dispatch(s, request, draws);
        Effect(o.store, Respond(registry, id, o), FactsOf(request, o.response))
  }

  /** Cleanup of a session that has just been taken out of the registry. */
  function Cleanup(s: R.Store, registry: set<ParticipantId>, id: ParticipantId, order: seq<RoomCode>): Effect {
    var (s', events) := Dispatcher.Disconnect(s, order, id);
    Effect(s', DeliverEvents(registry, events), DepartureFacts(events))
  }

  // ------------------------------------------------------------------
  // The machine
  // ------------------------------------------------------------------

  /** Sessions are named by their participant ids, which are distinct. `facts` only records. */
  datatype World = World(
    store: R.Store,
    registry: set<ParticipantId>,
    sessions: map<ParticipantId, Session>,
    facts: seq<Fact>)

  const START := World(map[], {}, map[], [])

  /** `order` is the order in which the store happens to list its codes, `draws` the room codes the
      generator happens to draw. */
  datatype Label =
    | Connect(id: ParticipantId)
    | AcceptDone(id: ParticipantId, ok: bool, order: seq<RoomCode>)
    | ReadClosed(id: ParticipantId, order: seq<RoomCode>)
    | ReadFailed(id: ParticipantId, order: seq<RoomCode>)
    | ReadDone(id: ParticipantId, message: Inbound, draws: seq<Draw>)
    | WriteDone(id: ParticipantId, ok: bool, order: seq<RoomCode>)
    | CallClose(id: ParticipantId)
    | RunPosted(id: ParticipantId, order: seq<RoomCode>)

  function For(sends: seq<Delivery>, id: ParticipantId): seq<Json> {
    if sends == [] then []
    else (if sends[0].to == id then [sends[0].message] else []) + For(sends[1..], id)
  }

  function PostAll(sessions: map<ParticipantId, Session>, sends: seq<Delivery>): map<ParticipantId, Session> {
    map id | id in sessions :: Post(sessions[id], For(sends, id))
  }

  function Apply(w: World, e: Effect): World {
    w.(store := e.store, sessions := PostAll(w.sessions, e.sends), facts := w.facts + e.facts)
  }

  function Local(w: World, id: ParticipantId, s: Session): World {
    w.(sessions := w.sessions[id := s])
  }

  function Unregistered(w: World, id: ParticipantId): World
    requires id in w.sessions
  {
    var s := w.sessions[id];
    Local(w, id, s.(registered := false, cleanups := s.cleanups + 1)).(registry := w.registry - {id})
  }

  function Disconnected(w: World, id: ParticipantId, order: seq<RoomCode>): World
    requires id in w.sessions
  {
    var w1 := Unregistered(w, id);
    Apply(w1, Cleanup(w1.store, w1.registry, id, order))
  }

  function RemoveFromRegistry(w: World, id: ParticipantId, order: seq<RoomCode>): World
    requires id in w.sessions
  {
    if w.sessions[id].registered then Disconnected(w, id, order) else w
  }

  function Handled(w: World, id: ParticipantId, m: Inbound, draws: seq<Draw>): World
    requires id in w.sessions
  {
    var w1 := Local(w, id, w.sessions[id].(inbox := w.sessions[id].inbox + [m]));
    Apply(w1, Handle(w.store, w.registry, id, m, draws))
  }

  /** `s` is the session as its failed completion found it. */
  function Fail(w: World, id: ParticipantId, s: Session, order: seq<RoomCode>): World {
    RemoveFromRegistry(Local(w, id, s.(closing := true)), id, order)
  }

  /** The closure that `Close` posts, `s` being the session without it. */
  function CloseRun(w: World, id: ParticipantId, s: Session, order: seq<RoomCode>): World {
    if s.closing then Local(w, id, s)
    else RemoveFromRegistry(Local(w, id, s.(closing := true)), id, order)
  }

  /** When the executor can run a step. A message can be read whenever a read is outstanding. */
  ghost predicate Enabled(w: World, l: Label) {
    if l.Connect? then l.id !in w.sessions
    else
      && l.id in w.sessions
      && var s := w.sessions[l.id];
      match l
      case AcceptDone(_, _, order) => s.phase == Accepting && R.Enumerates(order, w.store)
      case ReadClosed(_, order) => s.phase == Reading && R.Enumerates(order, w.store)
      case ReadFailed(_, order) => s.phase == Reading && R.Enumerates(order, w.store)
      case ReadDone(_, _, draws) => s.phase == Reading && |draws| == MAX_ATTEMPTS
      case WriteDone(_, _, order) => s.inFlight != [] && R.Enumerates(order, w.store)
      case CallClose(_) => true
      case RunPosted(_, order) => s.posted != [] && R.Enumerates(order, w.store)
  }

  ghost function Step(w: World, l: Label): World
    requires Enabled(w, l)
  {
    match l
    case Connect(id) => Local(w, id, Fresh())
    case AcceptDone(id, ok, order) =>
      if ok
      then Local(w, id, w.sessions[id].(phase := Reading, registered := true)).(registry := w.registry + {id})
      else Fail(w, id, w.sessions[id].(phase := Halted), order)
    case ReadClosed(id, order) =>
      RemoveFromRegistry(Local(w, id, w.sessions[id].(phase := Halted)), id, order)
    case ReadFailed(id, order) =>
      Fail(w, id, w.sessions[id].(phase := Halted), order)
    case ReadDone(id, m, draws) => Handled(w, id, m, draws)
    case WriteDone(id, ok, order) =>
      if ok then Local(w, id, WriteSucceeded(w.sessions[id]))
      else Fail(w, id, WriteFailed(w.sessions[id]), order)
    case CallClose(id) =>
      Local(w, id, w.sessions[id].(posted := w.sessions[id].posted + [CloseTask]))
    case RunPosted(id, order) =>
      var s := w.sessions[id].(posted := w.sessions[id].posted[1..]);
      match w.sessions[id].posted[0]
      case SendTask(m) => Local(w, id, RunSend(s, m))
      case CloseTask => CloseRun(w, id, s, order)
  }

  /** The states that a run of these steps reaches from an empty server. */
  ghost predicate Runs(ls: seq<Label>)
    decreases |ls|, 0
  {
    ls == [] || (Runs(ls[..|ls| - 1]) && Enabled(After(ls[..|ls| - 1]), ls[|ls| - 1]))
  }

  ghost function After(ls: seq<Label>): World
    requires Runs(ls)
    decreases |ls|, 1
  {
    if ls == [] then START else Step(After(ls[..|ls| - 1]), ls[|ls| - 1])
  }

  /** A run grows by exactly the steps that are enabled where it ends. */
  lemma RunGrows(ls: seq<Label>, l: Label)
    ensures Runs(ls + [l]) <==> Runs(ls) && Enabled(After(ls), l)
    ensures Runs(ls + [l]) ==> After(ls + [l]) == Step(After(ls), l)
  {
    hide Step, Enabled;
    assert (ls + [l])[..|ls + [l]| - 1] == ls;
  }
}
