/** The server's executor as an object: one thread delivers completions to the session objects one at
    a time. Every run of the objects is a run of the machine, so what holds in every run of the machine
    holds of the objects. */
module EventLoop {
  import opened Domain
  import opened Protocol
  import opened RoomCodes
  import opened CodecTheorems
  import S = Sessions
  import opened Server
  import opened Deliveries
  import opened ServerInvariant
  import opened ServerTheorems
  import opened Lifecycle
  import opened RoomObjects
  import opened SessionObjects
  import R = RoomStore

  /** Something for the executor to deliver: a connection, the end of an asynchronous operation, a
      call of `Close`, or a posted closure. */
  datatype Completion =
    | Connected(id: ParticipantId)
    | Upgraded(id: ParticipantId, ok: bool)
    | ReadEnded(id: ParticipantId, closed: bool)
    | MessageRead(id: ParticipantId, message: Inbound, draws: seq<Draw>)
    | Written(id: ParticipantId, ok: bool)
    | CloseAsked(id: ParticipantId)
    | ClosureDue(id: ParticipantId)

  /** `l` is the delivery of `c`, whatever order the store lists its codes in. */
  ghost predicate Delivers(l: Label, c: Completion) {
    match c
    case Connected(id) => l == Connect(id)
    case Upgraded(id, ok) => l.AcceptDone? && l.id == id && l.ok == ok
    case ReadEnded(id, closed) => (if closed then l.ReadClosed? else l.ReadFailed?) && l.id == id
    case MessageRead(id, m, draws) => l == ReadDone(id, m, draws)
    case Written(id, ok) => l.WriteDone? && l.id == id && l.ok == ok
    case CloseAsked(id) => l == CallClose(id)
    case ClosureDue(id) => l.RunPosted? && l.id == id
  }

  // ------------------------------------------------------------------
  // The record does not matter
  // ------------------------------------------------------------------

  ghost function Bare(w: World): World {
    w.(facts := [])
  }

  lemma RemovalIgnoresRecord(w: World, id: ParticipantId, order: seq<RoomCode>)
    requires id in w.sessions
    ensures Bare(Server.RemoveFromRegistry(Bare(w), id, order)) == Bare(Server.RemoveFromRegistry(w, id, order))
  {
    hide Cleanup, PostAll;
  }

  lemma StepIgnoresRecord(w: World, l: Label)
    ensures Enabled(Bare(w), l) <==> Enabled(w, l)
    ensures Enabled(w, l) ==> Bare(Step(Bare(w), l)) == Bare(Step(w, l))
  {
    hide Handle, PostAll, R.Enumerates, Server.RemoveFromRegistry;
    if Enabled(w, l) {
      match l
      case Connect(_) =>
      case AcceptDone(id, ok, order) =>
        RemovalIgnoresRecord(Local(w, id, w.sessions[id].(phase := S.Halted, closing := true)), id, order);
      case ReadClosed(id, order) => RemovalIgnoresRecord(Local(w, id, w.sessions[id].(phase := S.Halted)), id, order);
      case ReadFailed(id, order) =>
        RemovalIgnoresRecord(Local(w, id, w.sessions[id].(phase := S.Halted, closing := true)), id, order);
      case ReadDone(_, _, _) =>
      case WriteDone(id, ok, order) =>
        RemovalIgnoresRecord(Local(w, id, S.WriteFailed(w.sessions[id]).(closing := true)), id, order);
      case CallClose(_) =>
      case RunPosted(id, order) =>
        var s := w.sessions[id].(posted := w.sessions[id].posted[1..], closing := true);
        RemovalIgnoresRecord(Local(w, id, s), id, order);
    }
  }

  lemma ConnectStep(w: World, id: ParticipantId)
    ensures Enabled(w, Connect(id)) <==> id !in w.sessions
    ensures id !in w.sessions ==> Step(w, Connect(id)) == Local(w, id, S.Fresh())
  {
  }

  lemma NewcomerFiled(dir: map<ParticipantId, Session>, session: Session)
    requires session.participantId !in dir && Filed(dir) && Share(dir, session.registry, session.dispatcher)
    requires Covers(dir, session.registry.sessions)
    ensures var dir' := dir[session.participantId := session];
      && Filed(dir') && Share(dir', session.registry, session.dispatcher)
      && Covers(dir', session.registry.sessions)
  {
  }

  /** A step of the bare world extends a run. */
  lemma RunExtends(trace: seq<Label>, l: Label)
    requires Runs(trace) && Enabled(Bare(After(trace)), l)
    ensures Runs(trace + [l])
    ensures Bare(After(trace + [l])) == Bare(Step(Bare(After(trace)), l))
  {
    hide Enabled, Step, Runs, After;
    StepIgnoresRecord(After(trace), l);
    RunGrows(trace, l);
  }

  // ------------------------------------------------------------------
  // The executor
  // ------------------------------------------------------------------

  class Executor {
    const registry: SessionRegistry
    const dispatcher: ControlDispatcher
    /** Every session that was ever connected. */
    var sessions: map<ParticipantId, Session>
    ghost var trace: seq<Label>

    /** The objects are where the run so far leads. */
    ghost predicate Valid()
      reads this, registry, dispatcher.service.repository, sessions.Values
    {
      && Filed(sessions)
      && Share(sessions, registry, dispatcher)
      && Covers(sessions, registry.sessions)
      && Runs(trace)
      && Hold(After(trace), sessions, registry, dispatcher)
    }

    constructor ()
      ensures Valid() && trace == [] && sessions == map[]
      ensures fresh(registry) && fresh(dispatcher) && fresh(dispatcher.service.repository)
    {
      var repository := new InMemoryRoomRepository();
      var service := new RoomService(repository);
      registry := new SessionRegistry();
      dispatcher := new ControlDispatcher(service);
      sessions := map[];
      trace := [];
    }

    /** The operation that `c` ends is outstanding. */
    predicate Outstanding(c: Completion)
      reads this, sessions.Values
    {
      if c.Connected? then c.id !in sessions
      else
        && c.id in sessions
        && var s := sessions[c.id];
        match c
        case Upgraded(_, _) => s.phase == S.Accepting
        case ReadEnded(_, _) => s.phase == S.Reading
        case MessageRead(_, _, draws) => s.phase == S.Reading && |draws| == MAX_ATTEMPTS
        case Written(_, _) => s.inFlight != []
        case CloseAsked(_) => true
        case ClosureDue(_) => s.posted != []
    }

    /** That is exactly when the machine can take such a step. */
    lemma OutstandingIff(c: Completion)
      requires Valid()
      ensures Outstanding(c) <==> exists l :: Delivers(l, c) && Enabled(After(trace), l)
    {
      hide Runs, After;
      StatesAre(sessions);
      if Outstanding(c) {
        var order := R.SomeOrder(dispatcher.service.repository.rooms.Keys);
        var l := match c
          case Connected(id) => Connect(id)
          case Upgraded(id, ok) => AcceptDone(id, ok, order)
          case ReadEnded(id, closed) => if closed then ReadClosed(id, order) else ReadFailed(id, order)
          case MessageRead(id, m, draws) => ReadDone(id, m, draws)
          case Written(id, ok) => WriteDone(id, ok, order)
          case CloseAsked(id) => CallClose(id)
          case ClosureDue(id) => RunPosted(id, order);
        assert Delivers(l, c) && Enabled(After(trace), l);
      }
    }

    /** A connection is accepted: a session of its own, and nothing else. */
    method Accept(id: ParticipantId) returns (ghost l: Label)
      requires Valid() && Outstanding(Connected(id))
      modifies this`sessions
      ensures Delivers(l, Connected(id)) && Enabled(Bare(After(trace)), l)
      ensures Filed(sessions) && Share(sessions, registry, dispatcher) && Covers(sessions, registry.sessions)
      ensures Hold(Step(Bare(After(trace)), l), sessions, registry, dispatcher)
      ensures fresh(sessions.Values - old(sessions.Values))
    {
      hide Runs, After, StatesOf, Step, Enabled, Filed, Share, Covers;
      StatesAre(sessions);
      ConnectStep(Bare(After(trace)), id);
      ghost var before := StatesOf(sessions);
      var session := new Session(id, dispatcher, registry);
      NewcomerFiled(sessions, session);
      sessions := sessions[id := session];
      l := Connect(id);
      LocalChange(sessions, id, before);
    }

    /** The session's own callback for a completion. */
    method Complete(c: Completion) returns (ghost l: Label)
      requires Valid() && Outstanding(c) && !c.Connected?
      modifies registry, dispatcher.service.repository, sessions.Values
      ensures Delivers(l, c) && Enabled(Bare(After(trace)), l)
      ensures Filed(sessions) && Share(sessions, registry, dispatcher) && Covers(sessions, registry.sessions)
      ensures Hold(Step(Bare(After(trace)), l), sessions, registry, dispatcher)
    {
      hide StatesOf, Runs, After, Enabled, Step, S.QueueSafe;
      var session := sessions[c.id];
      StateIn(sessions, c.id);
      WriteQueueSafety(trace, c.id);
      assert session.Placed(sessions) && session.Snapshot(sessions) == Bare(After(trace));
      match c
      case Upgraded(id, ok) =>
        var order := session.OnWebSocketAccept(ok, sessions);
        l := AcceptDone(id, ok, order);
      case ReadEnded(id, closed) =>
        var order := session.OnReadError(closed, sessions);
        l := if closed then ReadClosed(id, order) else ReadFailed(id, order);
      case MessageRead(id, m, draws) =>
        session.OnReadMessage(m, draws, sessions);
        l := ReadDone(id, m, draws);
      case Written(id, ok) =>
        var order := session.OnWrite(ok, sessions);
        l := WriteDone(id, ok, order);
      case CloseAsked(id) =>
        session.Close(sessions);
        l := CallClose(id);
      case ClosureDue(id) =>
        var order := session.RunPosted(sessions);
        l := RunPosted(id, order);
    }

    /** Delivers one completion. */
    method Deliver(c: Completion) returns (ghost l: Label)
      requires Valid() && Outstanding(c)
      modifies this, registry, dispatcher.service.repository, sessions.Values
      ensures Valid() && Delivers(l, c) && trace == old(trace) + [l]
      ensures fresh(sessions.Values - old(sessions.Values))
    {
      hide Filed, StatesOf, Runs, After, Enabled, Step;
      if c.Connected? {
        l := Accept(c.id);
      } else {
        l := Complete(c);
      }
      RunExtends(trace, l);
      trace := trace + [l];
    }

    /** Delivers completions as they come, until one arrives that nothing is waiting for. */
    method Run(completions: seq<Completion>) returns (ran: nat)
      requires Valid()
      modifies this, registry, dispatcher.service.repository, sessions.Values
      ensures Valid()
      ensures ran <= |completions| && |trace| == |old(trace)| + ran && old(trace) <= trace
      ensures forall i :: 0 <= i < ran ==> Delivers(trace[|old(trace)| + i], completions[i])
      ensures ran < |completions| ==> !Outstanding(completions[ran])
    {
      hide Valid, Delivers;
      ran := 0;
      while ran < |completions| && Outstanding(completions[ran])
        invariant Valid()
        invariant fresh(sessions.Values - old(sessions.Values))
        invariant ran <= |completions| && |trace| == |old(trace)| + ran && old(trace) <= trace
        invariant forall i :: 0 <= i < ran ==> Delivers(trace[|old(trace)| + i], completions[i])
      {
        var _ := Deliver(completions[ran]);
        ran := ran + 1;
      }
    }

    // ----------------------------------------------------------------
    // What every run of the objects keeps
    // ----------------------------------------------------------------

    /** Whatever was delivered: the rooms are sound, and exactly the registered sessions are in the
        registry. */
    lemma ObjectsAreSound()
      requires Valid()
      ensures R.WellFormed(dispatcher.service.repository.rooms) && R.NoEmptyRooms(dispatcher.service.repository.rooms)
      ensures forall id :: id in sessions ==> (id in registry.sessions <==> sessions[id].registered)
    {
      StoreIsSound(trace);
      EveryRunKeepsInv(trace);
      StatesAre(sessions);
    }

    /** A session's messages reach its wire once each and in the order of `Send`, one write at a time,
        and the direct replies among them answer what it read, in order. */
    lemma SessionsAreSafe(id: ParticipantId)
      requires Valid() && id in sessions
      ensures S.QueueSafe(sessions[id].State()) && sessions[id].cleanups <= 1
      ensures var s := sessions[id];
        && |Replies(s.sent)| == |s.inbox|
        && forall i :: 0 <= i < |s.inbox| ==> Answers(Replies(s.sent)[i], s.inbox[i])
    {
      StateIn(sessions, id);
      WriteQueueSafety(trace, id);
      OrderedReplies(trace, id);
    }

    /** A session that nothing has closed is never stuck: a write is outstanding whenever something is
        queued. */
    lemma SessionsGoOn(id: ParticipantId)
      requires Valid() && id in sessions && !ClosedIn(trace, id)
      ensures !sessions[id].closing && (sessions[id].inFlight != [] <==> sessions[id].writeQueue != [])
    {
      StateIn(sessions, id);
      WritesGoOn(trace, id);
    }

    /** Every registered member of a room has been sent exactly the room's list, in order, and once it
        has drained its queue it has received it. */
    lemma ObjectsAgree(c: RoomCode, x: ParticipantId)
      requires Valid() && x in registry.sessions && R.InRoom(dispatcher.service.repository.rooms, x, c)
      ensures var (s, room) := (registry.sessions[x], dispatcher.service.repository.rooms[c]);
        && View(s.sent, c) == Some(room.participants)
        && (s.writeQueue == [] && s.posted == [] ==> View(s.wire, c) == Some(room.participants))
    {
      StatesAre(sessions);
      ReplicaAgreement(trace, c, x);
    }
  }
}
