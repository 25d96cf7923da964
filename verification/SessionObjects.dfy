/** Sessions and their registry as objects: callbacks that change a session, its peers, the registry
    and the rooms in place. Each is proved to do what the corresponding function on values says. */
module SessionObjects {
  import opened Domain
  import opened Protocol
  import opened RoomCodes
  import opened Codec
  import S = Sessions
  import opened Server
  import opened Deliveries
  import opened RoomObjects
  import R = RoomStore
  import Dispatcher

  lemma TasksConcat(a: seq<Json>, b: seq<Json>)
    ensures S.Tasks(a + b) == S.Tasks(a) + S.Tasks(b)
  {
  }

  lemma PostTwice(s: S.Session, a: seq<Json>, b: seq<Json>)
    ensures S.Post(S.Post(s, a), b) == S.Post(s, a + b)
  {
    TasksConcat(a, b);
    assert s.sent + a + b == s.sent + (a + b);
    assert s.posted + S.Tasks(a) + S.Tasks(b) == s.posted + (S.Tasks(a) + S.Tasks(b));
  }

  lemma PostNothing(s: S.Session)
    ensures S.Post(s, []) == s
  {
  }

  lemma PostAllTwice(m: map<ParticipantId, S.Session>, a: seq<Delivery>, b: seq<Delivery>)
    ensures PostAll(PostAll(m, a), b) == PostAll(m, a + b)
  {
    forall id | id in m ensures S.Post(S.Post(m[id], For(a, id)), For(b, id)) == S.Post(m[id], For(a + b, id)) {
      ForConcat(a, b, id);
      PostTwice(m[id], For(a, id), For(b, id));
    }
  }

  lemma PostAllNothing(m: map<ParticipantId, S.Session>)
    ensures PostAll(m, []) == m
  {
    forall id | id in m ensures S.Post(m[id], []) == m[id] {
      PostNothing(m[id]);
    }
  }

  /** The values of a collection of session objects. */
  ghost function StatesOf(dir: map<ParticipantId, Session>): map<ParticipantId, S.Session>
    reads dir.Values
  {
    map id | id in dir :: dir[id].State()
  }

  /** Each session is filed under its own id. */
  ghost predicate Filed(dir: map<ParticipantId, Session>) {
    forall id :: id in dir ==> dir[id].participantId == id
  }

  /** All sessions were given the same registry and the same dispatcher. */
  ghost predicate Share(dir: map<ParticipantId, Session>, registry: SessionRegistry, dispatcher: ControlDispatcher) {
    forall id :: id in dir ==> dir[id].registry == registry && dir[id].dispatcher == dispatcher
  }

  /** The objects hold what `w` says, its record aside. */
  ghost predicate Hold(w: World, dir: map<ParticipantId, Session>, registry: SessionRegistry,
      dispatcher: ControlDispatcher)
    reads registry, dispatcher.service.repository, dir.Values
  {
    && dispatcher.service.repository.rooms == w.store
    && registry.sessions.Keys == w.registry
    && StatesOf(dir) == w.sessions
  }

  class SessionRegistry {
    var sessions: map<ParticipantId, Session>

    constructor ()
      ensures sessions == map[]
    {
      sessions := map[];
    }

    method Add(session: Session)
      modifies this
      ensures sessions == old(sessions)[session.participantId := session]
    {
      sessions := sessions[session.participantId := session];
    }

    method Remove(id: ParticipantId)
      modifies this
      ensures sessions == old(sessions) - {id}
    {
      sessions := sessions - {id};
    }

    method Find(id: ParticipantId) returns (found: Option<Session>)
      ensures found == if id in sessions then Some(sessions[id]) else None
    {
      if id in sessions {
        found := Some(sessions[id]);
      } else {
        found := None;
      }
    }
  }

  class Session {
    const participantId: ParticipantId
    const dispatcher: ControlDispatcher
    const registry: SessionRegistry
    var phase: S.Phase
    var registered: bool
    var closing: bool
    var posted: seq<S.Task>
    var writeQueue: seq<Json>
    var inFlight: seq<Json>
    ghost var sent: seq<Json>
    ghost var wire: seq<Json>
    ghost var inbox: seq<Inbound>
    ghost var cleanups: nat
    ghost var started: nat

    ghost function State(): S.Session
      reads this
    {
      S.Session(phase, registered, closing, posted, writeQueue, inFlight, sent, wire, inbox, cleanups, started)
    }

    constructor (id: ParticipantId, dispatcher: ControlDispatcher, registry: SessionRegistry)
      ensures State() == S.Fresh()
      ensures participantId == id && this.dispatcher == dispatcher && this.registry == registry
    {
      participantId, this.dispatcher, this.registry := id, dispatcher, registry;
      phase, registered, closing := S.Accepting, false, false;
      posted, writeQueue, inFlight := [], [], [];
      sent, wire, inbox, cleanups, started := [], [], [], 0, 0;
    }

    /** `dir` names every session of this registry and dispatcher, this one among them. */
    ghost predicate Placed(dir: map<ParticipantId, Session>)
      reads registry
    {
      && Filed(dir)
      && Share(dir, registry, dispatcher)
      && Covers(dir, registry.sessions)
      && participantId in dir && dir[participantId] == this
    }

    /** The server as a value; its record of facts starts here. */
    ghost function Snapshot(dir: map<ParticipantId, Session>): World
      reads registry, dispatcher.service.repository, dir.Values
    {
      World(dispatcher.service.repository.rooms, registry.sessions.Keys, StatesOf(dir), [])
    }

    ghost predicate Shows(w: World, dir: map<ParticipantId, Session>)
      reads registry, dispatcher.service.repository, dir.Values
    {
      Hold(w, dir, registry, dispatcher)
    }

    // ----------------------------------------------------------------
    // Write queue
    // ----------------------------------------------------------------

    method Send(m: Json)
      modifies this`posted, this`sent
      ensures State() == S.Post(old(State()), [m])
    {
      posted := posted + [S.SendTask(m)];
      sent := sent + [m];
    }

    method DoWrite()
      modifies this`inFlight, this`started
      ensures State() == S.DoWrite(old(State()))
    {
      if writeQueue == [] || closing {
        return;
      }
      inFlight := inFlight + [writeQueue[0]];
      started := started + 1;
    }

    /** The closure that `Send` posted. */
    method RunSend(m: Json)
      modifies this`writeQueue, this`inFlight, this`started
      ensures State() == S.RunSend(old(State()), m)
    {
      var writing := writeQueue != [];
      writeQueue := writeQueue + [m];
      if !writing {
        DoWrite();
      }
    }

    /** Completion of a write without error; popping is safe because the written message is the front. */
    method OnWriteSucceeded()
      requires S.QueueSafe(State()) && inFlight != []
      modifies this`writeQueue, this`inFlight, this`started, this`wire
      ensures State() == S.WriteSucceeded(old(State()))
      ensures S.QueueSafe(State())
    {
      S.WriteSucceededKeepsQueueSafe(State());
      wire := wire + [inFlight[0]];
      inFlight := inFlight[1..];
      writeQueue := writeQueue[1..];
      if writeQueue != [] {
        DoWrite();
      }
    }

    // ----------------------------------------------------------------
    // Fan-out
    // ----------------------------------------------------------------

    /** The inner loop: one encoded event to its receivers. `dir` names everybody concerned. */
    method DeliverTo(receivers: seq<Participant>, skip: Option<ParticipantId>, encoded: Json,
        ghost dir: map<ParticipantId, Session>)
      requires Filed(dir) && Covers(dir, registry.sessions)
      modifies dir.Values`posted, dir.Values`sent
      ensures StatesOf(dir) == PostAll(old(StatesOf(dir)), ReceiverSends(registry.sessions.Keys, receivers, skip, encoded))
    {
      hide StatesOf, PostAll, ReceiverSends, Filed;
      ghost var keys, before := registry.sessions.Keys, StatesOf(dir);
      ghost var done: seq<Delivery> := [];
      PostAllNothing(before);
      assert receivers[0..] == receivers;
      for i := 0 to |receivers|
        invariant done + ReceiverSends(keys, receivers[i..], skip, encoded) == ReceiverSends(keys, receivers, skip, encoded)
        invariant StatesOf(dir) == PostAll(before, done)
      {
        ReceiverStep(keys, receivers, i, skip, encoded);
        if Some(receivers[i].id) != skip {
          var session := registry.Find(receivers[i].id);
          if session.Some? {
            SendTo(session.value, receivers[i].id, encoded, dir);
            PostAllTwice(before, done, [Delivery(receivers[i].id, encoded)]);
            done := done + [Delivery(receivers[i].id, encoded)];
          }
        }
      }
      ReceiverEnd(keys, receivers, skip, encoded);
      assert done + [] == done;
    }

    /** The outer loop: events in order, each encoded once. */
    method DeliverEvents(events: seq<Event>, ghost dir: map<ParticipantId, Session>)
      requires Filed(dir) && Covers(dir, registry.sessions)
      modifies dir.Values`posted, dir.Values`sent
      ensures StatesOf(dir) == PostAll(old(StatesOf(dir)), Server.DeliverEvents(registry.sessions.Keys, events))
    {
      hide StatesOf, PostAll, ReceiverSends, Filed;
      ghost var keys, before := registry.sessions.Keys, StatesOf(dir);
      ghost var done: seq<Delivery> := [];
      PostAllNothing(before);
      assert events[0..] == events;
      for i := 0 to |events|
        invariant done + Server.DeliverEvents(keys, events[i..]) == Server.DeliverEvents(keys, events)
        invariant StatesOf(dir) == PostAll(before, done)
      {
        assert events[i..][1..] == events[i + 1..];
        DeliverTo(events[i].receivers, Skipped(events[i]), EncodeEvent(events[i]), dir);
        PostAllTwice(before, done, EventSends(keys, events[i]));
        done := done + EventSends(keys, events[i]);
      }
      assert done == Server.DeliverEvents(keys, events);
    }

    // ----------------------------------------------------------------
    // Messages
    // ----------------------------------------------------------------

    /** The handler that the dispatcher calls with its outcome. */
    method OnDispatched(response: Response, events: seq<Event>, ghost store: R.Store,
        ghost dir: map<ParticipantId, Session>)
      requires Placed(dir)
      modifies dir.Values`posted, dir.Values`sent
      ensures StatesOf(dir) ==
        PostAll(old(StatesOf(dir)), Respond(registry.sessions.Keys, participantId, Dispatcher.Outcome(store, response, events)))
    {
      hide StatesOf, PostAll, Filed, EncodeResponse, EncodeSignal, Server.DeliverEvents;
      ghost var keys, before := registry.sessions.Keys, StatesOf(dir);
      ghost var done: seq<Delivery> := [];
      PostAllNothing(before);
      if response.Succeeded? && response.payload.Signaled? {
        var signal := response.payload.signal;
        var target := registry.Find(signal.target);
        if target.None? {
          SendTo(this, participantId, EncodeResponse(Failed(response.meta, ParticipantUnavailable)), dir);
          return;
        }
        SendTo(target.value, signal.target, EncodeSignal(signal), dir);
        done := [Delivery(signal.target, EncodeSignal(signal))];
      }
      ghost var reply := [Delivery(participantId, EncodeResponse(response))];
      SendTo(this, participantId, EncodeResponse(response), dir);
      PostAllTwice(before, done, reply);
      DeliverEvents(events, dir);
      PostAllTwice(before, done + reply, Server.DeliverEvents(keys, events));
      assert done + reply + Server.DeliverEvents(keys, events)
          == Respond(keys, participantId, Dispatcher.Outcome(store, response, events));
    }

    /** Decode, dispatch, answer and notify, or answer with the decoder's complaint. */
    method HandleMessage(m: Inbound, draws: seq<Draw>, ghost dir: map<ParticipantId, Session>)
      requires |draws| == MAX_ATTEMPTS
      requires Placed(dir)
      modifies dispatcher.service.repository, dir.Values`posted, dir.Values`sent
      ensures var e := Handle(old(dispatcher.service.repository.rooms), registry.sessions.Keys, participantId, m, draws);
        && dispatcher.service.repository.rooms == e.store
        && StatesOf(dir) == PostAll(old(StatesOf(dir)), e.sends)
    {
      hide StatesOf, PostAll, Filed, DecodeRequest, EncodeProtocolError, Respond;
      match m
      case Binary => SendTo(this, participantId, EncodeProtocolError(None, "invalid_message", None), dir);
      case Malformed => SendTo(this, participantId, EncodeProtocolError(None, "invalid_json", None), dir);
      case Text(json) =>
        var decoded := DecodeRequest(participantId, json);
        match decoded {
          case Rejected(meta, code, requestId) =>
            SendTo(this, participantId, EncodeProtocolError(meta, code, requestId), dir);
          case Accepted(request) =>
            ghost var states := StatesOf(dir);
            var response, events := dispatcher.Dispatch(request, draws);
            assert StatesOf(dir) == states;
            OnDispatched(response, events, dispatcher.service.repository.rooms, dir);
        }
    }

    // ----------------------------------------------------------------
    // Lifecycle
    // ----------------------------------------------------------------

    method MarkUnregistered(ghost dir: map<ParticipantId, Session>)
      requires Placed(dir)
      modifies this`registered, this`cleanups
      ensures StatesOf(dir) == old(StatesOf(dir))[participantId := old(State()).(registered := false, cleanups := old(cleanups) + 1)]
    {
      hide StatesOf;
      StatesAre(dir);
      ghost var before := StatesOf(dir);
      registered := false;
      cleanups := cleanups + 1;
      LocalChange(dir, participantId, before);
    }

    /** Leave the registry, leave every room, tell those who stay. */
    method CleanUp(ghost dir: map<ParticipantId, Session>) returns (ghost order: seq<RoomCode>)
      requires Placed(dir)
      modifies this`registered, this`cleanups, registry, dispatcher.service.repository, dir.Values`posted, dir.Values`sent
      ensures Placed(dir)
      ensures R.Enumerates(order, old(dispatcher.service.repository.rooms))
      ensures Shows(Disconnected(old(Snapshot(dir)), participantId, order), dir)
    {
      hide R.Enumerates, PostAll, Dispatcher.Disconnect, Server.DeliverEvents, Filed, StatesOf;
      StateIn(dir, participantId);
      MarkUnregistered(dir);
      registry.Remove(participantId);
      ghost var states := StatesOf(dir);
      var events, listed := dispatcher.HandleParticipantDisconnected(participantId);
      order := listed;
      assert StatesOf(dir) == states;
      DeliverEvents(events, dir);
    }

    /** Once only, however often it is called. */
    method RemoveFromRegistry(ghost dir: map<ParticipantId, Session>) returns (ghost order: seq<RoomCode>)
      requires Placed(dir)
      modifies this`registered, this`cleanups, registry, dispatcher.service.repository, dir.Values`posted, dir.Values`sent
      ensures Placed(dir)
      ensures R.Enumerates(order, old(dispatcher.service.repository.rooms))
      ensures Shows(Server.RemoveFromRegistry(old(Snapshot(dir)), participantId, order), dir)
    {
      hide R.Enumerates, Disconnected, Filed, StatesOf;
      StateIn(dir, participantId);
      if registered {
        order := CleanUp(dir);
      } else {
        order := dispatcher.service.repository.GetRoomCodes();
      }
    }

    /** Marks the session as closing, and whatever its completion just changed, then cleans up. */
    method Fail(ghost dir: map<ParticipantId, Session>) returns (ghost order: seq<RoomCode>)
      requires Placed(dir)
      modifies this`closing, this`registered, this`cleanups, registry, dispatcher.service.repository, dir.Values`posted, dir.Values`sent
      ensures Placed(dir)
      ensures R.Enumerates(order, old(dispatcher.service.repository.rooms))
      ensures Shows(Server.Fail(old(Snapshot(dir)), participantId, old(State()), order), dir)
    {
      hide R.Enumerates, Server.RemoveFromRegistry, StatesOf;
      StatesAre(dir);
      ghost var before := StatesOf(dir);
      closing := true;
      LocalChange(dir, participantId, before);
      order := RemoveFromRegistry(dir);
    }

    method SetPhase(phase: S.Phase, ghost dir: map<ParticipantId, Session>)
      requires Placed(dir)
      modifies this`phase
      ensures State() == old(State()).(phase := phase)
      ensures StatesOf(dir) == old(StatesOf(dir))[participantId := State()]
    {
      hide StatesOf;
      StatesAre(dir);
      ghost var before := StatesOf(dir);
      this.phase := phase;
      LocalChange(dir, participantId, before);
    }

    /** Enter the registry and start reading. */
    method Register(ghost dir: map<ParticipantId, Session>)
      requires Placed(dir)
      modifies this`phase, this`registered, registry
      ensures Placed(dir)
      ensures registry.sessions.Keys == old(registry.sessions.Keys) + {participantId}
      ensures StatesOf(dir) == old(StatesOf(dir))[participantId := old(State()).(phase := S.Reading, registered := true)]
    {
      hide StatesOf;
      StatesAre(dir);
      ghost var before := StatesOf(dir);
      registry.Add(this);
      registered := true;
      phase := S.Reading;
      LocalChange(dir, participantId, before);
    }

    /** The closure that `Close` posted; unless closing already, it changes what a failure changes. */
    method RunClose(ghost dir: map<ParticipantId, Session>) returns (ghost order: seq<RoomCode>)
      requires Placed(dir)
      modifies this`closing, this`registered, this`cleanups, registry, dispatcher.service.repository, dir.Values`posted, dir.Values`sent
      ensures Placed(dir)
      ensures R.Enumerates(order, old(dispatcher.service.repository.rooms))
      ensures Shows(CloseRun(old(Snapshot(dir)), participantId, old(State()), order), dir)
    {
      hide R.Enumerates, Server.RemoveFromRegistry, Filed, StatesOf;
      ghost var before := Snapshot(dir);
      StateIn(dir, participantId);
      if closing {
        order := dispatcher.service.repository.GetRoomCodes();
        assert before.sessions[participantId := before.sessions[participantId]] == before.sessions;
      } else {
        order := Fail(dir);
      }
    }

    method TakeTask(ghost dir: map<ParticipantId, Session>) returns (task: S.Task)
      requires Placed(dir) && posted != []
      modifies this`posted
      ensures task == old(posted)[0] && State() == old(State()).(posted := old(posted)[1..])
      ensures StatesOf(dir) == old(StatesOf(dir))[participantId := State()]
    {
      hide StatesOf;
      StatesAre(dir);
      ghost var before := StatesOf(dir);
      task := posted[0];
      posted := posted[1..];
      LocalChange(dir, participantId, before);
    }

    method RunSendTask(m: Json, ghost dir: map<ParticipantId, Session>)
      requires Placed(dir)
      modifies this`writeQueue, this`inFlight, this`started
      ensures StatesOf(dir) == old(StatesOf(dir))[participantId := S.RunSend(old(State()), m)]
    {
      hide S.RunSend, StatesOf;
      StatesAre(dir);
      ghost var before := StatesOf(dir);
      RunSend(m);
      LocalChange(dir, participantId, before);
    }

    // ----------------------------------------------------------------
    // Completions: each is one step of the machine
    // ----------------------------------------------------------------

    method OnWebSocketAccept(ok: bool, ghost dir: map<ParticipantId, Session>) returns (ghost order: seq<RoomCode>)
      requires Placed(dir) && phase == S.Accepting
      modifies this, registry, dispatcher.service.repository, dir.Values`posted, dir.Values`sent
      ensures Placed(dir)
      ensures Enabled(old(Snapshot(dir)), AcceptDone(participantId, ok, order))
      ensures Shows(Step(old(Snapshot(dir)), AcceptDone(participantId, ok, order)), dir)
    {
      hide R.Enumerates, Server.RemoveFromRegistry, StatesOf, Filed;
      ghost var before := Snapshot(dir);
      StateIn(dir, participantId);
      if ok {
        order := dispatcher.service.repository.GetRoomCodes();
        Register(dir);
      } else {
        SetPhase(S.Halted, dir);
        order := Fail(dir);
        LocalTwice(before, participantId, before.sessions[participantId].(phase := S.Halted), order);
      }
    }

    /** Completion of a read with an error. */
    method OnReadError(closed: bool, ghost dir: map<ParticipantId, Session>) returns (ghost order: seq<RoomCode>)
      requires Placed(dir) && phase == S.Reading
      modifies this, registry, dispatcher.service.repository, dir.Values`posted, dir.Values`sent
      ensures Placed(dir)
      ensures var l := if closed then ReadClosed(participantId, order) else ReadFailed(participantId, order);
        Enabled(old(Snapshot(dir)), l) && Shows(Step(old(Snapshot(dir)), l), dir)
    {
      hide R.Enumerates, Server.RemoveFromRegistry, StatesOf, Filed;
      ghost var before := Snapshot(dir);
      StateIn(dir, participantId);
      SetPhase(S.Halted, dir);
      if closed {
        order := RemoveFromRegistry(dir);
      } else {
        order := Fail(dir);
        LocalTwice(before, participantId, before.sessions[participantId].(phase := S.Halted), order);
      }
    }

    method RecordRead(m: Inbound, ghost dir: map<ParticipantId, Session>)
      requires Placed(dir)
      modifies this`inbox
      ensures StatesOf(dir) == old(StatesOf(dir))[participantId := old(State()).(inbox := old(inbox) + [m])]
    {
      hide StatesOf;
      StatesAre(dir);
      ghost var before := StatesOf(dir);
      inbox := inbox + [m];
      LocalChange(dir, participantId, before);
    }

    /** Completion of a read with a message; the next read is started afterwards. */
    method OnReadMessage(m: Inbound, draws: seq<Draw>, ghost dir: map<ParticipantId, Session>)
      requires Placed(dir) && phase == S.Reading && |draws| == MAX_ATTEMPTS
      modifies this`inbox, dispatcher.service.repository, dir.Values`posted, dir.Values`sent
      ensures Placed(dir)
      ensures Enabled(old(Snapshot(dir)), ReadDone(participantId, m, draws))
      ensures Shows(Step(old(Snapshot(dir)), ReadDone(participantId, m, draws)), dir)
    {
      hide Handle, PostAll, StatesOf, Filed, Share, Covers;
      StateIn(dir, participantId);
      RecordRead(m, dir);
      HandleMessage(m, draws, dir);
    }

    /** Completion of the outstanding write. */
    method OnWrite(ok: bool, ghost dir: map<ParticipantId, Session>) returns (ghost order: seq<RoomCode>)
      requires Placed(dir) && S.QueueSafe(State()) && inFlight != []
      modifies this, registry, dispatcher.service.repository, dir.Values`posted, dir.Values`sent
      ensures Placed(dir)
      ensures Enabled(old(Snapshot(dir)), WriteDone(participantId, ok, order))
      ensures Shows(Step(old(Snapshot(dir)), WriteDone(participantId, ok, order)), dir)
    {
      hide R.Enumerates, Server.RemoveFromRegistry, S.QueueSafe, S.WriteSucceeded, StatesOf, Filed;
      ghost var before := Snapshot(dir);
      StateIn(dir, participantId);
      EndWrite(ok, dir);
      if ok {
        order := dispatcher.service.repository.GetRoomCodes();
      } else {
        order := Fail(dir);
        LocalTwice(before, participantId, S.WriteFailed(before.sessions[participantId]), order);
      }
    }

    method EndWrite(ok: bool, ghost dir: map<ParticipantId, Session>)
      requires Placed(dir) && S.QueueSafe(State()) && inFlight != []
      modifies this`writeQueue, this`inFlight, this`started, this`wire
      ensures State() == if ok then S.WriteSucceeded(old(State())) else S.WriteFailed(old(State()))
      ensures StatesOf(dir) == old(StatesOf(dir))[participantId := State()]
    {
      hide StatesOf, S.QueueSafe, S.WriteSucceeded;
      StatesAre(dir);
      ghost var before := StatesOf(dir);
      if ok {
        OnWriteSucceeded();
      } else {
        inFlight := inFlight[1..];
      }
      LocalChange(dir, participantId, before);
    }

    method Close(ghost dir: map<ParticipantId, Session>)
      requires Placed(dir)
      modifies this`posted
      ensures Placed(dir)
      ensures Enabled(old(Snapshot(dir)), CallClose(participantId))
      ensures Shows(Step(old(Snapshot(dir)), CallClose(participantId)), dir)
    {
      hide StatesOf, Share, Covers, R.Enumerates;
      StatesAre(dir);
      ghost var before := StatesOf(dir);
      posted := posted + [S.CloseTask];
      LocalChange(dir, participantId, before);
    }

    /** The executor runs the oldest posted closure. */
    method RunPosted(ghost dir: map<ParticipantId, Session>) returns (ghost order: seq<RoomCode>)
      requires Placed(dir) && posted != []
      modifies this, registry, dispatcher.service.repository, dir.Values`posted, dir.Values`sent
      ensures Placed(dir)
      ensures Enabled(old(Snapshot(dir)), Label.RunPosted(participantId, order))
      ensures Shows(Step(old(Snapshot(dir)), Label.RunPosted(participantId, order)), dir)
    {
      hide R.Enumerates, CloseRun, S.RunSend, Filed, StatesOf;
      ghost var before := Snapshot(dir);
      StateIn(dir, participantId);
      var task := TakeTask(dir);
      ghost var rest := State();
      match task
      case SendTask(m) =>
        order := dispatcher.service.repository.GetRoomCodes();
        RunSendTask(m, dir);
      case CloseTask =>
        order := RunClose(dir);
        CloseTwice(before, participantId, rest, order);
    }
  }

  lemma CloseTwice(w: World, id: ParticipantId, s: S.Session, order: seq<RoomCode>)
    requires id in w.sessions
    ensures CloseRun(Local(w, id, s), id, s, order) == CloseRun(w, id, s, order)
  {
    assert Local(Local(w, id, s), id, s) == Local(w, id, s);
    assert Local(Local(w, id, s), id, s.(closing := true)) == Local(w, id, s.(closing := true));
  }

  lemma LocalTwice(w: World, id: ParticipantId, s: S.Session, order: seq<RoomCode>)
    requires id in w.sessions
    ensures Server.Fail(Local(w, id, s), id, s, order) == Server.Fail(w, id, s, order)
  {
    assert Local(Local(w, id, s), id, s.(closing := true)) == Local(w, id, s.(closing := true));
  }

  lemma StatesAre(dir: map<ParticipantId, Session>)
    ensures StatesOf(dir).Keys == dir.Keys
    ensures forall x :: x in dir ==> StatesOf(dir)[x] == dir[x].State()
  {
  }

  /** `before` are the values from before one session only was changed or added. */
  lemma LocalChange(dir: map<ParticipantId, Session>, id: ParticipantId, before: map<ParticipantId, S.Session>)
    requires id in dir && before.Keys + {id} == dir.Keys
    requires forall x :: x in dir && x != id ==> dir[x].State() == before[x]
    ensures StatesOf(dir) == before[id := dir[id].State()]
  {
  }

  lemma StateIn(dir: map<ParticipantId, Session>, id: ParticipantId)
    requires id in dir
    ensures id in StatesOf(dir) && StatesOf(dir)[id] == dir[id].State()
  {
  }

  ghost predicate Covers(dir: map<ParticipantId, Session>, sessions: map<ParticipantId, Session>) {
    forall id :: id in sessions ==> id in dir && dir[id] == sessions[id]
  }

  lemma ReceiverStep(keys: set<ParticipantId>, ps: seq<Participant>, i: nat, skip: Option<ParticipantId>, m: Json)
    requires i < |ps|
    ensures ReceiverSends(keys, ps[i..], skip, m) ==
      (if Some(ps[i].id) != skip && ps[i].id in keys then [Delivery(ps[i].id, m)] else []) + ReceiverSends(keys, ps[i + 1..], skip, m)
  {
    assert ps[i..][1..] == ps[i + 1..];
  }

  lemma ReceiverEnd(keys: set<ParticipantId>, ps: seq<Participant>, skip: Option<ParticipantId>, m: Json)
    ensures ReceiverSends(keys, ps[|ps|..], skip, m) == []
  {
  }

  /** One `Send` is one delivery, and nobody else notices. */
  method SendTo(target: Session, id: ParticipantId, m: Json, ghost dir: map<ParticipantId, Session>)
    requires Filed(dir) && id in dir && dir[id] == target
    modifies target`posted, target`sent
    ensures StatesOf(dir) == PostAll(old(StatesOf(dir)), [Delivery(id, m)])
  {
    ghost var before := StatesOf(dir);
    target.Send(m);
    forall x | x in dir ensures dir[x].State() == S.Post(before[x], For([Delivery(id, m)], x)) {
      ForOne(id, m, x);
      PostNothing(before[x]);
    }
  }
}
