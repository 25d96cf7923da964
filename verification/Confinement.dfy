/** Every message the server sends is accounted for: a reply to the acting session, a list shown to
    a member of the room it is about, or a signal relayed between two members. */
module Confinement {
  import opened Domain
  import opened Protocol
  import opened RoomCodes
  import opened Codec
  import opened CodecTheorems
  import opened Sessions
  import opened History
  import opened Server
  import opened Deliveries
  import opened Effects
  import opened ServerInvariant
  import opened ServerTheorems
  import R = RoomStore
  import Dispatcher

  /** `snd` is one of the messages by which `id`, acting on store `s`, caused effect `e`. */
  ghost predicate Confined(s: R.Store, e: Effect, id: ParticipantId, snd: Delivery) {
    if IsReply(snd.message) then snd.to == id
    else if ReadRoster(snd.message).Some? then
      var shown := ReadRoster(snd.message).value;
      && snd.to != id
      && Has(R.Members(s, shown.code), snd.to)
      && Has(R.Members(e.store, shown.code), snd.to)
      && shown.participants == R.Members(e.store, shown.code)
    else
      e.store == s && exists c :: RelayedWithin(s, id, snd, c)
  }

  ghost predicate RelayedWithin(s: R.Store, id: ParticipantId, snd: Delivery, c: RoomCode) {
    var payload := Field(snd.message, "payload");
    && payload.Some?
    && StringField(payload.value, "room_code") == Some(c)
    && StringField(payload.value, "from_participant_id") == Some(id)
    && StringField(payload.value, "target_participant_id") == Some(snd.to)
    && R.InRoom(s, id, c)
    && R.InRoom(s, snd.to, c)
  }

  lemma {:induction false} ReceiverSendsAre(registry: set<ParticipantId>, ps: seq<Participant>,
      skip: Option<ParticipantId>, m: Json)
    ensures forall snd :: snd in ReceiverSends(registry, ps, skip, m) ==>
      snd.message == m && snd.to in registry && Has(ps, snd.to) && Some(snd.to) != skip
  {
    if ps != [] {
      ReceiverSendsAre(registry, ps[1..], skip, m);
      forall id ensures Has(ps, id) <==> ps[0].id == id || Has(ps[1..], id) {
        HasSplits(ps, id);
      }
    }
  }

  ghost predicate Carries(e: Event, registry: set<ParticipantId>, snd: Delivery) {
    && snd.message == EncodeEvent(e)
    && snd.to in registry
    && Has(e.receivers, snd.to)
    && Some(snd.to) != Skipped(e)
  }

  lemma {:induction false} EventSendsAre(registry: set<ParticipantId>, es: seq<Event>)
    ensures forall snd :: snd in DeliverEvents(registry, es) ==> exists e :: e in es && Carries(e, registry, snd)
  {
    if es != [] {
      EventSendsAre(registry, es[1..]);
      ReceiverSendsAre(registry, es[0].receivers, Skipped(es[0]), EncodeEvent(es[0]));
      forall snd | snd in DeliverEvents(registry, es) ensures exists e :: e in es && Carries(e, registry, snd) {
        if snd in EventSends(registry, es[0]) {
          assert Carries(es[0], registry, snd);
        } else {
          assert snd in DeliverEvents(registry, es[1..]);
          var e :| e in es[1..] && Carries(e, registry, snd);
        }
      }
    }
  }

  lemma EventOfChangeIsConfined(s: R.Store, registry: set<ParticipantId>, id: ParticipantId, r: Request,
      o: Dispatcher.Outcome, ch: Change, sends: seq<Delivery>, snd: Delivery)
    requires R.WellFormed(s) && Explains(ch, s, id, r, o)
    requires snd in DeliverEvents(registry, o.events)
    ensures Confined(s, Effect(o.store, sends, FactsOf(r, o.response)), id, snd)
  {
    EventSendsAre(registry, o.events);
    var e :| e in o.events && Carries(e, registry, snd);
    EventShowsRoster(e);
    ShareOfEvent(s, registry, id, r, o, ch, snd.to);
    if ch.Leaves? {
      WithoutMembers(s[ch.code].participants, id);
    }
  }

  lemma RelayIsConfined(s: R.Store, id: ParticipantId, json: Json, e: Effect)
    requires DecodeRequest(id, json).Accepted?
    requires DecodeRequest(id, json).request.command.SignalingCommand?
    requires e.store == s
    requires var signal := DecodeRequest(id, json).request.command.signal;
      R.InRoom(s, signal.from, signal.room) && R.InRoom(s, signal.target, signal.room)
    ensures var signal := DecodeRequest(id, json).request.command.signal;
      Confined(s, e, id, Delivery(signal.target, EncodeSignal(signal)))
  {
    RelayIsFaithful(id, json);
    AcceptedRequestsAreIssued(id, json);
    var signal := DecodeRequest(id, json).request.command.signal;
    var fields := Field(json, "payload").value.fields;
    var payload := Obj(fields["from_participant_id" := Str(id)]);
    assert StringField(payload, "room_code") == Some(signal.room);
    assert StringField(payload, "target_participant_id") == Some(signal.target);
    assert RelayedWithin(s, id, Delivery(signal.target, EncodeSignal(signal)), signal.room);
  }

  lemma AcceptedIsConfined(s: R.Store, registry: set<ParticipantId>, id: ParticipantId, json: Json, draws: seq<Draw>,
      snd: Delivery)
    requires R.WellFormed(s) && DecodeRequest(id, json).Accepted?
    requires snd in Handle(s, registry, id, Text(json), draws).sends
    ensures Confined(s, Handle(s, registry, id, Text(json), draws), id, snd)
  {
    AcceptedRequestsAreIssued(id, json);
    var r := DecodeRequest(id, json).request;
    var o := Dispatcher.Dispatch(s, r, draws);
    DispatchExplained(s, id, r, draws);
    var ch := ChangeOf(s, r, draws);
    if snd in DeliverEvents(registry, o.events) {
      EventOfChangeIsConfined(s, registry, id, r, o, ch, Respond(registry, id, o), snd);
    } else if snd == Delivery(id, EncodeResponse(o.response)) {
      ResponsesAnswer(id, json, o.response);
    } else if o.response.payload.signal.target in registry {
      RelayIsConfined(s, id, json, Handle(s, registry, id, Text(json), draws));
    } else {
      ResponsesAnswer(id, json, Failed(o.response.meta, ParticipantUnavailable));
    }
  }

  lemma HandlingIsConfined(s: R.Store, registry: set<ParticipantId>, id: ParticipantId, m: Inbound, draws: seq<Draw>,
      snd: Delivery)
    requires R.WellFormed(s)
    requires snd in Handle(s, registry, id, m, draws).sends
    ensures Confined(s, Handle(s, registry, id, m, draws), id, snd)
  {
    if m.Text? && DecodeRequest(id, m.json).Accepted? {
      AcceptedIsConfined(s, registry, id, m.json, draws, snd);
    } else if m.Text? {
      RejectionsAreAnswered(id, m.json);
    } else {
      ProtocolErrorShape(None, if m.Binary? then "invalid_message" else "invalid_json", None);
    }
  }

  lemma {:induction false} EventsOfDepartures(left: seq<R.LeftRoom>)
    ensures forall e :: e in Dispatcher.DepartureEvents(left) ==>
      exists d :: d in left && e == LeftRoomEvent(d.code, d.id, d.remaining)
  {
    if left != [] {
      EventsOfDepartures(left[1..]);
      forall e | e in Dispatcher.DepartureEvents(left)
        ensures exists d :: d in left && e == LeftRoomEvent(d.code, d.id, d.remaining)
      {
        if e in Dispatcher.DepartureEvents(left[1..]) {
          var d :| d in left[1..] && e == LeftRoomEvent(d.code, d.id, d.remaining);
        } else {
          assert left[0] in left;
        }
      }
    }
  }

  lemma CleanupIsConfined(s: R.Store, registry: set<ParticipantId>, id: ParticipantId, order: seq<RoomCode>,
      snd: Delivery)
    requires R.WellFormed(s) && R.Enumerates(order, s)
    requires snd in Cleanup(s, registry, id, order).sends
    ensures Confined(s, Cleanup(s, registry, id, order), id, snd)
    ensures !IsReply(snd.message)
  {
    R.CleanupIsComplete(s, order, id);
    DepartingListsAreDistinct(s, order, id);
    var left := R.Departures(s, order, id);
    EventSendsAre(registry, Dispatcher.DepartureEvents(left));
    var e :| e in Dispatcher.DepartureEvents(left) && Carries(e, registry, snd);
    EventsOfDepartures(left);
    var d :| d in left && e == LeftRoomEvent(d.code, d.id, d.remaining);
    EventShowsRoster(e);
    WithoutMembers(s[d.code].participants, id);
    assert d.remaining != [];
  }

  // ------------------------------------------------------------------
  // Over runs
  // ------------------------------------------------------------------

  /** The steps that take their session out of the registry. */
  ghost predicate Removes(w: World, l: Label)
    requires Enabled(w, l)
  {
    && !l.Connect?
    && w.sessions[l.id].registered
    && (|| l.ReadClosed?
        || l.ReadFailed?
        || (l.WriteDone? && !l.ok)
        || (l.RunPosted? && w.sessions[l.id].posted[0].CloseTask? && !w.sessions[l.id].closing))
  }

  /** What a step sends and does to the rooms. */
  ghost function EffectOf(w: World, l: Label): Effect
    requires Enabled(w, l)
  {
    if l.ReadDone? then Handle(w.store, w.registry, l.id, l.message, l.draws)
    else if Removes(w, l) then Cleanup(w.store, w.registry - {l.id}, l.id, l.order)
    else Effect(w.store, [], [])
  }

  ghost predicate HasEffect(w: World, w': World, e: Effect) {
    && w'.store == e.store
    && w'.facts == w.facts + e.facts
    && (forall x :: x in w.sessions ==> x in w'.sessions)
    && (forall x :: x in w.sessions ==> w'.sessions[x].sent == w.sessions[x].sent + For(e.sends, x))
    && (forall x :: x in w'.sessions && x !in w.sessions ==> w'.sessions[x].sent == [])
  }

  lemma LocalHasNoEffect(w: World, id: ParticipantId, s: Session)
    requires s.sent == if id in w.sessions then w.sessions[id].sent else []
    ensures HasEffect(w, Local(w, id, s), Effect(w.store, [], []))
  {
    assert w.facts + [] == w.facts;
    forall x | x in w.sessions ensures w.sessions[x].sent + For([], x) == w.sessions[x].sent {
    }
  }

  lemma AcceptHasNoEffect(w: World, id: ParticipantId, s: Session, registry: set<ParticipantId>)
    requires id in w.sessions && s.sent == w.sessions[id].sent
    ensures HasEffect(w, Local(w, id, s).(registry := registry), Effect(w.store, [], []))
  {
    LocalHasNoEffect(w, id, s);
  }

  lemma RemovalHasEffect(w: World, id: ParticipantId, s: Session, order: seq<RoomCode>)
    requires id in w.sessions && s.sent == w.sessions[id].sent && s.registered
    ensures HasEffect(w, RemoveFromRegistry(Local(w, id, s), id, order), Cleanup(w.store, w.registry - {id}, id, order))
  {
  }

  lemma HandlingHasEffect(w: World, id: ParticipantId, m: Inbound, draws: seq<Draw>)
    requires id in w.sessions
    ensures HasEffect(w, Handled(w, id, m, draws), Handle(w.store, w.registry, id, m, draws))
  {
    hide Handle, For;
  }

  lemma NoRemovalNoEffect(w: World, id: ParticipantId, s: Session, order: seq<RoomCode>)
    requires id in w.sessions && s.sent == w.sessions[id].sent && !s.registered
    ensures HasEffect(w, RemoveFromRegistry(Local(w, id, s), id, order), Effect(w.store, [], []))
  {
    LocalHasNoEffect(w, id, s);
  }

  lemma RemovingStepHasThatEffect(w: World, l: Label, s: Session)
    requires Enabled(w, l) && (l.AcceptDone? || l.ReadClosed? || l.ReadFailed? || l.WriteDone? || l.RunPosted?)
    requires s.sent == w.sessions[l.id].sent && s.registered == w.sessions[l.id].registered
    requires l.AcceptDone? ==> !s.registered
    requires s.registered ==> Removes(w, l)
    requires Step(w, l) == RemoveFromRegistry(Local(w, l.id, s), l.id, l.order)
    ensures HasEffect(w, Step(w, l), EffectOf(w, l))
  {
    if s.registered {
      RemovalHasEffect(w, l.id, s, l.order);
    } else {
      NoRemovalNoEffect(w, l.id, s, l.order);
    }
  }

  /** Nothing else is ever sent, and nothing else ever happens to the rooms. */
  lemma StepHasThatEffect(w: World, l: Label)
    requires Enabled(w, l)
    requires l.AcceptDone? ==> !w.sessions[l.id].registered
    ensures HasEffect(w, Step(w, l), EffectOf(w, l))
  {
    hide Handle, Cleanup, HasEffect;
    match l
    case Connect(id) => LocalHasNoEffect(w, id, Fresh());
    case AcceptDone(id, ok, order) =>
      if ok {
        AcceptHasNoEffect(w, id, w.sessions[id].(phase := Reading, registered := true), w.registry + {id});
      } else {
        RemovingStepHasThatEffect(w, l, w.sessions[id].(phase := Halted, closing := true));
      }
    case ReadClosed(id, order) => RemovingStepHasThatEffect(w, l, w.sessions[id].(phase := Halted));
    case ReadFailed(id, order) => RemovingStepHasThatEffect(w, l, w.sessions[id].(phase := Halted, closing := true));
    case ReadDone(id, m, draws) => HandlingHasEffect(w, id, m, draws);
    case WriteDone(id, ok, order) =>
      if ok {
        LocalHasNoEffect(w, id, WriteSucceeded(w.sessions[id]));
      } else {
        RemovingStepHasThatEffect(w, l, WriteFailed(w.sessions[id]).(closing := true));
      }
    case CallClose(id) => LocalHasNoEffect(w, id, w.sessions[id].(posted := w.sessions[id].posted + [CloseTask]));
    case RunPosted(id, order) =>
      var s := w.sessions[id].(posted := w.sessions[id].posted[1..]);
      match w.sessions[id].posted[0] {
        case SendTask(m) => LocalHasNoEffect(w, id, RunSend(s, m));
        case CloseTask =>
          if s.closing {
            LocalHasNoEffect(w, id, s);
          } else {
            RemovingStepHasThatEffect(w, l, s.(closing := true));
          }
      }
  }

  /** In every step of every run, each message sent is confined, and relaying a signal leaves all
      rooms as they are. */
  lemma RoomConfinement(ls: seq<Label>, l: Label, snd: Delivery)
    requires Runs(ls) && Enabled(After(ls), l)
    requires snd in EffectOf(After(ls), l).sends
    ensures Confined(After(ls).store, EffectOf(After(ls), l), l.id, snd)
  {
    var w := After(ls);
    EveryRunKeepsInv(ls);
    if l.ReadDone? {
      HandlingIsConfined(w.store, w.registry, l.id, l.message, l.draws, snd);
    } else {
      CleanupIsConfined(w.store, w.registry - {l.id}, l.id, l.order, snd);
    }
  }

  // ------------------------------------------------------------------
  // participant_unavailable
  // ------------------------------------------------------------------

  predicate SaysUnavailable(m: Json) {
    ErrorCodeOf(m) == Some("participant_unavailable")
  }

  lemma OnlyOneFailureSaysSo(r: Response)
    ensures SaysUnavailable(EncodeResponse(r)) <==> r.Failed? && r.reason == ParticipantUnavailable
  {
    ReplyTells(r);
    if SaysUnavailable(EncodeResponse(r)) {
      ErrorCodesAreDistinct(r.reason, ParticipantUnavailable);
    }
  }

  lemma PushesSayNothing(kind: string, payload: Json)
    ensures !SaysUnavailable(Push(kind, payload))
  {
    assert Field(Push(kind, payload), "error") == None;
  }

  lemma DecodeErrorCodes(id: ParticipantId, json: Json)
    requires DecodeRequest(id, json).Rejected?
    ensures DecodeRequest(id, json).code in {"invalid_message", "missing_field", "invalid_field"}
  {
  }

  lemma ProtocolErrorsSayNothing(meta: Option<Meta>, code: string, requestId: Option<string>)
    requires code in {"invalid_message", "missing_field", "invalid_field", "invalid_json"}
    ensures !SaysUnavailable(EncodeProtocolError(meta, code, requestId))
  {
    ProtocolErrorShape(meta, code, requestId);
    assert StringField(ErrorBody(code), "code") == Some(code);
    assert "participant_unavailable"[0] == 'p';
  }

  /** A session is told that a participant is unavailable exactly when both ends of its signal are
      in the room but the target has no registered session. */
  ghost predicate TargetGone(s: R.Store, registry: set<ParticipantId>, id: ParticipantId, m: Inbound) {
    && m.Text?
    && DecodeRequest(id, m.json).Accepted?
    && DecodeRequest(id, m.json).request.command.SignalingCommand?
    && var signal := DecodeRequest(id, m.json).request.command.signal;
       && R.InRoom(s, signal.from, signal.room)
       && R.InRoom(s, signal.target, signal.room)
       && signal.target !in registry
  }

  lemma AcceptedUnavailableIff(s: R.Store, registry: set<ParticipantId>, id: ParticipantId, r: Request,
      o: Dispatcher.Outcome, ch: Change)
    requires Explains(ch, s, id, r, o)
    ensures (o.response.Succeeded? && o.response.payload.Signaled? && o.response.payload.signal.target !in registry) <==>
      exists d :: d in Respond(registry, id, o) && SaysUnavailable(d.message)
  {
    hide SaysUnavailable, EncodeResponse, EncodeSignal, EncodeEvent;
    OnlyOneFailureSaysSo(o.response);
    OnlyOneFailureSaysSo(Failed(o.response.meta, ParticipantUnavailable));
    EventSendsAre(registry, o.events);
    forall e | e in o.events ensures !SaysUnavailable(EncodeEvent(e)) {
      EventsSayNothing(e);
    }
    if o.response.Succeeded? && o.response.payload.Signaled? {
      SignalsSayNothing(o.response.payload.signal);
      if o.response.payload.signal.target !in registry {
        assert Respond(registry, id, o)[0] in Respond(registry, id, o);
      }
    }
  }

  lemma SignalsSayNothing(signal: Signal)
    ensures !SaysUnavailable(EncodeSignal(signal))
  {
    PushesSayNothing(SignalingName(signal.kind), RelayPayload(signal));
  }

  lemma UnavailableIff(s: R.Store, registry: set<ParticipantId>, id: ParticipantId, m: Inbound, draws: seq<Draw>)
    ensures TargetGone(s, registry, id, m) <==>
      exists d :: d in Handle(s, registry, id, m, draws).sends && SaysUnavailable(d.message)
  {
    hide SaysUnavailable, DecodeRequest, Respond, EncodeProtocolError;
    if m.Text? && DecodeRequest(id, m.json).Accepted? {
      AcceptedRequestsAreIssued(id, m.json);
      var r := DecodeRequest(id, m.json).request;
      var o := Dispatcher.Dispatch(s, r, draws);
      DispatchExplained(s, id, r, draws);
      AcceptedUnavailableIff(s, registry, id, r, o, ChangeOf(s, r, draws));
    } else if m.Text? {
      DecodeErrorCodes(id, m.json);
      var d := DecodeRequest(id, m.json);
      ProtocolErrorsSayNothing(d.meta, d.code, d.requestId);
    } else {
      ProtocolErrorsSayNothing(None, if m.Binary? then "invalid_message" else "invalid_json", None);
    }
  }

  lemma EventsSayNothing(e: Event)
    ensures !SaysUnavailable(EncodeEvent(e))
  {
    match e
    case JoinedRoomEvent(code, p, ps) =>
      PushesSayNothing("participant_joined",
        Obj(map["room_code" := Str(code), "participants" := Arr(ParticipantItems(ps)), "participant" := ParticipantToJson(p)]));
    case LeftRoomEvent(code, id, ps) =>
      PushesSayNothing("participant_left",
        Obj(map["room_code" := Str(code), "participants" := Arr(ParticipantItems(ps)), "participant_id" := Str(id)]));
  }

  lemma TargetsAreThere(w: World, id: ParticipantId, m: Inbound)
    requires MembersLive(w)
    ensures !TargetGone(w.store, w.registry, id, m)
  {
    if m.Text? && DecodeRequest(id, m.json).Accepted? && DecodeRequest(id, m.json).request.command.SignalingCommand? {
      var signal := DecodeRequest(id, m.json).request.command.signal;
      assert R.InRoom(w.store, signal.target, signal.room) ==> Has(R.Members(w.store, signal.room), signal.target);
    }
  }

  lemma LiveStepSaysNothing(w: World, l: Label, snd: Delivery)
    requires Inv(w) && MembersLive(w) && Enabled(w, l)
    requires snd in EffectOf(w, l).sends
    ensures !SaysUnavailable(snd.message)
  {
    if l.ReadDone? {
      UnavailableIff(w.store, w.registry, l.id, l.message, l.draws);
      TargetsAreThere(w, l.id, l.message);
    } else {
      EventSendsAre(w.registry - {l.id}, Dispatcher.Disconnect(w.store, l.order, l.id).1);
      var e :| e in Dispatcher.Disconnect(w.store, l.order, l.id).1 && Carries(e, w.registry - {l.id}, snd);
      EventsSayNothing(e);
    }
  }

  lemma {:induction false} ShareComesFromSends(sends: seq<Delivery>, x: ParticipantId)
    ensures forall m :: m in For(sends, x) ==> Delivery(x, m) in sends
  {
    if sends != [] {
      ShareComesFromSends(sends[1..], x);
    }
  }

  lemma NewMessagesComeFromTheEffect(w: World, l: Label, x: ParticipantId, m: Json)
    requires Inv(w) && Enabled(w, l)
    requires x in Step(w, l).sessions && m in Step(w, l).sessions[x].sent
    ensures (x in w.sessions && m in w.sessions[x].sent) || Delivery(x, m) in EffectOf(w, l).sends
  {
    if l.AcceptDone? {
      assert SessionOk(w.sessions[l.id]);
    }
    StepHasThatEffect(w, l);
    ShareComesFromSends(EffectOf(w, l).sends, x);
  }

  /** While no cleaned-up session is let into a room, nobody is ever told so. */
  lemma {:induction false} NobodyIsEverUnavailable(ls: seq<Label>, x: ParticipantId, m: Json)
    requires Runs(ls) && NeverAdmitsUnregistered(ls)
    requires x in After(ls).sessions && m in After(ls).sessions[x].sent
    ensures !SaysUnavailable(m)
    decreases |ls|
  {
    if ls != [] {
      var before, l := ls[..|ls| - 1], ls[|ls| - 1];
      var w := After(before);
      EveryRunKeepsInv(before);
      MembersAreLive(before);
      NewMessagesComeFromTheEffect(w, l, x, m);
      if x in w.sessions && m in w.sessions[x].sent {
        NobodyIsEverUnavailable(before, x, m);
      } else {
        LiveStepSaysNothing(w, l, Delivery(x, m));
      }
    }
  }
}
