/** The message-level contract of handling one message: one direct reply, the right lists to the
    right people, and nothing to anybody outside the room. */
module Effects {
  import opened Domain
  import opened Protocol
  import opened RoomCodes
  import opened Codec
  import opened CodecTheorems
  import opened History
  import opened Server
  import opened Deliveries
  import R = RoomStore
  import Dispatcher

  // ------------------------------------------------------------------
  // Each recipient's share
  // ------------------------------------------------------------------

  lemma ShareOfPlainOutcome(registry: set<ParticipantId>, id: ParticipantId, o: Dispatcher.Outcome, x: ParticipantId)
    requires !(o.response.Succeeded? && o.response.payload.Signaled?)
    ensures For(Respond(registry, id, o), x) ==
      (if x == id then [EncodeResponse(o.response)] else []) + For(DeliverEvents(registry, o.events), x)
  {
    ForConcat([Delivery(id, EncodeResponse(o.response))], DeliverEvents(registry, o.events), x);
    ForOne(id, EncodeResponse(o.response), x);
  }

  lemma ShareOfSignal(registry: set<ParticipantId>, id: ParticipantId, o: Dispatcher.Outcome, x: ParticipantId)
    requires o.response.Succeeded? && o.response.payload.Signaled? && o.events == []
    ensures var signal := o.response.payload.signal;
      For(Respond(registry, id, o), x) ==
        if signal.target in registry
        then (if x == signal.target then [EncodeSignal(signal)] else []) + (if x == id then [EncodeResponse(o.response)] else [])
        else if x == id then [EncodeResponse(Failed(o.response.meta, ParticipantUnavailable))] else []
  {
    var signal := o.response.payload.signal;
    if signal.target in registry {
      var a, b := [Delivery(signal.target, EncodeSignal(signal))], [Delivery(id, EncodeResponse(o.response))];
      assert Respond(registry, id, o) == a + b;
      ForConcat(a, b, x);
      ForOne(signal.target, EncodeSignal(signal), x);
      ForOne(id, EncodeResponse(o.response), x);
    } else {
      ForOne(id, EncodeResponse(Failed(o.response.meta, ParticipantUnavailable)), x);
    }
  }

  lemma ShareOfEvent(s: R.Store, registry: set<ParticipantId>, id: ParticipantId, r: Request, o: Dispatcher.Outcome,
      ch: Change, x: ParticipantId)
    requires R.WellFormed(s) && Explains(ch, s, id, r, o)
    ensures For(DeliverEvents(registry, o.events), x) ==
      if o.events != [] && x != id && x in registry && Has(o.events[0].receivers, x) then [EncodeEvent(o.events[0])] else []
    ensures o.events != [] ==> o.events[0].receivers == R.Members(o.store, ch.code) && o.events[0].code == ch.code
  {
    match ch
    case Opens(_, _, _, _) =>
    case Nothing =>
    case Enters(code, p, supplied) =>
      R.JoinKeepsWellFormed(s, code, p, supplied);
      OneEventDelivered(registry, o.events[0], x);
    case Leaves(code) =>
      WithoutDistinct(s[code].participants, id);
      WithoutMembers(s[code].participants, id);
      OneEventDelivered(registry, o.events[0], x);
  }

  // ------------------------------------------------------------------
  // Exactly one direct reply
  // ------------------------------------------------------------------

  /** `share` holds exactly one reply, and it answers `m`. */
  predicate AnsweredOnce(share: seq<Json>, m: Inbound) {
    |Replies(share)| == 1 && Answers(Replies(share)[0], m)
  }

  lemma RepliesOfTwo(a: seq<Json>, b: seq<Json>)
    requires |a| <= 1 && |b| <= 1
    ensures Replies(a + b) == (if a != [] && IsReply(a[0]) then a else []) + (if b != [] && IsReply(b[0]) then b else [])
  {
    RepliesConcat(a, b);
  }

  /** The response the session is sent in the end: a signal whose target has no registered session
      is refused after all. */
  function Delivered(registry: set<ParticipantId>, response: Response): Response {
    if response.Succeeded? && response.payload.Signaled? && response.payload.signal.target !in registry
    then Failed(response.meta, ParticipantUnavailable)
    else response
  }

  /** The share's only reply is the encoding of that response. */
  lemma AcceptedReply(s: R.Store, registry: set<ParticipantId>, id: ParticipantId, json: Json,
      draws: seq<Draw>, x: ParticipantId)
    requires R.WellFormed(s)
    requires DecodeRequest(id, json).Accepted?
    ensures var o := Dispatcher.Dispatch(s, DecodeRequest(id, json).request, draws);
      Replies(For(Handle(s, registry, id, Text(json), draws).sends, x)) ==
        if x == id then [EncodeResponse(Delivered(registry, o.response))] else []
  {
    hide EncodeResponse, EncodeEvent, EncodeSignal, ReadRoster, DeliverEvents, For, Replies, Respond;
    hide Answers, IsReply, DecodeRequest, Dispatcher.Dispatch, R.WellFormed;
    var r := DecodeRequest(id, json).request;
    var o := Dispatcher.Dispatch(s, r, draws);
    AcceptedFits(s, id, json, draws);
    ResponseIsReply(id, json, Delivered(registry, o.response));
    var reply := if x == id then [EncodeResponse(Delivered(registry, o.response))] else [];
    if o.response.Succeeded? && o.response.payload.Signaled? {
      ShareOfSignal(registry, id, o, x);
      RelayIsFaithful(id, json);
      var signal := o.response.payload.signal;
      var relay := if x == signal.target && signal.target in registry then [EncodeSignal(signal)] else [];
      assert For(Respond(registry, id, o), x) == relay + reply;
      RepliesOfTwo(relay, reply);
    } else {
      ShareOfPlainOutcome(registry, id, o, x);
      ShareOfEvent(s, registry, id, r, o, ChangeOf(s, r, draws), x);
      if o.events != [] {
        EventShowsRoster(o.events[0]);
      }
      RepliesOfTwo(reply, For(DeliverEvents(registry, o.events), x));
    }
  }

  /** What the dispatcher decides about an accepted message fits the message. */
  lemma AcceptedFits(s: R.Store, id: ParticipantId, json: Json, draws: seq<Draw>)
    requires DecodeRequest(id, json).Accepted?
    ensures var r := DecodeRequest(id, json).request;
      var o := Dispatcher.Dispatch(s, r, draws);
      && Explains(ChangeOf(s, r, draws), s, id, r, o)
      && o.response.meta == r.meta
      && (o.response.Succeeded? ==> Fits(r.meta, o.response.payload))
      && (o.response.Succeeded? && o.response.payload.Signaled? ==>
            o.events == [] && r.command.SignalingCommand? && o.response.payload.signal == r.command.signal)
  {
    hide DecodeRequest, Dispatcher.Dispatch;
    AcceptedRequestsAreIssued(id, json);
    DispatchExplained(s, id, DecodeRequest(id, json).request, draws);
  }

  lemma ResponseIsReply(id: ParticipantId, json: Json, response: Response)
    requires DecodeRequest(id, json).Accepted?
    requires response.meta == DecodeRequest(id, json).request.meta
    requires response.Succeeded? ==> Fits(response.meta, response.payload)
    ensures IsReply(EncodeResponse(response))
  {
    hide DecodeRequest, EncodeResponse, IsReply;
    ResponsesAnswer(id, json, response);
  }

  lemma AcceptedAnsweredOnce(s: R.Store, registry: set<ParticipantId>, id: ParticipantId, json: Json,
      draws: seq<Draw>, x: ParticipantId)
    requires R.WellFormed(s)
    requires DecodeRequest(id, json).Accepted?
    ensures var share := For(Handle(s, registry, id, Text(json), draws).sends, x);
      if x == id then AnsweredOnce(share, Text(json)) else Replies(share) == []
  {
    hide EncodeResponse, Answers, DecodeRequest, Dispatcher.Dispatch, Handle, For, Replies;
    AcceptedReply(s, registry, id, json, draws, x);
    AcceptedFits(s, id, json, draws);
    ResponsesAnswer(id, json, Delivered(registry, Dispatcher.Dispatch(s, DecodeRequest(id, json).request, draws).response));
  }

  /** Every inbound message, whatever it is, yields exactly one direct reply to its sender, which
      carries the request id and the type that the message calls for, and no reply to anybody else. */
  lemma EveryMessageIsAnsweredOnce(s: R.Store, registry: set<ParticipantId>, id: ParticipantId, m: Inbound,
      draws: seq<Draw>, x: ParticipantId)
    requires R.WellFormed(s)
    ensures var share := For(Handle(s, registry, id, m, draws).sends, x);
      if x == id then AnsweredOnce(share, m) else Replies(share) == []
  {
    if m.Text? && DecodeRequest(id, m.json).Accepted? {
      AcceptedAnsweredOnce(s, registry, id, m.json, draws, x);
    } else {
      var reply := ErrorTo(id, m);
      ForOne(id, reply, x);
      RepliesOfTwo([], [reply]);
      if m.Text? {
        RejectionsAreAnswered(id, m.json);
      } else {
        ProtocolErrorShape(None, if m.Binary? then "invalid_message" else "invalid_json", None);
      }
      assert [] + [reply] == [reply];
    }
  }

  function ErrorTo(id: ParticipantId, m: Inbound): Json
    requires m.Text? ==> DecodeRequest(id, m.json).Rejected?
  {
    match m
    case Binary => EncodeProtocolError(None, "invalid_message", None)
    case Malformed => EncodeProtocolError(None, "invalid_json", None)
    case Text(json) => ErrorReply(DecodeRequest(id, json))
  }

  // ------------------------------------------------------------------
  // The right lists
  // ------------------------------------------------------------------

  /** After the effect, either `x` was just shown the room's list, or nothing about the room
      concerned it. */
  ghost predicate Refreshed(s: R.Store, e: Effect, x: ParticipantId, c: RoomCode) {
    var shown := View(For(e.sends, x), c);
    || shown == Some(R.Members(e.store, c))
    || (shown == None && R.Members(e.store, c) == R.Members(s, c))
  }

  lemma ViewOfTwo(a: seq<Json>, b: seq<Json>, c: RoomCode)
    requires |a| <= 1 && |b| <= 1
    ensures View(a + b, c) ==
      var shown := if b != [] then ReadRoster(b[0]) else None;
      var earlier := if a != [] then ReadRoster(a[0]) else None;
      if shown.Some? && shown.value.code == c then Some(shown.value.participants)
      else if earlier.Some? && earlier.value.code == c then Some(earlier.value.participants)
      else None
  {
    hide ReadRoster, View;
    ViewOfNone(c);
    ViewConcat(a, b, c);
    if a != [] {
      assert a == [a[0]];
      ViewOfOne(a[0], c);
    }
    if b != [] {
      assert b == [b[0]];
      ViewOfOne(b[0], c);
    }
  }

  /** A member with a registered session is shown every change to its rooms as it happens. */
  lemma HandleRefreshes(s: R.Store, registry: set<ParticipantId>, id: ParticipantId, m: Inbound, draws: seq<Draw>,
      x: ParticipantId, c: RoomCode)
    requires R.WellFormed(s)
    requires x in registry || x == id
    requires Has(R.Members(Handle(s, registry, id, m, draws).store, c), x)
    ensures Refreshed(s, Handle(s, registry, id, m, draws), x, c)
  {
    if m.Text? && DecodeRequest(id, m.json).Accepted? {
      AcceptedRefreshes(s, registry, id, m.json, draws, x, c);
    } else {
      var reply := ErrorTo(id, m);
      ForOne(id, reply, x);
      ViewOfOne(reply, c);
      if m.Text? {
        RejectionsAreAnswered(id, m.json);
      } else {
        ProtocolErrorShape(None, if m.Binary? then "invalid_message" else "invalid_json", None);
      }
    }
  }

  lemma AcceptedRefreshes(s: R.Store, registry: set<ParticipantId>, id: ParticipantId, json: Json, draws: seq<Draw>,
      x: ParticipantId, c: RoomCode)
    requires R.WellFormed(s)
    requires DecodeRequest(id, json).Accepted?
    requires x in registry || x == id
    requires Has(R.Members(Handle(s, registry, id, Text(json), draws).store, c), x)
    ensures Refreshed(s, Handle(s, registry, id, Text(json), draws), x, c)
  {
    AcceptedRequestsAreIssued(id, json);
    var r := DecodeRequest(id, json).request;
    var o := Dispatcher.Dispatch(s, r, draws);
    DispatchExplained(s, id, r, draws);
    var ch := ChangeOf(s, r, draws);
    if o.response.Succeeded? && o.response.payload.Signaled? {
      RelayIsFaithful(id, json);
      SignalShowsNoRoster(registry, id, o, x, c);
    } else {
      PlainOutcomeRefreshes(s, registry, id, r, o, ch, x, c);
    }
  }

  lemma SignalShowsNoRoster(registry: set<ParticipantId>, id: ParticipantId, o: Dispatcher.Outcome, x: ParticipantId,
      c: RoomCode)
    requires o.response.Succeeded? && o.response.payload.Signaled? && o.events == []
    requires Fits(o.response.meta, o.response.payload)
    requires ReadRoster(EncodeSignal(o.response.payload.signal)) == None
    ensures View(For(Respond(registry, id, o), x), c) == None
  {
    var unavailable := Failed(o.response.meta, ParticipantUnavailable);
    ResponseShowsRoster(o.response);
    ResponseShowsRoster(unavailable);
    ShareOfSignal(registry, id, o, x);
    ViewOfTwo(if x == o.response.payload.signal.target then [EncodeSignal(o.response.payload.signal)] else [],
              if x == id then [EncodeResponse(o.response)] else [], c);
    ViewOfOne(EncodeResponse(unavailable), c);
  }

  lemma PlainOutcomeRefreshes(s: R.Store, registry: set<ParticipantId>, id: ParticipantId, r: Request,
      o: Dispatcher.Outcome, ch: Change, x: ParticipantId, c: RoomCode)
    requires R.WellFormed(s) && Explains(ch, s, id, r, o)
    requires o.response.Succeeded? ==> Fits(o.response.meta, o.response.payload) && !o.response.payload.Signaled?
    requires x in registry || x == id
    requires Has(R.Members(o.store, c), x)
    ensures Refreshed(s, Effect(o.store, Respond(registry, id, o), FactsOf(r, o.response)), x, c)
  {
    hide EncodeResponse, EncodeEvent, ReadRoster, DeliverEvents, For, View, Respond;
    ResponseShowsRoster(o.response);
    ShareOfPlainOutcome(registry, id, o, x);
    ShareOfEvent(s, registry, id, r, o, ch, x);
    if o.events != [] {
      EventShowsRoster(o.events[0]);
    }
    ViewOfTwo(if x == id then [EncodeResponse(o.response)] else [], For(DeliverEvents(registry, o.events), x), c);
    if ch.Leaves? {
      WithoutMembers(s[ch.code].participants, id);
    }
  }

  // ------------------------------------------------------------------
  // Disconnects
  // ------------------------------------------------------------------

  /** A cleanup sends no replies, and shows each room's remaining members the list they are left
      with. */
  lemma {:induction false} DeparturesShown(registry: set<ParticipantId>, left: seq<R.LeftRoom>, x: ParticipantId,
      c: RoomCode)
    requires forall d :: d in left ==> DistinctIds(d.remaining)
    requires forall i, j :: 0 <= i < j < |left| ==> left[i].code != left[j].code
    ensures var share := For(DeliverEvents(registry, Dispatcher.DepartureEvents(left)), x);
      && Replies(share) == []
      && (View(share, c).Some? ==> exists d :: d in left && d.code == c && x in registry && Has(d.remaining, x) && View(share, c) == Some(d.remaining))
      && (View(share, c).None? ==> forall d :: d in left && d.code == c ==> x !in registry || !Has(d.remaining, x))
  {
    if left != [] {
      var rest := left[1..];
      assert left == [left[0]] + rest;
      DeparturesShown(registry, rest, x, c);
      var e := LeftRoomEvent(left[0].code, left[0].id, left[0].remaining);
      var es := Dispatcher.DepartureEvents(rest);
      assert Dispatcher.DepartureEvents(left)[1..] == es;
      assert left[0] in left;
      ReceiversGetOne(registry, e.receivers, None, EncodeEvent(e), x);
      var head, tail := For(EventSends(registry, e), x), For(DeliverEvents(registry, es), x);
      ForConcat(EventSends(registry, e), DeliverEvents(registry, es), x);
      EventShowsRoster(e);
      RepliesConcat(head, tail);
      ViewConcat(head, tail, c);
      if head != [] {
        ViewOfOne(EncodeEvent(e), c);
      }
    }
  }

  lemma CleanupRefreshes(s: R.Store, registry: set<ParticipantId>, id: ParticipantId, order: seq<RoomCode>,
      x: ParticipantId, c: RoomCode)
    requires R.WellFormed(s) && R.Enumerates(order, s)
    requires x in registry && x != id
    requires Has(R.Members(Cleanup(s, registry, id, order).store, c), x)
    ensures Refreshed(s, Cleanup(s, registry, id, order), x, c)
  {
    R.CleanupIsComplete(s, order, id);
    var left := R.Departures(s, order, id);
    DepartingListsAreDistinct(s, order, id);
    DeparturesShown(registry, left, x, c);
    if c in order && R.InRoom(s, id, c) {
      var d := R.LeftRoom(c, id, Without(s[c].participants, id));
      assert d in left;
    } else {
      R.SweptRoom(s, c, id);
    }
  }

  lemma DepartingListsAreDistinct(s: R.Store, order: seq<RoomCode>, id: ParticipantId)
    requires R.WellFormed(s) && R.Enumerates(order, s)
    ensures var left := R.Departures(s, order, id);
      && (forall d :: d in left ==> DistinctIds(d.remaining))
      && (forall i, j :: 0 <= i < j < |left| ==> left[i].code != left[j].code)
      && (forall d :: d in left <==> d.code in order && R.InRoom(s, id, d.code) && d == R.LeftRoom(d.code, id, Without(s[d.code].participants, id)))
  {
    R.DeparturesAre(s, order, id);
    forall d | d in R.Departures(s, order, id) ensures DistinctIds(d.remaining) {
      WithoutDistinct(s[d.code].participants, id);
    }
  }

  lemma CleanupRepliesToNobody(s: R.Store, registry: set<ParticipantId>, id: ParticipantId, order: seq<RoomCode>,
      x: ParticipantId)
    requires R.WellFormed(s) && R.Enumerates(order, s)
    ensures Replies(For(Cleanup(s, registry, id, order).sends, x)) == []
  {
    R.CleanupIsComplete(s, order, id);
    DepartingListsAreDistinct(s, order, id);
    DeparturesShown(registry, R.Departures(s, order, id), x, "");
  }
}
