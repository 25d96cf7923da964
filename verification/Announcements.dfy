/** What the others are told, unasked, when somebody comes, goes or signals: who it was, and nothing
    else. */
module Announcements {
  import opened Domain
  import opened Protocol
  import opened RoomCodes
  import opened Codec
  import opened CodecTheorems
  import opened Server
  import opened Deliveries
  import opened Effects
  import opened ServerTheorems
  import opened Confinement
  import R = RoomStore
  import Dispatcher

  /** The messages of a log that answer nothing. */
  function Pushes(log: seq<Json>): seq<Json> {
    if log == [] then []
    else (if IsReply(log[0]) then [] else [log[0]]) + Pushes(log[1..])
  }

  lemma PushesOfTwo(a: seq<Json>, b: seq<Json>)
    requires |a| <= 1 && |b| <= 1
    ensures Pushes(a + b) == (if a != [] && !IsReply(a[0]) then a else []) + (if b != [] && !IsReply(b[0]) then b else [])
  {
    hide IsReply;
    PushesOfOne(b);
    if a == [] {
      assert a + b == b;
    } else {
      assert (a + b)[0] == a[0] && (a + b)[1..] == b;
      assert a == [a[0]];
    }
  }

  lemma PushesOfOne(a: seq<Json>)
    requires |a| <= 1
    ensures Pushes(a) == if a != [] && !IsReply(a[0]) then a else []
  {
    hide IsReply;
    if a != [] {
      assert a == [a[0]] && a[1..] == [];
    }
  }

  // ------------------------------------------------------------------
  // Messages
  // ------------------------------------------------------------------

  /** What an inbound message does to the rooms. */
  ghost function Caused(s: R.Store, id: ParticipantId, m: Inbound, draws: seq<Draw>): Change {
    if m.Text? && DecodeRequest(id, m.json).Accepted?
    then ChangeOf(s, DecodeRequest(id, m.json).request, draws)
    else Nothing
  }

  /** `m` is a signal for `x` that both ends' membership and `x`'s registered session let through. */
  ghost predicate SignalsTo(s: R.Store, registry: set<ParticipantId>, id: ParticipantId, m: Inbound, x: ParticipantId) {
    && m.Text?
    && DecodeRequest(id, m.json).Accepted?
    && DecodeRequest(id, m.json).request.command.SignalingCommand?
    && var signal := DecodeRequest(id, m.json).request.command.signal;
       && R.InRoom(s, id, signal.room) && R.InRoom(s, signal.target, signal.room)
       && signal.target in registry && signal.target == x
  }

  /** `push` is `json` with its sender filled in. */
  ghost predicate Relays(json: Json, id: ParticipantId, push: Json) {
    var sent := Field(json, "payload");
    && sent.Some? && sent.value.Obj?
    && StringField(push, "type") == StringField(json, "type")
    && Field(push, "payload") == Some(Obj(sent.value.fields["from_participant_id" := Str(id)]))
  }

  /** `x` has a registered session and is in the room, and is not the one who acts. */
  predicate Bystander(s: R.Store, registry: set<ParticipantId>, id: ParticipantId, c: RoomCode, x: ParticipantId) {
    x in registry && x != id && R.InRoom(s, x, c)
  }

  /** What `x` is told of `id`'s change: one message that names the newcomer, one that names who left,
      or none. */
  ghost predicate RightNews(ch: Change, s: R.Store, registry: set<ParticipantId>, id: ParticipantId, x: ParticipantId,
      news: seq<Json>)
  {
    if ch.Enters? && Bystander(s, registry, id, ch.code, x) then
      |news| == 1 && AnnouncesArrival(news[0], ch.code, ch.p, R.Members(s, ch.code) + [ch.p])
    else if ch.Leaves? && Bystander(s, registry, id, ch.code, x) then
      |news| == 1 && AnnouncesDeparture(news[0], ch.code, id, Without(R.Members(s, ch.code), id))
    else
      news == []
  }

  /** The pushes that `x` gets when `id`'s message is handled: the signal meant for it, or the news. */
  ghost predicate RightPushes(s: R.Store, registry: set<ParticipantId>, id: ParticipantId, m: Inbound,
      draws: seq<Draw>, x: ParticipantId, pushes: seq<Json>)
  {
    if SignalsTo(s, registry, id, m, x)
    then |pushes| == 1 && Relays(m.json, id, pushes[0])
    else RightNews(Caused(s, id, m, draws), s, registry, id, x, pushes)
  }

  lemma EventPushes(s: R.Store, registry: set<ParticipantId>, id: ParticipantId, r: Request, o: Dispatcher.Outcome,
      ch: Change, x: ParticipantId)
    requires R.WellFormed(s) && Explains(ch, s, id, r, o)
    ensures RightNews(ch, s, registry, id, x, For(DeliverEvents(registry, o.events), x))
  {
    hide For, DeliverEvents, EncodeEvent, AnnouncesArrival, AnnouncesDeparture, R.WellFormed;
    ShareOfEvent(s, registry, id, r, o, ch, x);
    if o.events != [] {
      EventAnnounces(o.events[0]);
    }
    match ch
    case Enters(c, p, _) => HasAppended(s[c].participants, p, x);
    case Leaves(c) => WithoutMembers(s[c].participants, id);
    case Opens(_, _, _, _) =>
    case Nothing =>
  }

  lemma HasAppended(ps: seq<Participant>, p: Participant, x: ParticipantId)
    ensures Has(ps + [p], x) <==> Has(ps, x) || p.id == x
  {
    assert p in ps + [p];
  }

  lemma SignalDecided(s: R.Store, id: ParticipantId, r: Request, draws: seq<Draw>)
    requires Issued(r, id) && r.command.SignalingCommand?
    ensures Dispatcher.Dispatch(s, r, draws).response.Succeeded? <==>
      R.InRoom(s, id, r.command.signal.room) && R.InRoom(s, r.command.signal.target, r.command.signal.room)
  {
  }

  lemma SignalPushes(s: R.Store, registry: set<ParticipantId>, id: ParticipantId, json: Json, draws: seq<Draw>,
      x: ParticipantId, reply: seq<Json>)
    requires DecodeRequest(id, json).Accepted?
    requires var r := DecodeRequest(id, json).request;
      r.command.SignalingCommand? && Dispatcher.Dispatch(s, r, draws).response == Succeeded(r.meta, Signaled(r.command.signal))
    requires |reply| <= 1 && (reply != [] ==> IsReply(reply[0]))
    ensures var signal := DecodeRequest(id, json).request.command.signal;
      var relay := if x == signal.target && signal.target in registry then [EncodeSignal(signal)] else [];
      RightPushes(s, registry, id, Text(json), draws, x, Pushes(relay + reply))
  {
    hide Pushes, EncodeSignal, IsReply, DecodeRequest, Dispatcher.Dispatch, ReadRoster;
    var r := DecodeRequest(id, json).request;
    AcceptedRequestsAreIssued(id, json);
    SignalDecided(s, id, r, draws);
    RelayIsFaithful(id, json);
    var signal := r.command.signal;
    var relay := if x == signal.target && signal.target in registry then [EncodeSignal(signal)] else [];
    PushesOfTwo(relay, reply);
    assert relay + [] == relay;
  }

  lemma AcceptedPushes(s: R.Store, registry: set<ParticipantId>, id: ParticipantId, json: Json, draws: seq<Draw>,
      x: ParticipantId)
    requires R.WellFormed(s) && DecodeRequest(id, json).Accepted?
    ensures RightPushes(s, registry, id, Text(json), draws, x, Pushes(For(Handle(s, registry, id, Text(json), draws).sends, x)))
  {
    hide For, DeliverEvents, Pushes, Respond, EncodeResponse, EncodeSignal, EncodeEvent, IsReply, DecodeRequest;
    hide Dispatcher.Dispatch, R.WellFormed, ReadRoster, RightNews, R.InRoom;
    var r := DecodeRequest(id, json).request;
    var o := Dispatcher.Dispatch(s, r, draws);
    AcceptedRequestsAreIssued(id, json);
    AcceptedFits(s, id, json, draws);
    ResponseIsReply(id, json, Delivered(registry, o.response));
    var reply := if x == id then [EncodeResponse(Delivered(registry, o.response))] else [];
    if o.response.Succeeded? && o.response.payload.Signaled? {
      ShareOfSignal(registry, id, o, x);
      SignalPushes(s, registry, id, json, draws, x, reply);
      var signal := r.command.signal;
      var relay := if x == signal.target && signal.target in registry then [EncodeSignal(signal)] else [];
      assert For(Respond(registry, id, o), x) == relay + reply;
    } else {
      if r.command.SignalingCommand? {
        SignalDecided(s, id, r, draws);
      }
      var news := For(DeliverEvents(registry, o.events), x);
      ShareOfPlainOutcome(registry, id, o, x);
      EventPushes(s, registry, id, r, o, ChangeOf(s, r, draws), x);
      NewsIsPushed(ChangeOf(s, r, draws), s, registry, id, x, news);
      PushesOfTwo(reply, news);
      assert [] + news == news;
    }
  }

  lemma NewsIsPushed(ch: Change, s: R.Store, registry: set<ParticipantId>, id: ParticipantId, x: ParticipantId,
      news: seq<Json>)
    requires RightNews(ch, s, registry, id, x, news)
    ensures |news| <= 1 && (news != [] ==> !IsReply(news[0]))
  {
    hide IsReply, ReadRoster;
  }

  /** Every message, whatever it is, causes exactly the right pushes to everybody. */
  lemma HandlingAnnounces(s: R.Store, registry: set<ParticipantId>, id: ParticipantId, m: Inbound, draws: seq<Draw>,
      x: ParticipantId)
    requires R.WellFormed(s)
    ensures RightPushes(s, registry, id, m, draws, x, Pushes(For(Handle(s, registry, id, m, draws).sends, x)))
  {
    hide EncodeProtocolError, DecodeRequest, R.WellFormed, IsReply;
    if m.Text? && DecodeRequest(id, m.json).Accepted? {
      AcceptedPushes(s, registry, id, m.json, draws, x);
    } else {
      var reply := ErrorTo(id, m);
      ForOne(id, reply, x);
      PushesOfTwo([], if x == id then [reply] else []);
      if m.Text? {
        RejectionsAreAnswered(id, m.json);
      } else {
        ProtocolErrorShape(None, if m.Binary? then "invalid_message" else "invalid_json", None);
      }
    }
  }

  // ------------------------------------------------------------------
  // Disconnects
  // ------------------------------------------------------------------

  /** The departures that `x` is told of, in order. */
  function Notified(registry: set<ParticipantId>, left: seq<R.LeftRoom>, x: ParticipantId): seq<R.LeftRoom> {
    if left == [] then []
    else (if x in registry && Has(left[0].remaining, x) then [left[0]] else []) + Notified(registry, left[1..], x)
  }

  lemma {:induction false} NotifiedAre(registry: set<ParticipantId>, left: seq<R.LeftRoom>, x: ParticipantId)
    requires forall i, j :: 0 <= i < j < |left| ==> left[i].code != left[j].code
    ensures var told := Notified(registry, left, x);
      && (forall d :: d in told <==> d in left && x in registry && Has(d.remaining, x))
      && (forall i, j :: 0 <= i < j < |told| ==> told[i].code != told[j].code)
  {
    if left != [] {
      NotifiedAre(registry, left[1..], x);
      assert left == [left[0]] + left[1..];
      assert forall d :: d in left[1..] ==> d.code != left[0].code;
    }
  }

  lemma {:induction false} DepartureShare(registry: set<ParticipantId>, left: seq<R.LeftRoom>, x: ParticipantId)
    requires forall d :: d in left ==> DistinctIds(d.remaining)
    ensures var (share, told) := (For(DeliverEvents(registry, Dispatcher.DepartureEvents(left)), x), Notified(registry, left, x));
      && |share| == |told|
      && forall i :: 0 <= i < |share| ==> AnnouncesDeparture(share[i], told[i].code, told[i].id, told[i].remaining)
  {
    hide AnnouncesDeparture, EncodeEvent;
    if left != [] {
      assert left == [left[0]] + left[1..] && left[0] in left;
      DepartureShare(registry, left[1..], x);
      var e := LeftRoomEvent(left[0].code, left[0].id, left[0].remaining);
      var es := Dispatcher.DepartureEvents(left[1..]);
      assert Dispatcher.DepartureEvents(left)[1..] == es;
      ReceiversGetOne(registry, e.receivers, None, EncodeEvent(e), x);
      ForConcat(EventSends(registry, e), DeliverEvents(registry, es), x);
      EventAnnounces(e);
    }
  }

  /** `push` tells `x` that `id` has gone from room `c`, which they shared, and who remains. */
  ghost predicate Parted(s: R.Store, registry: set<ParticipantId>, id: ParticipantId, c: RoomCode, x: ParticipantId,
      push: Json)
  {
    && R.InRoom(s, id, c)
    && Bystander(s, registry, id, c, x)
    && AnnouncesDeparture(push, c, id, Without(s[c].participants, id))
  }

  ghost predicate PartedSomewhere(s: R.Store, registry: set<ParticipantId>, id: ParticipantId, x: ParticipantId, push: Json) {
    exists c :: Parted(s, registry, id, c, x, push)
  }

  /** Each message of `share` is such a message about some room, and each room has exactly one. */
  ghost predicate RightPartings(s: R.Store, registry: set<ParticipantId>, id: ParticipantId, x: ParticipantId,
      share: seq<Json>)
  {
    && (forall k :: 0 <= k < |share| ==> PartedSomewhere(s, registry, id, x, share[k]))
    && (forall c :: R.InRoom(s, id, c) && Bystander(s, registry, id, c, x) ==>
          exists k :: 0 <= k < |share| && Parted(s, registry, id, c, x, share[k]))
    && (forall j, k, c :: 0 <= j < k < |share| ==>
          !Parted(s, registry, id, c, x, share[j]) || !Parted(s, registry, id, c, x, share[k]))
  }

  /** A disconnect tells everybody who stays behind with a registered session, once for each room they
      shared, that `id` has gone from it and who remains; and it tells nobody anything else. */
  lemma CleanupAnnounces(s: R.Store, registry: set<ParticipantId>, id: ParticipantId, order: seq<RoomCode>,
      x: ParticipantId)
    requires R.WellFormed(s) && R.Enumerates(order, s)
    ensures RightPartings(s, registry, id, x, For(Cleanup(s, registry, id, order).sends, x))
  {
    hide AnnouncesDeparture, R.WellFormed, DeliverEvents, For, Notified, RightPartings;
    R.CleanupIsComplete(s, order, id);
    DepartingListsAreDistinct(s, order, id);
    var left := R.Departures(s, order, id);
    var share, told := For(Cleanup(s, registry, id, order).sends, x), Notified(registry, left, x);
    DepartureShare(registry, left, x);
    NotifiedAre(registry, left, x);
    forall d ensures d in told <==> Involved(s, registry, id, x, d) {
      if R.InRoom(s, id, d.code) {
        WithoutMembers(s[d.code].participants, id);
      }
    }
    forall i | 0 <= i < |share| ensures AnnouncesDeparture(share[i], told[i].code, id, told[i].remaining) {
      assert told[i] in told;
    }
    PartingsAreRight(s, registry, id, x, share, told);
  }

  /** The departure that concerns `x`, if `x` and `id` share the room. */
  ghost predicate Involved(s: R.Store, registry: set<ParticipantId>, id: ParticipantId, x: ParticipantId, d: R.LeftRoom) {
    && R.InRoom(s, id, d.code)
    && Bystander(s, registry, id, d.code, x)
    && d == R.LeftRoom(d.code, id, Without(s[d.code].participants, id))
  }

  lemma PartingsAreRight(s: R.Store, registry: set<ParticipantId>, id: ParticipantId, x: ParticipantId,
      share: seq<Json>, told: seq<R.LeftRoom>)
    requires forall d :: d in told <==> Involved(s, registry, id, x, d)
    requires forall i, j :: 0 <= i < j < |told| ==> told[i].code != told[j].code
    requires |share| == |told|
    requires forall i :: 0 <= i < |share| ==> AnnouncesDeparture(share[i], told[i].code, id, told[i].remaining)
    ensures RightPartings(s, registry, id, x, share)
  {
    hide AnnouncesDeparture, Bystander, R.InRoom;
    forall k | 0 <= k < |share| ensures PartedSomewhere(s, registry, id, x, share[k]) {
      assert told[k] in told;
      assert Parted(s, registry, id, told[k].code, x, share[k]);
    }
    forall c | R.InRoom(s, id, c) && Bystander(s, registry, id, c, x)
      ensures exists k :: 0 <= k < |share| && Parted(s, registry, id, c, x, share[k])
    {
      var d := R.LeftRoom(c, id, Without(R.Members(s, c), id));
      InRoomMembers(s, id, c);
      assert d in told;
      var k :| 0 <= k < |told| && told[k] == d;
      assert Parted(s, registry, id, c, x, share[k]);
    }
    forall k, c | 0 <= k < |share| && Parted(s, registry, id, c, x, share[k]) ensures c == told[k].code {
      RoomsAnnounced(share[k], c, told[k].code);
    }
  }

  lemma InRoomMembers(s: R.Store, id: ParticipantId, c: RoomCode)
    requires R.InRoom(s, id, c)
    ensures c in s && R.Members(s, c) == s[c].participants
  {
  }

  lemma RoomsAnnounced(push: Json, c: RoomCode, d: RoomCode)
    requires exists id, ps :: AnnouncesDeparture(push, c, id, ps)
    requires exists id, ps :: AnnouncesDeparture(push, d, id, ps)
    ensures c == d
  {
  }

  // ------------------------------------------------------------------
  // Over runs
  // ------------------------------------------------------------------

  /** What a step hands to `x`'s `Send`. */
  ghost function News(w: World, l: Label, x: ParticipantId): seq<Json>
    requires Enabled(w, l) && x in w.sessions && x in Step(w, l).sessions
    requires |w.sessions[x].sent| <= |Step(w, l).sessions[x].sent|
  {
    Step(w, l).sessions[x].sent[|w.sessions[x].sent|..]
  }

  /** In every step of every run: a message causes the right pushes, a cleanup the right partings, and
      nothing else is ever pushed. */
  lemma RunAnnounces(ls: seq<Label>, l: Label, x: ParticipantId)
    requires Runs(ls) && Enabled(After(ls), l) && x in After(ls).sessions
    ensures x in Step(After(ls), l).sessions && After(ls).sessions[x].sent <= Step(After(ls), l).sessions[x].sent
    ensures var w, news := After(ls), News(After(ls), l, x);
      if l.ReadDone? then RightPushes(w.store, w.registry, l.id, l.message, l.draws, x, Pushes(news))
      else if Removes(w, l) then RightPartings(w.store, w.registry - {l.id}, l.id, x, news)
      else news == []
  {
    hide Step, Runs, After, Handle, Cleanup, RightPushes, RightPartings, R.WellFormed, Pushes;
    var w := After(ls);
    StoreIsSound(ls);
    if l.AcceptDone? {
      EverySessionOk(ls, l.id);
    }
    StepHasThatEffect(w, l);
    if l.ReadDone? {
      HandlingAnnounces(w.store, w.registry, l.id, l.message, l.draws, x);
    } else if Removes(w, l) {
      CleanupAnnounces(w.store, w.registry - {l.id}, l.id, l.order, x);
    }
  }
}
