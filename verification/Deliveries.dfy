/** Who receives what when one message is handled or one disconnect is cleaned up. */
module Deliveries {
  import opened Domain
  import opened Protocol
  import opened RoomCodes
  import opened Codec
  import opened CodecTheorems
  import opened History
  import opened Server
  import R = RoomStore
  import Dispatcher

  /** The list a client shows for room `c` after reading `log`: that of the latest message about
      `c` which carries one. */
  function View(log: seq<Json>, c: RoomCode): Option<seq<Participant>> {
    if log == [] then None
    else
      var last := ReadRoster(log[|log| - 1]);
      if last.Some? && last.value.code == c then Some(last.value.participants) else View(log[..|log| - 1], c)
  }

  function Replies(log: seq<Json>): seq<Json> {
    if log == [] then []
    else (if IsReply(log[0]) then [log[0]] else []) + Replies(log[1..])
  }

  lemma {:induction false} ViewConcat(a: seq<Json>, b: seq<Json>, c: RoomCode)
    ensures View(a + b, c) == if View(b, c).Some? then View(b, c) else View(a, c)
  {
    if b == [] {
      assert a + b == a;
    } else {
      assert (a + b)[..|a + b| - 1] == a + b[..|b| - 1];
      ViewConcat(a, b[..|b| - 1], c);
    }
  }

  lemma {:induction false} RepliesConcat(a: seq<Json>, b: seq<Json>)
    ensures Replies(a + b) == Replies(a) + Replies(b)
  {
    if a == [] {
      assert a + b == b;
    } else {
      hide Replies, IsReply;
      RepliesConcat(a[1..], b);
      FirstReply(a);
      FirstReply(a + b);
      ConcatTail(a, b);
      ConcatAssociates(if IsReply(a[0]) then [a[0]] else [], Replies(a[1..]), Replies(b));
    }
  }

  lemma FirstReply(log: seq<Json>)
    requires log != []
    ensures Replies(log) == (if IsReply(log[0]) then [log[0]] else []) + Replies(log[1..])
  {
    hide IsReply;
  }

  lemma {:induction false} ForConcat(a: seq<Delivery>, b: seq<Delivery>, id: ParticipantId)
    ensures For(a + b, id) == For(a, id) + For(b, id)
  {
    if a == [] {
      assert a + b == b;
    } else {
      hide For;
      ForConcat(a[1..], b, id);
      FirstFor(a, id);
      FirstFor(a + b, id);
      ConcatTail(a, b);
      ConcatAssociates(if a[0].to == id then [a[0].message] else [], For(a[1..], id), For(b, id));
    }
  }

  lemma FirstFor(sends: seq<Delivery>, id: ParticipantId)
    requires sends != []
    ensures For(sends, id) == (if sends[0].to == id then [sends[0].message] else []) + For(sends[1..], id)
  {
  }

  lemma ForOne(to: ParticipantId, m: Json, id: ParticipantId)
    ensures For([Delivery(to, m)], id) == if id == to then [m] else []
  {
  }

  lemma ViewOfNone(c: RoomCode)
    ensures View([], c) == None
  {
  }

  lemma ViewOfOne(m: Json, c: RoomCode)
    ensures View([m], c) ==
      if ReadRoster(m).Some? && ReadRoster(m).value.code == c then Some(ReadRoster(m).value.participants) else None
  {
    assert [m][..0] == [];
    ViewOfNone(c);
  }

  /** Everybody listed who has a registered session gets the message once, except the one skipped. */
  lemma {:induction false} ReceiversGetOne(
      registry: set<ParticipantId>, ps: seq<Participant>, skip: Option<ParticipantId>, m: Json, id: ParticipantId)
    requires DistinctIds(ps)
    ensures For(ReceiverSends(registry, ps, skip, m), id) ==
      if Has(ps, id) && id in registry && Some(id) != skip then [m] else []
  {
    if ps != [] {
      var rest := ReceiverSends(registry, ps[1..], skip, m);
      ReceiversGetOne(registry, ps[1..], skip, m, id);
      HasSplits(ps, id);
      if Some(ps[0].id) != skip && ps[0].id in registry {
        ForConcat([Delivery(ps[0].id, m)], rest, id);
        ForOne(ps[0].id, m, id);
      } else {
        assert ReceiverSends(registry, ps, skip, m) == [] + rest == rest;
      }
    }
  }

  lemma OneEventDelivered(registry: set<ParticipantId>, e: Event, id: ParticipantId)
    requires DistinctIds(e.receivers)
    ensures For(DeliverEvents(registry, [e]), id) ==
      if Has(e.receivers, id) && id in registry && Some(id) != Skipped(e) then [EncodeEvent(e)] else []
  {
    ReceiversGetOne(registry, e.receivers, Skipped(e), EncodeEvent(e), id);
    assert [e][1..] == [];
    assert DeliverEvents(registry, [e]) == EventSends(registry, e) + [] == EventSends(registry, e);
  }

  // ------------------------------------------------------------------
  // What the dispatcher decides
  // ------------------------------------------------------------------

  /** The four ways a request can change the store, each with the response and events that report
      it; everything else is a failure or a signal and changes nothing. */
  datatype Change =
    | Opens(code: RoomCode, draw: Draw, p: Participant, secret: Option<RoomSecret>)
    | Enters(code: RoomCode, p: Participant, supplied: Option<RoomSecret>)
    | Leaves(code: RoomCode)
    | Nothing

  ghost predicate Explains(ch: Change, s: R.Store, id: ParticipantId, r: Request, o: Dispatcher.Outcome) {
    match ch
    case Opens(code, draw, p, secret) =>
      && code == FormatCode(draw) && code !in s && p.id == id
      && o.store == s[code := Room(code, secret, [p])]
      && o.response == Succeeded(r.meta, RoomCreated(code, p, [p]))
      && o.events == []
      && FactsOf(r, o.response) == [Opened(code, p, secret)]
    case Enters(code, p, supplied) =>
      && R.CanJoin(s, code, p.id, supplied) && p.id == id
      && o.store == R.JoinCommitted(s, code, p, supplied)
      && o.response == Succeeded(r.meta, RoomJoined(code, p, s[code].participants + [p]))
      && o.events == [JoinedRoomEvent(code, p, s[code].participants + [p])]
      && FactsOf(r, o.response) == [Entered(code, p, supplied)]
    case Leaves(code) =>
      && R.InRoom(s, id, code)
      && o.store == R.LeaveRoom(s, code, id).0
      && o.response == Succeeded(r.meta, RoomLeft(code))
      && o.events == [LeftRoomEvent(code, id, Without(s[code].participants, id))]
      && FactsOf(r, o.response) == [Departed(code, id)]
    case Nothing =>
      && o.store == s
      && o.events == []
      && FactsOf(r, o.response) == []
      && ((o.response.Failed? && o.response.meta == r.meta && o.response.reason != ParticipantUnavailable) ||
          (r.command.SignalingCommand? && o.response == Succeeded(r.meta, Signaled(r.command.signal))
           && R.InRoom(s, r.command.signal.from, r.command.signal.room)
           && R.InRoom(s, r.command.signal.target, r.command.signal.room)))
  }

  ghost function ChangeOf(s: R.Store, r: Request, draws: seq<Draw>): Change {
    match r.command
    case CreateRoomCommand(p, secret) =>
      var k := R.FirstFree(s, draws, 0);
      if k < |draws| then Opens(FormatCode(draws[k]), draws[k], p, secret) else Nothing
    case JoinRoomCommand(code, p, supplied) =>
      if R.CanJoin(s, code, p.id, supplied) then Enters(code, p, supplied) else Nothing
    case LeaveRoomCommand(code, id) =>
      if R.InRoom(s, id, code) then Leaves(code) else Nothing
    case SignalingCommand(_) => Nothing
  }

  /** Every request a session can issue does exactly one of these, and which one is decided by the
      store, the request and the draws. In particular `create_room` fails only when every draw is
      taken. */
  lemma DispatchExplained(s: R.Store, id: ParticipantId, r: Request, draws: seq<Draw>)
    requires Issued(r, id)
    ensures Explains(ChangeOf(s, r, draws), s, id, r, Dispatcher.Dispatch(s, r, draws))
  {
    match r.command
    case CreateRoomCommand(p, secret) =>
      R.CreateRoomTakesFirstFreeCode(s, secret, draws);
      R.FirstFreeIsFirst(s, draws, 0);
      if R.CreateRoom(s, secret, draws).1.Ok? {
        R.CreatorAlwaysGetsIn(s, p, secret, draws);
      }
    case JoinRoomCommand(code, p, supplied) =>
    case LeaveRoomCommand(code, who) =>
    case SignalingCommand(signal) =>
  }
}
