/** What a client is told in answer to its message: from the rooms and the registry to the verdict, the
    error code and the payload of the one reply it is sent. */
module Refusals {
  import opened Domain
  import opened Protocol
  import opened RoomCodes
  import opened Codec
  import opened CodecTheorems
  import opened Decoding
  import opened Server
  import opened Deliveries
  import opened Effects
  import opened ServerTheorems
  import R = RoomStore
  import Dispatcher

  /** The one reply that `id` is sent to the message `m`. */
  ghost function Answer(s: R.Store, registry: set<ParticipantId>, id: ParticipantId, m: Inbound, draws: seq<Draw>): Json
    requires R.WellFormed(s)
  {
    EveryMessageIsAnsweredOnce(s, registry, id, m, draws, id);
    Replies(For(Handle(s, registry, id, m, draws).sends, id))[0]
  }

  /** The error code on that reply, if it has one. */
  ghost function Told(s: R.Store, registry: set<ParticipantId>, id: ParticipantId, m: Inbound,
      draws: seq<Draw>): Option<string>
    requires R.WellFormed(s)
  {
    ErrorCodeOf(Answer(s, registry, id, m, draws))
  }

  predicate IsReason(told: Option<string>, f: Failure) {
    told == Some(ErrorCode(f))
  }

  lemma AnswerIs(s: R.Store, registry: set<ParticipantId>, id: ParticipantId, json: Json, draws: seq<Draw>)
    requires R.WellFormed(s) && DecodeRequest(id, json).Accepted?
    ensures Answer(s, registry, id, Text(json), draws) ==
      EncodeResponse(Delivered(registry, Dispatcher.Dispatch(s, DecodeRequest(id, json).request, draws).response))
  {
    hide EncodeResponse, DecodeRequest, Dispatcher.Dispatch, Handle, For, Replies;
    AcceptedReply(s, registry, id, json, draws, id);
  }

  lemma ComplaintIs(s: R.Store, registry: set<ParticipantId>, id: ParticipantId, m: Inbound, draws: seq<Draw>)
    requires R.WellFormed(s) && (m.Text? ==> DecodeRequest(id, m.json).Rejected?)
    ensures Answer(s, registry, id, m, draws) == ErrorTo(id, m)
  {
    hide EncodeProtocolError, DecodeRequest, IsReply;
    var reply := ErrorTo(id, m);
    ForOne(id, reply, id);
    RepliesOfTwo([], [reply]);
    assert [] + [reply] == [reply];
    EveryMessageIsAnsweredOnce(s, registry, id, m, draws, id);
  }

  /** A message that is not understood is told why: not text, not JSON, a bad envelope, or its first
      bad field. */
  lemma RejectionsAreTold(s: R.Store, registry: set<ParticipantId>, id: ParticipantId, m: Inbound, draws: seq<Draw>)
    requires R.WellFormed(s) && (m.Text? ==> DecodeRequest(id, m.json).Rejected?)
    ensures var told := Told(s, registry, id, m, draws);
      match m
      case Binary => told == Some("invalid_message")
      case Malformed => told == Some("invalid_json")
      case Text(json) => told.Some? && RightComplaint(json, told.value)
  {
    hide Answer, EncodeProtocolError, DecodeRequest, ErrorCodeOf;
    ComplaintIs(s, registry, id, m, draws);
    match m
    case Binary => ProtocolErrorShape(None, "invalid_message", None);
    case Malformed => ProtocolErrorShape(None, "invalid_json", None);
    case Text(json) =>
      var d := DecodeRequest(id, json);
      ProtocolErrorShape(d.meta, d.code, d.requestId);
      RejectionNamesFirstFault(id, json);
  }

  /** The verdict on the reply to any message at all is true exactly when there is no error code. */
  lemma VerdictsAreHonest(s: R.Store, registry: set<ParticipantId>, id: ParticipantId, m: Inbound, draws: seq<Draw>)
    requires R.WellFormed(s)
    ensures Verdict(Answer(s, registry, id, m, draws)) == Some(Told(s, registry, id, m, draws) == None)
  {
    hide Answer, EncodeProtocolError, DecodeRequest, ErrorCodeOf, EncodeResponse, Dispatcher.Dispatch, Verdict;
    if m.Text? && DecodeRequest(id, m.json).Accepted? {
      AnswerIs(s, registry, id, m.json, draws);
      var response := Delivered(registry, Dispatcher.Dispatch(s, DecodeRequest(id, m.json).request, draws).response);
      ReplyTells(response);
      ResponseNames(response);
    } else {
      ComplaintIs(s, registry, id, m, draws);
      if m.Text? {
        var d := DecodeRequest(id, m.json);
        ProtocolErrorShape(d.meta, d.code, d.requestId);
      } else {
        ProtocolErrorShape(None, if m.Binary? then "invalid_message" else "invalid_json", None);
      }
    }
  }

  /** A granted request is told its room, and who was let in and who is there now if somebody was. */
  lemma SuccessesAreTold(s: R.Store, registry: set<ParticipantId>, id: ParticipantId, json: Json, draws: seq<Draw>)
    requires R.WellFormed(s) && DecodeRequest(id, json).Accepted?
    requires Told(s, registry, id, Text(json), draws) == None
    ensures var (answer, store) := (Answer(s, registry, id, Text(json), draws), Handle(s, registry, id, Text(json), draws).store);
      match DecodeRequest(id, json).request.command
      case CreateRoomCommand(p, secret) =>
        && NamedRoom(answer).Some? && NamedRoom(answer).value !in s
        && store == s[NamedRoom(answer).value := Room(NamedRoom(answer).value, secret, [p])]
        && NamedParticipant(answer) == Some(p)
        && ReadRoster(answer) == Some(Roster(NamedRoom(answer).value, [p]))
      case JoinRoomCommand(room, p, _) =>
        && NamedRoom(answer) == Some(room)
        && NamedParticipant(answer) == Some(p)
        && ReadRoster(answer) == Some(Roster(room, R.Members(s, room) + [p]))
        && R.Members(store, room) == R.Members(s, room) + [p]
      case LeaveRoomCommand(room, _) => NamedRoom(answer) == Some(room) && !R.InRoom(store, id, room)
      case SignalingCommand(signal) => NamedRoom(answer) == Some(signal.room) && store == s
  {
    hide Told, Answer, DecodeRequest, EncodeResponse, Dispatcher.Dispatch, ReadRoster, NamedRoom, NamedParticipant;
    ToldIs(s, registry, id, json, draws);
    AnswerIs(s, registry, id, json, draws);
    AcceptedRequestsAreIssued(id, json);
    AcceptedFits(s, id, json, draws);
    var r := DecodeRequest(id, json).request;
    var response := Delivered(registry, Dispatcher.Dispatch(s, r, draws).response);
    ResponseNames(response);
    ResponseShowsRoster(response);
    if r.command.LeaveRoomCommand? {
      WithoutMembers(R.Members(s, r.command.room), id);
    }
  }

  lemma ToldIs(s: R.Store, registry: set<ParticipantId>, id: ParticipantId, json: Json, draws: seq<Draw>)
    requires R.WellFormed(s) && DecodeRequest(id, json).Accepted?
    ensures var told := Told(s, registry, id, Text(json), draws);
      var response := Delivered(registry, Dispatcher.Dispatch(s, DecodeRequest(id, json).request, draws).response);
      && (told == None <==> response.Succeeded?)
      && (forall f :: IsReason(told, f) <==> response.Failed? && response.reason == f)
  {
    hide Answer, EncodeResponse, ErrorCodeOf, ErrorCode, DecodeRequest, Dispatcher.Dispatch, Handle;
    AnswerIs(s, registry, id, json, draws);
    var response := Delivered(registry, Dispatcher.Dispatch(s, DecodeRequest(id, json).request, draws).response);
    ReplyTells(response);
    forall f | IsReason(Told(s, registry, id, Text(json), draws), f) ensures response.Failed? && response.reason == f {
      ErrorCodesAreDistinct(f, response.reason);
    }
  }

  /** A refused join is told the first of these that applies: no such room, already in it, password
      missing, password wrong; and it is refused only for one of them. */
  lemma JoinRefusalsAreTold(s: R.Store, registry: set<ParticipantId>, id: ParticipantId, json: Json, draws: seq<Draw>)
    requires R.WellFormed(s)
    requires DecodeRequest(id, json).Accepted? && DecodeRequest(id, json).request.command.JoinRoomCommand?
    ensures var command := DecodeRequest(id, json).request.command;
      var (told, c, supplied) := (Told(s, registry, id, Text(json), draws), command.room, command.password);
      && (told == Some("room_not_found") <==> c !in s)
      && (told == Some("already_joined") <==> R.InRoom(s, id, c))
      && (told == Some("password_not_provided") <==> c in s && !R.InRoom(s, id, c) && s[c].secret.Some? && supplied.None?)
      && (told == Some("wrong_password") <==> c in s && !R.InRoom(s, id, c) && s[c].secret.Some? && supplied.Some? && supplied != s[c].secret)
      && (told == None <==> c in s && !R.InRoom(s, id, c) && Admits(s[c].secret, supplied))
  {
    hide Told, Answer, DecodeRequest;
    AcceptedRequestsAreIssued(id, json);
    ToldIs(s, registry, id, json, draws);
    var told := Told(s, registry, id, Text(json), draws);
    assert IsReason(told, RoomNotFound) == (told == Some("room_not_found"));
    assert IsReason(told, Failure.AlreadyInRoom) == (told == Some("already_joined"));
    assert IsReason(told, PasswordNotProvided) == (told == Some("password_not_provided"));
    assert IsReason(told, WrongPassword) == (told == Some("wrong_password"));
  }

  lemma LeaveRefusalsAreTold(s: R.Store, registry: set<ParticipantId>, id: ParticipantId, json: Json, draws: seq<Draw>)
    requires R.WellFormed(s)
    requires DecodeRequest(id, json).Accepted? && DecodeRequest(id, json).request.command.LeaveRoomCommand?
    ensures var (told, c) := (Told(s, registry, id, Text(json), draws), DecodeRequest(id, json).request.command.room);
      && (told == Some("room_not_found") <==> c !in s)
      && (told == Some("not_in_room") <==> c in s && !R.InRoom(s, id, c))
      && (told == None <==> R.InRoom(s, id, c))
  {
    hide Told, Answer, DecodeRequest;
    AcceptedRequestsAreIssued(id, json);
    ToldIs(s, registry, id, json, draws);
    var told := Told(s, registry, id, Text(json), draws);
    assert IsReason(told, RoomNotFound) == (told == Some("room_not_found"));
    assert IsReason(told, Failure.NotInRoom) == (told == Some("not_in_room"));
  }

  /** Creating fails only when every draw is taken; it never fails at the creator's own join. */
  lemma CreateRefusalsAreTold(s: R.Store, registry: set<ParticipantId>, id: ParticipantId, json: Json, draws: seq<Draw>)
    requires R.WellFormed(s)
    requires DecodeRequest(id, json).Accepted? && DecodeRequest(id, json).request.command.CreateRoomCommand?
    ensures var told := Told(s, registry, id, Text(json), draws);
      var taken := forall j :: 0 <= j < |draws| ==> FormatCode(draws[j]) in s;
      && (told == Some("room_code_generation_failed") <==> taken)
      && (told == None <==> !taken)
  {
    hide Told, Answer, DecodeRequest;
    var command := DecodeRequest(id, json).request.command;
    AcceptedRequestsAreIssued(id, json);
    ToldIs(s, registry, id, json, draws);
    var told := Told(s, registry, id, Text(json), draws);
    assert IsReason(told, RoomCodeGenerationFailed) == (told == Some("room_code_generation_failed"));
    R.CreateRoomTakesFirstFreeCode(s, command.password, draws);
    if R.CreateRoom(s, command.password, draws).1.Ok? {
      R.CreatorAlwaysGetsIn(s, command.participant, command.password, draws);
    }
  }

  /** In every run: a session's `create_room` draws a hundred codes, and is refused exactly when all of
      them are taken. */
  lemma HundredDraws(ls: seq<Label>, l: Label)
    requires Runs(ls) && Enabled(After(ls), l) && l.ReadDone? && l.message.Text?
    requires DecodeRequest(l.id, l.message.json).Accepted?
    requires DecodeRequest(l.id, l.message.json).request.command.CreateRoomCommand?
    ensures R.WellFormed(After(ls).store) && |l.draws| == 100
    ensures var told := Told(After(ls).store, After(ls).registry, l.id, l.message, l.draws);
      var taken := forall j :: 0 <= j < 100 ==> FormatCode(l.draws[j]) in After(ls).store;
      && (told == Some("room_code_generation_failed") <==> taken)
      && (told == None <==> !taken)
  {
    hide Told, Answer, DecodeRequest, Runs, After, Step, R.WellFormed;
    StoreIsSound(ls);
    CreateRefusalsAreTold(After(ls).store, After(ls).registry, l.id, l.message.json, l.draws);
  }

  /** A signal is refused when either end is outside the room, and then when its target's session is
      gone. */
  lemma SignalRefusalsAreTold(s: R.Store, registry: set<ParticipantId>, id: ParticipantId, json: Json, draws: seq<Draw>)
    requires R.WellFormed(s)
    requires DecodeRequest(id, json).Accepted? && DecodeRequest(id, json).request.command.SignalingCommand?
    ensures var (told, signal) := (Told(s, registry, id, Text(json), draws), DecodeRequest(id, json).request.command.signal);
      var both := R.InRoom(s, id, signal.room) && R.InRoom(s, signal.target, signal.room);
      && (told == Some("not_in_room") <==> !both)
      && (told == Some("participant_unavailable") <==> both && signal.target !in registry)
      && (told == None <==> both && signal.target in registry)
  {
    hide Told, Answer, DecodeRequest;
    AcceptedRequestsAreIssued(id, json);
    ToldIs(s, registry, id, json, draws);
    var told := Told(s, registry, id, Text(json), draws);
    assert IsReason(told, Failure.NotInRoom) == (told == Some("not_in_room"));
    assert IsReason(told, ParticipantUnavailable) == (told == Some("participant_unavailable"));
  }

  /** The failures that the dispatcher and the codec provide for but that no message can bring about. */
  lemma InternalErrorsDoNotHappen(s: R.Store, registry: set<ParticipantId>, id: ParticipantId, m: Inbound, draws: seq<Draw>)
    requires R.WellFormed(s)
    ensures var told := Told(s, registry, id, m, draws);
      told != Some("internal_error") && told != Some("room_already_exists")
  {
    hide Told, Answer, DecodeRequest;
    if m.Text? && DecodeRequest(id, m.json).Accepted? {
      AcceptedRequestsAreIssued(id, m.json);
      ToldIs(s, registry, id, m.json, draws);
      var told := Told(s, registry, id, m, draws);
      assert IsReason(told, InternalError) == (told == Some("internal_error"));
      assert IsReason(told, RoomAlreadyExists) == (told == Some("room_already_exists"));
      var r := DecodeRequest(id, m.json).request;
      if r.command.CreateRoomCommand? {
        R.CreateRoomTakesFirstFreeCode(s, r.command.password, draws);
        if R.CreateRoom(s, r.command.password, draws).1.Ok? {
          R.CreatorAlwaysGetsIn(s, r.command.participant, r.command.password, draws);
        }
      }
    } else {
      RejectionsAreTold(s, registry, id, m, draws);
    }
  }
}
