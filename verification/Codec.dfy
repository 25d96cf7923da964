/** The JSON boundary: decoding requests, encoding replies, events and relayed signals. */
module Codec {
  import opened Domain
  import opened Protocol

  // ------------------------------------------------------------------
  // Decoding
  // ------------------------------------------------------------------

  /** `Rejected` is what the thrown decode error carries. */
  datatype Decoded =
    | Accepted(request: Request)
    | Rejected(meta: Option<Meta>, code: string, requestId: Option<string>)

  datatype Fetched<+T> = Got(value: T) | Bad(code: string)

  function RequiredString(payload: Json, key: string): Fetched<string> {
    match Field(payload, key)
    case None => Bad("missing_field")
    case Some(Str(s)) => Got(s)
    case Some(_) => Bad("invalid_field")
  }

  function OptionalString(payload: Json, key: string): Fetched<Option<string>> {
    match Field(payload, key)
    case None => Got(None)
    case Some(Null) => Got(None)
    case Some(Str(s)) => Got(Some(s))
    case Some(_) => Bad("invalid_field")
  }

  function SignalingName(k: SignalingType): string {
    match k
    case Offer => "offer"
    case Answer => "answer"
    case IceCandidate => "ice_candidate"
  }

  /** The message kind that a `type` string names, if it names one. */
  function KindOf(name: string): Option<(ControlMessageType, Option<SignalingType>)> {
    if name == "create_room" then Some((CreateRoom, None))
    else if name == "join_room" then Some((JoinRoom, None))
    else if name == "leave_room" then Some((LeaveRoom, None))
    else if name == "offer" then Some((Signaling, Some(Offer)))
    else if name == "answer" then Some((Signaling, Some(Answer)))
    else if name == "ice_candidate" then Some((Signaling, Some(IceCandidate)))
    else None
  }

  /** The inverse of `KindOf`. */
  function KindName(meta: Meta): string {
    match meta.kind
    case CreateRoom => "create_room"
    case JoinRoom => "join_room"
    case LeaveRoom => "leave_room"
    case Signaling => if meta.signaling.Some? then SignalingName(meta.signaling.value) else "error"
  }

  function DecodeCommand(id: ParticipantId, meta: Meta, payload: Json): Fetched<Command> {
    match meta.kind
    case CreateRoom =>
      (match RequiredString(payload, "display_name")
       case Bad(e) => Bad(e)
       case Got(name) =>
         match OptionalString(payload, "password")
         case Bad(e) => Bad(e)
         case Got(password) => Got(CreateRoomCommand(Participant(id, name), password)))
    case JoinRoom =>
      (match RequiredString(payload, "room_code")
       case Bad(e) => Bad(e)
       case Got(code) =>
         match RequiredString(payload, "display_name")
         case Bad(e) => Bad(e)
         case Got(name) =>
           match OptionalString(payload, "password")
           case Bad(e) => Bad(e)
           case Got(password) => Got(JoinRoomCommand(code, Participant(id, name), password)))
    case LeaveRoom =>
      (match RequiredString(payload, "room_code")
       case Bad(e) => Bad(e)
       case Got(code) => Got(LeaveRoomCommand(code, id)))
    case Signaling =>
      (match RequiredString(payload, "room_code")
       case Bad(e) => Bad(e)
       case Got(code) =>
         match RequiredString(payload, "target_participant_id")
         case Bad(e) => Bad(e)
         case Got(target) =>
           var kind := if meta.signaling.Some? then meta.signaling.value else Offer;
           Got(SignalingCommand(Signal(kind, code, id, target, payload))))
  }

  /** `id` is the participant id of the session that read the message; nothing in the message can
      change it. */
  function DecodeRequest(id: ParticipantId, json: Json): Decoded {
    if StringField(json, "type").None? then Rejected(None, "invalid_message", None)
    else
      var requestId := StringField(json, "request_id");
      match KindOf(StringField(json, "type").value)
      case None => Rejected(None, "invalid_message", requestId)
      case Some((kind, signaling)) =>
        var rawId := Field(json, "request_id");
        if rawId.Some? && !rawId.value.Null? && !rawId.value.Str?
        then Rejected(Some(Meta(kind, None, signaling)), "invalid_message", None)
        else
          var meta := Meta(kind, requestId, signaling);
          var payload := Field(json, "payload");
          if payload.None? || !payload.value.Obj? then Rejected(Some(meta), "invalid_message", requestId)
          else
            match DecodeCommand(id, meta, payload.value)
            case Bad(e) => Rejected(Some(meta), e, requestId)
            case Got(command) => Accepted(Request(meta, command))
  }

  // ------------------------------------------------------------------
  // Encoding
  // ------------------------------------------------------------------

  function ParticipantToJson(p: Participant): Json {
    Obj(map["participant_id" := Str(p.id), "display_name" := Str(p.name)])
  }

  function ParticipantItems(ps: seq<Participant>): seq<Json> {
    seq(|ps|, i requires 0 <= i < |ps| => ParticipantToJson(ps[i]))
  }

  function ResultType(meta: Meta): string {
    match meta.kind
    case CreateRoom => "create_room_result"
    case JoinRoom => "join_room_result"
    case LeaveRoom => "leave_room_result"
    case Signaling =>
      if meta.signaling.Some? then SignalingName(meta.signaling.value) + "_result" else "error"
  }

  function ErrorCode(f: Failure): string {
    match f
    case RoomAlreadyExists => "room_already_exists"
    case RoomCodeGenerationFailed => "room_code_generation_failed"
    case NotInRoom => "not_in_room"
    case AlreadyInRoom => "already_joined"
    case WrongPassword => "wrong_password"
    case PasswordNotProvided => "password_not_provided"
    case RoomNotFound => "room_not_found"
    case ParticipantUnavailable => "participant_unavailable"
    case InternalError => "internal_error"
  }

  function ErrorMessage(code: string): string {
    if code == "invalid_json" then "Message must be valid JSON."
    else if code == "invalid_message" then "Message type or payload is invalid."
    else if code == "missing_field" then "Required field is missing."
    else if code == "invalid_field" then "Field has an invalid value."
    else if code == "room_not_found" then "Room was not found."
    else if code == "wrong_password" then "Room password is incorrect."
    else if code == "already_joined" then "Participant is already in the room."
    else if code == "not_in_room" then "Participant is not in the room."
    else if code == "participant_unavailable" then "Participant is not connected."
    else if code == "password_not_provided" then "Room password is required."
    else if code == "room_code_generation_failed" then "Room code could not be generated."
    else if code == "room_already_exists" then "Room already exists."
    else "Internal server error."
  }

  function ErrorBody(code: string): Json {
    Obj(map["code" := Str(code), "message" := Str(ErrorMessage(code))])
  }

  function SuccessBody(s: Success): Json {
    match s
    case RoomCreated(code, p, ps) => RoomBody(code, p, ps)
    case RoomJoined(code, p, ps) => RoomBody(code, p, ps)
    case RoomLeft(code) => Obj(map["room_code" := Str(code)])
    case Signaled(signal) => Obj(map["room_code" := Str(signal.room)])
  }

  function RoomBody(code: RoomCode, p: Participant, ps: seq<Participant>): Json {
    Obj(map["room_code" := Str(code), "participant" := ParticipantToJson(p), "participants" := Arr(ParticipantItems(ps))])
  }

  /** Every direct reply: a type, a verdict, one body, and the request id if there is one. */
  function Reply(kind: string, ok: bool, bodyKey: string, body: Json, requestId: Option<string>): Json {
    var fields := map["type" := Str(kind), "ok" := Bool(ok)][bodyKey := body];
    Obj(if requestId.Some? then fields["request_id" := Str(requestId.value)] else fields)
  }

  function EncodeResponse(r: Response): Json {
    match r
    case Succeeded(meta, payload) => Reply(ResultType(meta), true, "payload", SuccessBody(payload), meta.requestId)
    case Failed(meta, reason) => Reply(ResultType(meta), false, "error", ErrorBody(ErrorCode(reason)), meta.requestId)
  }

  function EncodeProtocolError(meta: Option<Meta>, code: string, requestId: Option<string>): Json {
    Reply(if meta.Some? then ResultType(meta.value) else "error", false, "error", ErrorBody(code),
          if meta.Some? && meta.value.requestId.Some? then meta.value.requestId else requestId)
  }

  /** Everything a session receives without having asked: a type and a payload. */
  function Push(kind: string, payload: Json): Json {
    Obj(map["type" := Str(kind), "payload" := payload])
  }

  function EncodeEvent(e: Event): Json {
    match e
    case JoinedRoomEvent(code, p, ps) =>
      Push("participant_joined",
           Obj(map["room_code" := Str(code), "participants" := Arr(ParticipantItems(ps)), "participant" := ParticipantToJson(p)]))
    case LeftRoomEvent(code, id, ps) =>
      Push("participant_left",
           Obj(map["room_code" := Str(code), "participants" := Arr(ParticipantItems(ps)), "participant_id" := Str(id)]))
  }

  function RelayPayload(s: Signal): Json {
    var fields := if s.data.Obj? then s.data.fields else map[];
    Obj(fields["room_code" := Str(s.room)]["target_participant_id" := Str(s.target)]["from_participant_id" := Str(s.from)])
  }

  function EncodeSignal(s: Signal): Json {
    Push(SignalingName(s.kind), RelayPayload(s))
  }

  /** The encoder's loop over a participant list. */
  method ParticipantsToJson(ps: seq<Participant>) returns (json: Json)
    ensures json == Arr(ParticipantItems(ps))
    ensures ReadParticipants(json.items) == Some(ps)
  {
    var items: seq<Json> := [];
    for i := 0 to |ps|
      invariant items == ParticipantItems(ps)[..i]
    {
      items := items + [ParticipantToJson(ps[i])];
    }
    json := Arr(items);
    ParticipantsRoundTrip(ps);
  }

  // ------------------------------------------------------------------
  // A client's reading of what it receives
  // ------------------------------------------------------------------

  function ReadParticipant(j: Json): Option<Participant> {
    var id, name := StringField(j, "participant_id"), StringField(j, "display_name");
    if id.Some? && name.Some? then Some(Participant(id.value, name.value)) else None
  }

  function ReadParticipants(items: seq<Json>): Option<seq<Participant>> {
    if items == [] then Some([])
    else
      var first, rest := ReadParticipant(items[0]), ReadParticipants(items[1..]);
      if first.Some? && rest.Some? then Some([first.value] + rest.value) else None
  }

  datatype Roster = Roster(code: RoomCode, participants: seq<Participant>)

  predicate CarriesRoster(kind: string) {
    kind == "create_room_result" || kind == "join_room_result" || kind == "participant_joined" || kind == "participant_left"
  }

  /** The room and participant list that a message shows, if it shows one. */
  function ReadRoster(j: Json): Option<Roster> {
    var kind, payload := StringField(j, "type"), Field(j, "payload");
    if kind.None? || payload.None? || !CarriesRoster(kind.value) then None
    else
      var code, list := StringField(payload.value, "room_code"), Field(payload.value, "participants");
      if code.None? || list.None? || !list.value.Arr? then None
      else
        var ps := ReadParticipants(list.value.items);
        if ps.Some? then Some(Roster(code.value, ps.value)) else None
  }

  /** Replies are told from pushes by their verdict. */
  predicate IsReply(j: Json) {
    Field(j, "ok").Some?
  }

  function Verdict(j: Json): Option<bool> {
    match Field(j, "ok")
    case Some(Bool(b)) => Some(b)
    case _ => None
  }

  /** The room code and the participant that a message's payload names. */
  function NamedRoom(j: Json): Option<RoomCode> {
    var payload := Field(j, "payload");
    if payload.Some? then StringField(payload.value, "room_code") else None
  }

  function NamedParticipant(j: Json): Option<Participant> {
    var payload := Field(j, "payload");
    if payload.Some? && Field(payload.value, "participant").Some?
    then ReadParticipant(Field(payload.value, "participant").value)
    else None
  }

  function NamedId(j: Json): Option<ParticipantId> {
    var payload := Field(j, "payload");
    if payload.Some? then StringField(payload.value, "participant_id") else None
  }

  /** `j` says that `p` has come to room `c`, where now `ps` are. */
  predicate AnnouncesArrival(j: Json, c: RoomCode, p: Participant, ps: seq<Participant>) {
    && StringField(j, "type") == Some("participant_joined")
    && NamedParticipant(j) == Some(p)
    && ReadRoster(j) == Some(Roster(c, ps))
    && !IsReply(j)
  }

  /** `j` says that `id` has gone from room `c`, where `ps` remain. */
  predicate AnnouncesDeparture(j: Json, c: RoomCode, id: ParticipantId, ps: seq<Participant>) {
    && StringField(j, "type") == Some("participant_left")
    && NamedId(j) == Some(id)
    && ReadRoster(j) == Some(Roster(c, ps))
    && !IsReply(j)
  }

  // ------------------------------------------------------------------
  // Round trips
  // ------------------------------------------------------------------

  lemma {:induction false} ParticipantsRoundTrip(ps: seq<Participant>)
    ensures ReadParticipants(ParticipantItems(ps)) == Some(ps)
  {
    if ps == [] {
      assert ParticipantItems(ps) == [];
    } else {
      ParticipantsRoundTrip(ps[1..]);
      assert ParticipantItems(ps)[1..] == ParticipantItems(ps[1..]);
      assert ps == [ps[0]] + ps[1..];
    }
  }

  lemma ReplyShape(kind: string, ok: bool, bodyKey: string, body: Json, requestId: Option<string>)
    requires bodyKey == "payload" || bodyKey == "error"
    ensures var r := Reply(kind, ok, bodyKey, body, requestId);
      && IsReply(r)
      && Verdict(r) == Some(ok)
      && StringField(r, "type") == Some(kind)
      && StringField(r, "request_id") == requestId
      && Field(r, bodyKey) == Some(body)
      && (bodyKey == "error" ==> Field(r, "payload") == None)
  {
  }

  lemma PushShape(kind: string, payload: Json)
    ensures var m := Push(kind, payload);
      !IsReply(m) && StringField(m, "type") == Some(kind) && Field(m, "payload") == Some(payload)
  {
  }

  lemma NoRosterInSignals(k: SignalingType)
    ensures !CarriesRoster(SignalingName(k)) && !CarriesRoster(SignalingName(k) + "_result")
  {
    assert SignalingName(k)[1] in ['f', 'n', 'c'];
    assert SignalingName(k)[0] in ['o', 'a', 'i'];
  }

  lemma RoomBodyShows(code: RoomCode, p: Participant, ps: seq<Participant>)
    ensures var b := RoomBody(code, p, ps);
      StringField(b, "room_code") == Some(code) && Field(b, "participants") == Some(Arr(ParticipantItems(ps)))
  {
  }

  /** What a client reads off an event is the room and its list, in order. */
  lemma EventShowsRoster(e: Event)
    ensures ReadRoster(EncodeEvent(e)) == Some(Roster(e.code, e.receivers))
    ensures !IsReply(EncodeEvent(e))
  {
    ParticipantsRoundTrip(e.receivers);
    match e
    case JoinedRoomEvent(code, p, ps) =>
      var body := Obj(map["room_code" := Str(code), "participants" := Arr(ParticipantItems(ps)), "participant" := ParticipantToJson(p)]);
      PushShape("participant_joined", body);
      assert StringField(body, "room_code") == Some(code);
      assert Field(body, "participants") == Some(Arr(ParticipantItems(ps)));
    case LeftRoomEvent(code, id, ps) =>
      var body := Obj(map["room_code" := Str(code), "participants" := Arr(ParticipantItems(ps)), "participant_id" := Str(id)]);
      PushShape("participant_left", body);
      assert StringField(body, "room_code") == Some(code);
      assert Field(body, "participants") == Some(Arr(ParticipantItems(ps)));
  }

  /** And it says who came or who went. */
  lemma EventAnnounces(e: Event)
    ensures match e
      case JoinedRoomEvent(code, p, ps) => AnnouncesArrival(EncodeEvent(e), code, p, ps)
      case LeftRoomEvent(code, id, ps) => AnnouncesDeparture(EncodeEvent(e), code, id, ps)
  {
    hide ReadRoster;
    EventShowsRoster(e);
    match e
    case JoinedRoomEvent(code, p, ps) =>
      var body := Obj(map["room_code" := Str(code), "participants" := Arr(ParticipantItems(ps)), "participant" := ParticipantToJson(p)]);
      PushShape("participant_joined", body);
      assert Field(body, "participant") == Some(ParticipantToJson(p));
      ParticipantRoundTrip(p);
    case LeftRoomEvent(code, id, ps) =>
      var body := Obj(map["room_code" := Str(code), "participants" := Arr(ParticipantItems(ps)), "participant_id" := Str(id)]);
      PushShape("participant_left", body);
      assert StringField(body, "participant_id") == Some(id);
  }

  lemma ParticipantRoundTrip(p: Participant)
    ensures ReadParticipant(ParticipantToJson(p)) == Some(p)
  {
  }

  predicate Fits(meta: Meta, payload: Success) {
    match payload
    case RoomCreated(_, _, _) => meta.kind == CreateRoom
    case RoomJoined(_, _, _) => meta.kind == JoinRoom
    case RoomLeft(_) => meta.kind == LeaveRoom
    case Signaled(_) => meta.kind == Signaling
  }

  function RoomOf(payload: Success): RoomCode {
    match payload
    case RoomCreated(code, _, _) => code
    case RoomJoined(code, _, _) => code
    case RoomLeft(code) => code
    case Signaled(signal) => signal.room
  }

  /** A response's verdict is whether it succeeded; a success names its room, and the participant that
      was let into it. */
  lemma ResponseNames(r: Response)
    ensures Verdict(EncodeResponse(r)) == Some(r.Succeeded?)
    ensures r.Succeeded? ==> NamedRoom(EncodeResponse(r)) == Some(RoomOf(r.payload))
    ensures r.Succeeded? && (r.payload.RoomCreated? || r.payload.RoomJoined?) ==>
      NamedParticipant(EncodeResponse(r)) == Some(r.payload.participant)
  {
    match r
    case Failed(meta, reason) =>
      ReplyShape(ResultType(meta), false, "error", ErrorBody(ErrorCode(reason)), meta.requestId);
    case Succeeded(meta, payload) =>
      var body := SuccessBody(payload);
      ReplyShape(ResultType(meta), true, "payload", body, meta.requestId);
      assert StringField(body, "room_code") == Some(RoomOf(payload));
      if payload.RoomCreated? || payload.RoomJoined? {
        assert Field(body, "participant") == Some(ParticipantToJson(payload.participant));
        ParticipantRoundTrip(payload.participant);
      }
  }

  /** The list a response shows, on the typed side. */
  function RosterOf(r: Response): Option<Roster> {
    match r
    case Succeeded(_, RoomCreated(code, _, ps)) => Some(Roster(code, ps))
    case Succeeded(_, RoomJoined(code, _, ps)) => Some(Roster(code, ps))
    case _ => None
  }

  lemma ResponseShowsRoster(r: Response)
    requires r.Succeeded? ==> Fits(r.meta, r.payload)
    ensures ReadRoster(EncodeResponse(r)) == RosterOf(r)
    ensures IsReply(EncodeResponse(r))
    ensures StringField(EncodeResponse(r), "request_id") == r.meta.requestId
    ensures StringField(EncodeResponse(r), "type") == Some(ResultType(r.meta))
  {
    match r
    case Failed(meta, reason) =>
      ReplyShape(ResultType(meta), false, "error", ErrorBody(ErrorCode(reason)), meta.requestId);
    case Succeeded(meta, payload) =>
      ReplyShape(ResultType(meta), true, "payload", SuccessBody(payload), meta.requestId);
      match payload {
        case RoomCreated(code, p, ps) => ParticipantsRoundTrip(ps); RoomBodyShows(code, p, ps);
        case RoomJoined(code, p, ps) => ParticipantsRoundTrip(ps); RoomBodyShows(code, p, ps);
        case RoomLeft(_) =>
        case Signaled(_) =>
          if meta.signaling.Some? {
            NoRosterInSignals(meta.signaling.value);
          }
      }
  }
}
