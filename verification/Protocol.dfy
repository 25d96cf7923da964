/** Typed commands, responses and events that travel between the codec, the dispatcher and the
    sessions, and the JSON values they are written as. */
module Protocol {
  import opened Domain

  datatype Json =
    | Null
    | Bool(b: bool)
    | Num(n: real)
    | Str(s: string)
    | Arr(items: seq<Json>)
    | Obj(fields: map<string, Json>)

  /** What a completed read hands over: a non-text frame, text that is no JSON, or a JSON value. */
  datatype Inbound = Binary | Malformed | Text(json: Json)

  datatype ControlMessageType = CreateRoom | JoinRoom | LeaveRoom | Signaling
  datatype SignalingType = Offer | Answer | IceCandidate

  datatype Meta = Meta(kind: ControlMessageType, requestId: Option<string>, signaling: Option<SignalingType>)

  datatype Signal = Signal(
    kind: SignalingType, room: RoomCode, from: ParticipantId, target: ParticipantId, data: Json)

  datatype Command =
    | CreateRoomCommand(participant: Participant, password: Option<RoomSecret>)
    | JoinRoomCommand(room: RoomCode, participant: Participant, password: Option<RoomSecret>)
    | LeaveRoomCommand(room: RoomCode, id: ParticipantId)
    | SignalingCommand(signal: Signal)

  datatype Request = Request(meta: Meta, command: Command)

  datatype Success =
    | RoomCreated(code: RoomCode, participant: Participant, participants: seq<Participant>)
    | RoomJoined(code: RoomCode, participant: Participant, participants: seq<Participant>)
    | RoomLeft(code: RoomCode)
    | Signaled(signal: Signal)

  datatype Failure =
    | RoomAlreadyExists
    | RoomCodeGenerationFailed
    | NotInRoom
    | AlreadyInRoom
    | WrongPassword
    | PasswordNotProvided
    | RoomNotFound
    | ParticipantUnavailable
    | InternalError

  datatype Response = Succeeded(meta: Meta, payload: Success) | Failed(meta: Meta, reason: Failure)

  datatype Event =
    | JoinedRoomEvent(code: RoomCode, joined: Participant, receivers: seq<Participant>)
    | LeftRoomEvent(code: RoomCode, left: ParticipantId, receivers: seq<Participant>)

  function Field(j: Json, key: string): Option<Json> {
    if j.Obj? && key in j.fields then Some(j.fields[key]) else None
  }

  function StringField(j: Json, key: string): Option<string> {
    match Field(j, key)
    case Some(Str(s)) => Some(s)
    case _ => None
  }
}
