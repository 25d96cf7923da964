/** Routing of typed requests: one response plus the events it causes. */
module Dispatcher {
  import opened Domain
  import opened Protocol
  import opened RoomCodes
  import R = RoomStore

  datatype Outcome = Outcome(store: R.Store, response: Response, events: seq<Event>)

  function MapServiceError(e: R.ServiceError): Failure {
    match e
    case WrongPassword => WrongPassword
    case RoomNotFound => RoomNotFound
    case RoomCodeGenerationFailed => RoomCodeGenerationFailed
    case ParticipantUnavailable => ParticipantUnavailable
    case NotInRoom => Failure.NotInRoom
    case AlreadyJoined => Failure.AlreadyInRoom
    case RoomAlreadyExists => RoomAlreadyExists
    case PasswordNotProvided => PasswordNotProvided
    case InternalError => InternalError
  }

  /** A command whose variant does not fit the metadata is an internal error, as the failed variant
      access is caught and reported. */
  function Dispatch(s: R.Store, r: Request, draws: seq<Draw>): Outcome {
    match (r.meta.kind, r.command)
    case (CreateRoom, CreateRoomCommand(p, password)) =>
      var (s1, created) := R.CreateRoom(s, password, draws);
      if created.Err? then Outcome(s1, Failed(r.meta, MapServiceError(created.error)), [])
      else
        var (s2, joined) := R.JoinRoom(s1, created.value, p, password);
        if joined.Err? then Outcome(s2, Failed(r.meta, MapServiceError(joined.error)), [])
        else
          var j := joined.value;
          Outcome(s2, Succeeded(r.meta, RoomCreated(j.code, j.participant, j.participants)), [])
    case (JoinRoom, JoinRoomCommand(code, p, password)) =>
      var (s1, joined) := R.JoinRoom(s, code, p, password);
      if joined.Err? then Outcome(s1, Failed(r.meta, MapServiceError(joined.error)), [])
      else
        var j := joined.value;
        Outcome(s1, Succeeded(r.meta, RoomJoined(j.code, j.participant, j.participants)),
                [JoinedRoomEvent(j.code, j.participant, j.participants)])
    case (LeaveRoom, LeaveRoomCommand(code, id)) =>
      var (s1, left) := R.LeaveRoom(s, code, id);
      if left.Err? then Outcome(s1, Failed(r.meta, MapServiceError(left.error)), [])
      else
        var l := left.value;
        Outcome(s1, Succeeded(r.meta, RoomLeft(l.code)), [LeftRoomEvent(l.code, l.id, l.remaining)])
    case (Signaling, SignalingCommand(signal)) =>
      if !R.InRoom(s, signal.from, signal.room) || !R.InRoom(s, signal.target, signal.room)
      then Outcome(s, Failed(r.meta, Failure.NotInRoom), [])
      else Outcome(s, Succeeded(r.meta, Signaled(signal)), [])
    case _ => Outcome(s, Failed(r.meta, InternalError), [])
  }

  function DepartureEvents(left: seq<R.LeftRoom>): seq<Event> {
    if left == [] then []
    else [LeftRoomEvent(left[0].code, left[0].id, left[0].remaining)] + DepartureEvents(left[1..])
  }

  function Disconnect(s: R.Store, codes: seq<RoomCode>, id: ParticipantId): (R.Store, seq<Event>) {
    var (s', left) := R.LeaveAll(s, codes, id);
    (s', DepartureEvents(left))
  }
}
