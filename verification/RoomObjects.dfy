/** The objects that hold rooms and change them in place, proved against the functions on values. */
module RoomObjects {
  import D = Domain
  import opened Protocol
  import opened RoomCodes
  import R = RoomStore
  import Dispatcher

  // ------------------------------------------------------------------
  // Room
  // ------------------------------------------------------------------

  class Room {
    const code: D.RoomCode
    const secret: D.Option<D.RoomSecret>
    var participants: seq<D.Participant>

    function Value(): D.Room
      reads this
    {
      D.Room(code, secret, participants)
    }

    constructor (code: D.RoomCode, secret: D.Option<D.RoomSecret>)
      ensures Value() == D.Room(code, secret, [])
    {
      this.code, this.secret, this.participants := code, secret, [];
    }

    /** The copy that a transaction works on. */
    constructor CopyOf(room: D.Room)
      ensures Value() == room
    {
      this.code, this.secret, this.participants := room.code, room.secret, room.participants;
    }

    method HasParticipant(id: D.ParticipantId) returns (found: bool)
      ensures found <==> D.Has(participants, id)
    {
      found := false;
      for i := 0 to |participants|
        invariant found <==> D.Has(participants[..i], id)
      {
        if participants[i].id == id {
          assert participants[i] in participants[..i + 1];
          found := true;
        }
        assert participants[..i + 1] == participants[..i] + [participants[i]];
      }
      assert participants[..|participants|] == participants;
    }

    method TryAddParticipant(p: D.Participant, supplied: D.Option<D.RoomSecret>) returns (r: D.JoinRoomResult)
      modifies this`participants
      ensures r == D.JoinVerdict(old(Value()), p.id, supplied)
      ensures participants == old(participants) + if r == D.Joined then [p] else []
    {
      var present := HasParticipant(p.id);
      if present {
        return D.AlreadyInRoom;
      }
      if secret.Some? {
        if supplied.None? {
          return D.SecretNotProvided;
        }
        if secret.value != supplied.value {
          return D.InvalidSecret;
        }
      }
      participants := participants + [p];
      r := D.Joined;
    }

    method RemoveParticipant(id: D.ParticipantId) returns (r: D.LeaveRoomResult)
      modifies this`participants
      ensures r == (if old(D.Has(participants, id)) then D.Left else D.LeaveRoomResult.NotInRoom)
      ensures participants == D.Without(old(participants), id)
    {
      var present := HasParticipant(id);
      if !present {
        D.WithoutAbsent(participants, id);
        return D.LeaveRoomResult.NotInRoom;
      }
      var kept: seq<D.Participant> := [];
      for i := 0 to |participants|
        invariant kept + D.Without(participants[i..], id) == D.Without(participants, id)
      {
        assert participants[i..][1..] == participants[i + 1..];
        if participants[i].id != id {
          kept := kept + [participants[i]];
        }
      }
      participants := kept;
      r := D.Left;
    }
  }

  // ------------------------------------------------------------------
  // Repository
  // ------------------------------------------------------------------

  datatype AddRoomResult = Added | AlreadyExists
  datatype UpdateRoomResult = Updated | UpdateNotFound | Aborted
  datatype RemoveEmptyRoomResult = Removed | NotEmpty | RemoveNotFound

  /** The two updaters that the room service passes to `Update`. */
  datatype Updater =
    | Joiner(p: D.Participant, supplied: D.Option<D.RoomSecret>)
    | Leaver(id: D.ParticipantId)

  /** What an updater assigns to the variables it captured. */
  datatype Captured = Captured(
    join: D.Option<D.JoinRoomResult>, leave: D.Option<D.LeaveRoomResult>, participants: seq<D.Participant>)

  const NOTHING_CAPTURED := Captured(D.None, D.None, [])

  class InMemoryRoomRepository {
    var rooms: R.Store

    constructor ()
      ensures rooms == map[]
    {
      rooms := map[];
    }

    method Add(room: D.Room) returns (r: AddRoomResult)
      modifies this
      ensures r == (if room.code in old(rooms) then AlreadyExists else Added)
      ensures rooms == if room.code in old(rooms) then old(rooms) else old(rooms)[room.code := room]
    {
      if room.code in rooms {
        return AlreadyExists;
      }
      rooms := rooms[room.code := room];
      r := Added;
    }

    /** Copy, run the updater on the copy, and store the copy only if the updater commits. */
    method Update(code: D.RoomCode, updater: Updater) returns (r: UpdateRoomResult, seen: Captured)
      modifies this
      ensures r == UpdateNotFound <==> code !in old(rooms)
      ensures updater.Joiner? ==>
        && rooms == R.JoinCommitted(old(rooms), code, updater.p, updater.supplied)
        && (code in old(rooms) ==>
              var verdict := D.JoinVerdict(old(rooms)[code], updater.p.id, updater.supplied);
              && (r == Updated <==> verdict == D.Joined)
              && seen == Captured(D.Some(verdict), D.None, if verdict == D.Joined then rooms[code].participants else []))
      ensures updater.Leaver? ==>
        && rooms == R.LeaveCommitted(old(rooms), code, updater.id)
        && (code in old(rooms) ==>
              var there := D.Has(old(rooms)[code].participants, updater.id);
              && (r == Updated <==> there)
              && seen == Captured(D.None, D.Some(if there then D.Left else D.LeaveRoomResult.NotInRoom),
                                  if there then rooms[code].participants else []))
    {
      seen := NOTHING_CAPTURED;
      if code !in rooms {
        return UpdateNotFound, seen;
      }
      var copy := new Room.CopyOf(rooms[code]);
      var commit: bool;
      match updater {
        case Joiner(p, supplied) =>
          var verdict := copy.TryAddParticipant(p, supplied);
          commit := verdict == D.Joined;
          seen := Captured(D.Some(verdict), D.None, if commit then copy.participants else []);
        case Leaver(id) =>
          var verdict := copy.RemoveParticipant(id);
          commit := verdict == D.Left;
          seen := Captured(D.None, D.Some(verdict), if commit then copy.participants else []);
      }
      if !commit {
        return Aborted, seen;
      }
      rooms := rooms[code := copy.Value()];
      r := Updated;
    }

    method RemoveIfEmpty(code: D.RoomCode) returns (r: RemoveEmptyRoomResult)
      modifies this
      ensures rooms == R.ErasedIfEmpty(old(rooms), code)
      ensures r == (if code !in old(rooms) then RemoveNotFound else if old(rooms)[code].participants == [] then Removed else NotEmpty)
    {
      if code !in rooms {
        return RemoveNotFound;
      }
      if rooms[code].participants == [] {
        rooms := rooms - {code};
        return Removed;
      }
      r := NotEmpty;
    }

    method ParticipantInRoom(id: D.ParticipantId, code: D.RoomCode) returns (inside: bool)
      ensures inside <==> R.InRoom(rooms, id, code)
    {
      if code !in rooms {
        return false;
      }
      var room := new Room.CopyOf(rooms[code]);
      inside := room.HasParticipant(id);
    }

    /** Lists every code once, in an order of the map's own choosing. */
    method GetRoomCodes() returns (codes: seq<D.RoomCode>)
      ensures R.Enumerates(codes, rooms)
    {
      codes := [];
      var rest := rooms.Keys;
      while rest != {}
        invariant rest <= rooms.Keys
        invariant forall c :: c in codes <==> c in rooms && c !in rest
        invariant R.Distinct(codes)
        decreases rest
      {
        var c :| c in rest;
        codes := codes + [c];
        rest := rest - {c};
      }
    }
  }

  // ------------------------------------------------------------------
  // Room service
  // ------------------------------------------------------------------

  function Oks(left: seq<R.LeftRoom>): seq<R.Result<R.LeftRoom>> {
    if left == [] then [] else [R.Ok(left[0])] + Oks(left[1..])
  }

  /** One round of the sweep: the rest is a sweep of what this room's leave made of the store. */
  lemma SweepStep(s: R.Store, codes: seq<D.RoomCode>, i: nat, id: D.ParticipantId)
    requires i < |codes|
    ensures var (s1, r) := R.LeaveRoom(s, codes[i], id);
      var (now, later) := (R.LeaveAll(s, codes[i..], id), R.LeaveAll(s1, codes[i + 1..], id));
      && now.0 == later.0
      && Oks(now.1) == (if r.Ok? then [r] else []) + Oks(later.1)
      && (r.Err? ==> r.error != R.InternalError)
  {
    assert codes[i..][1..] == codes[i + 1..];
    var (s1, r) := R.LeaveRoom(s, codes[i], id);
    var later := R.LeaveAll(s1, codes[i + 1..], id).1;
    if r.Ok? {
      assert ([r.value] + later)[1..] == later;
    }
  }

  lemma SweepEnd(s: R.Store, codes: seq<D.RoomCode>, id: D.ParticipantId)
    ensures R.LeaveAll(s, codes[|codes|..], id) == (s, [])
    ensures Oks([]) == []
  {
  }

  class RoomService {
    const repository: InMemoryRoomRepository

    constructor (repository: InMemoryRoomRepository)
      ensures this.repository == repository
    {
      this.repository := repository;
    }

    /** `draws` are what the generator yields for the attempts. */
    method CreateRoom(password: D.Option<D.RoomSecret>, draws: seq<Draw>) returns (r: R.Result<D.RoomCode>)
      requires |draws| == MAX_ATTEMPTS
      modifies repository
      ensures (repository.rooms, r) == R.CreateRoom(old(repository.rooms), password, draws)
      ensures |draws| == 100 && (r.Err? <==> forall j :: 0 <= j < 100 ==> FormatCode(draws[j]) in old(repository.rooms))
    {
      R.CreateRoomTakesFirstFreeCode(repository.rooms, password, draws);
      for attempt := 0 to MAX_ATTEMPTS
        invariant repository.rooms == old(repository.rooms)
        invariant R.FirstFree(repository.rooms, draws, 0) == R.FirstFree(repository.rooms, draws, attempt)
      {
        var room := D.Room(FormatCode(draws[attempt]), password, []);
        var added := repository.Add(room);
        if added == Added {
          return R.Ok(room.code);
        }
      }
      r := R.Err(R.RoomCodeGenerationFailed);
    }

    method JoinRoom(code: D.RoomCode, p: D.Participant,
        password: D.Option<D.RoomSecret>) returns (r: R.Result<R.JoinedRoom>)
      modifies repository
      ensures (repository.rooms, r) == R.JoinRoom(old(repository.rooms), code, p, password)
    {
      var updated, seen := repository.Update(code, Joiner(p, password));
      if updated == UpdateNotFound {
        return R.Err(R.RoomNotFound);
      }
      if seen.join.None? {
        return R.Err(R.InternalError);
      }
      if seen.join.value == D.AlreadyInRoom {
        return R.Err(R.AlreadyJoined);
      }
      if seen.join.value == D.InvalidSecret {
        return R.Err(R.WrongPassword);
      }
      if seen.join.value == D.SecretNotProvided {
        return R.Err(R.PasswordNotProvided);
      }
      r := R.Ok(R.JoinedRoom(code, p, seen.participants));
    }

    method LeaveRoom(code: D.RoomCode, id: D.ParticipantId) returns (r: R.Result<R.LeftRoom>)
      modifies repository
      ensures (repository.rooms, r) == R.LeaveRoom(old(repository.rooms), code, id)
    {
      var updated, seen := repository.Update(code, Leaver(id));
      if updated == UpdateNotFound {
        return R.Err(R.RoomNotFound);
      }
      if seen.leave.None? {
        return R.Err(R.InternalError);
      }
      if seen.leave.value == D.LeaveRoomResult.NotInRoom {
        return R.Err(R.ServiceError.NotInRoom);
      }
      var _ := repository.RemoveIfEmpty(code);
      r := R.Ok(R.LeftRoom(code, id, seen.participants));
    }

    /** `order` is the snapshot the loop runs over while the repository changes under it. */
    method LeaveAllRooms(id: D.ParticipantId) returns (results: seq<R.Result<R.LeftRoom>>, ghost order: seq<D.RoomCode>)
      modifies repository
      ensures R.Enumerates(order, old(repository.rooms))
      ensures repository.rooms == R.LeaveAll(old(repository.rooms), order, id).0
      ensures results == Oks(R.LeaveAll(old(repository.rooms), order, id).1)
    {
      hide R.LeaveAll, Oks, R.Enumerates, R.LeaveRoom;
      var codes := repository.GetRoomCodes();
      order := codes;
      assert codes[0..] == codes;
      results := [];
      ghost var all := R.LeaveAll(repository.rooms, codes, id);
      for i := 0 to |codes|
        invariant R.LeaveAll(repository.rooms, codes[i..], id).0 == all.0
        invariant results + Oks(R.LeaveAll(repository.rooms, codes[i..], id).1) == Oks(all.1)
      {
        SweepStep(repository.rooms, codes, i, id);
        var r := LeaveRoom(codes[i], id);
        if r.Ok? || r.error == R.InternalError {
          results := results + [r];
        }
      }
      SweepEnd(repository.rooms, codes, id);
    }

    method ParticipantInRoom(id: D.ParticipantId, code: D.RoomCode) returns (inside: bool)
      ensures inside <==> R.InRoom(repository.rooms, id, code)
    {
      inside := repository.ParticipantInRoom(id, code);
    }
  }

  // ------------------------------------------------------------------
  // Control dispatcher
  // ------------------------------------------------------------------

  class ControlDispatcher {
    const service: RoomService

    constructor (service: RoomService)
      ensures this.service == service
    {
      this.service := service;
    }

    /** Returns what the handler is called with. */
    method Dispatch(request: Request, draws: seq<Draw>) returns (response: Response, events: seq<Event>)
      requires |draws| == MAX_ATTEMPTS
      modifies service.repository
      ensures Dispatcher.Outcome(service.repository.rooms, response, events)
              == Dispatcher.Dispatch(old(service.repository.rooms), request, draws)
    {
      events := [];
      match (request.meta.kind, request.command) {
        case (CreateRoom, CreateRoomCommand(p, password)) =>
          var created := service.CreateRoom(password, draws);
          if created.Err? {
            response := Failed(request.meta, Dispatcher.MapServiceError(created.error));
            return;
          }
          var joined := service.JoinRoom(created.value, p, password);
          if joined.Err? {
            response := Failed(request.meta, Dispatcher.MapServiceError(joined.error));
            return;
          }
          var j := joined.value;
          response := Succeeded(request.meta, RoomCreated(j.code, j.participant, j.participants));
        case (JoinRoom, JoinRoomCommand(code, p, password)) =>
          var joined := service.JoinRoom(code, p, password);
          if joined.Err? {
            response := Failed(request.meta, Dispatcher.MapServiceError(joined.error));
            return;
          }
          var j := joined.value;
          response := Succeeded(request.meta, RoomJoined(j.code, j.participant, j.participants));
          events := [JoinedRoomEvent(j.code, j.participant, j.participants)];
        case (LeaveRoom, LeaveRoomCommand(code, id)) =>
          var left := service.LeaveRoom(code, id);
          if left.Err? {
            response := Failed(request.meta, Dispatcher.MapServiceError(left.error));
            return;
          }
          var l := left.value;
          response := Succeeded(request.meta, RoomLeft(l.code));
          events := [LeftRoomEvent(l.code, l.id, l.remaining)];
        case (Signaling, SignalingCommand(signal)) =>
          var fromInside := service.ParticipantInRoom(signal.from, signal.room);
          if !fromInside {
            response := Failed(request.meta, Failure.NotInRoom);
            return;
          }
          var targetInside := service.ParticipantInRoom(signal.target, signal.room);
          if !targetInside {
            response := Failed(request.meta, Failure.NotInRoom);
            return;
          }
          response := Succeeded(request.meta, Signaled(signal));
        case _ =>
          response := Failed(request.meta, InternalError);
      }
    }

    method HandleParticipantDisconnected(id: D.ParticipantId) returns (events: seq<Event>, ghost order: seq<D.RoomCode>)
      modifies service.repository
      ensures R.Enumerates(order, old(service.repository.rooms))
      ensures (service.repository.rooms, events) == Dispatcher.Disconnect(old(service.repository.rooms), order, id)
    {
      var results, listed := service.LeaveAllRooms(id);
      order := listed;
      ghost var left := R.LeaveAll(old(service.repository.rooms), order, id).1;
      events := [];
      OksLength(left);
      assert left[0..] == left && results[0..] == results;
      for i := 0 to |results|
        invariant service.repository.rooms == R.LeaveAll(old(service.repository.rooms), order, id).0
        invariant |results| == |left|
        invariant results[i..] == Oks(left[i..])
        invariant events + Dispatcher.DepartureEvents(left[i..]) == Dispatcher.DepartureEvents(left)
      {
        assert results[i..][1..] == results[i + 1..];
        assert left[i..][1..] == left[i + 1..];
        if results[i].Ok? {
          var l := results[i].value;
          events := events + [LeftRoomEvent(l.code, l.id, l.remaining)];
        }
      }
      assert left[|left|..] == [];
      assert events == Dispatcher.DepartureEvents(left);
    }
  }

  lemma {:induction false} OksLength(left: seq<R.LeftRoom>)
    ensures |Oks(left)| == |left|
  {
    if left != [] {
      OksLength(left[1..]);
    }
  }
}
