/** The repository's atomic operations and the room service's use cases, as functions of the
    stored rooms. */
module RoomStore {
  import opened Domain
  import opened RoomCodes

  type Store = map<RoomCode, Room>

  datatype ServiceError =
    | WrongPassword
    | RoomNotFound
    | RoomCodeGenerationFailed
    | ParticipantUnavailable
    | NotInRoom
    | AlreadyJoined
    | RoomAlreadyExists
    | PasswordNotProvided
    | InternalError

  datatype Result<+T> = Ok(value: T) | Err(error: ServiceError)

  datatype JoinedRoom = JoinedRoom(code: RoomCode, participant: Participant, participants: seq<Participant>)
  datatype LeftRoom = LeftRoom(code: RoomCode, id: ParticipantId, remaining: seq<Participant>)

  function Members(s: Store, c: RoomCode): seq<Participant> {
    if c in s then s[c].participants else []
  }

  predicate InRoom(s: Store, id: ParticipantId, c: RoomCode) {
    c in s && Has(s[c].participants, id)
  }

  // ------------------------------------------------------------------
  // Atomic repository operations
  // ------------------------------------------------------------------

  /** `Add` never overwrites. */
  function Added(s: Store, c: RoomCode, secret: Option<RoomSecret>): Store {
    if c in s then s else s[c := Room(c, secret, [])]
  }

  predicate CanJoin(s: Store, c: RoomCode, id: ParticipantId, supplied: Option<RoomSecret>) {
    c in s && JoinVerdict(s[c], id, supplied) == Joined
  }

  /** `Update` with the joining updater: committed only when the room lets the participant in. */
  function JoinCommitted(s: Store, c: RoomCode, p: Participant, supplied: Option<RoomSecret>): Store {
    if CanJoin(s, c, p.id, supplied)
    then s[c := s[c].(participants := s[c].participants + [p])]
    else s
  }

  /** `Update` with the leaving updater: committed only when the participant is there. */
  function LeaveCommitted(s: Store, c: RoomCode, id: ParticipantId): Store {
    if InRoom(s, id, c)
    then s[c := s[c].(participants := Without(s[c].participants, id))]
    else s
  }

  function ErasedIfEmpty(s: Store, c: RoomCode): Store {
    if c in s && s[c].participants == [] then s - {c} else s
  }

  // ------------------------------------------------------------------
  // Room service
  // ------------------------------------------------------------------

  /** Position of the first draw, from `i` on, whose code is free; `|draws|` if there is none. */
  function FirstFree(s: Store, draws: seq<Draw>, i: nat): nat
    requires i <= |draws|
    decreases |draws| - i
  {
    if i == |draws| || FormatCode(draws[i]) !in s then i else FirstFree(s, draws, i + 1)
  }

  function CreateRoom(s: Store, secret: Option<RoomSecret>, draws: seq<Draw>): (Store, Result<RoomCode>) {
    var k := FirstFree(s, draws, 0);
    if k < |draws|
    then (Added(s, FormatCode(draws[k]), secret), Ok(FormatCode(draws[k])))
    else (s, Err(RoomCodeGenerationFailed))
  }

  function JoinError(v: JoinRoomResult): ServiceError
    requires v != Joined
  {
    match v
    case AlreadyInRoom => AlreadyJoined
    case InvalidSecret => WrongPassword
    case SecretNotProvided => PasswordNotProvided
  }

  function JoinRoom(s: Store, c: RoomCode, p: Participant, supplied: Option<RoomSecret>): (Store, Result<JoinedRoom>) {
    var s' := JoinCommitted(s, c, p, supplied);
    if c !in s then (s', Err(RoomNotFound))
    else if JoinVerdict(s[c], p.id, supplied) != Joined then (s', Err(JoinError(JoinVerdict(s[c], p.id, supplied))))
    else (s', Ok(JoinedRoom(c, p, s'[c].participants)))
  }

  function LeaveRoom(s: Store, c: RoomCode, id: ParticipantId): (Store, Result<LeftRoom>) {
    var s' := LeaveCommitted(s, c, id);
    if c !in s then (s', Err(RoomNotFound))
    else if !Has(s[c].participants, id) then (s', Err(ServiceError.NotInRoom))
    else (ErasedIfEmpty(s', c), Ok(LeftRoom(c, id, s'[c].participants)))
  }

  /** The sweep over a snapshot of the codes: a room that is gone or never held the participant
      contributes no result. */
  function LeaveAll(s: Store, codes: seq<RoomCode>, id: ParticipantId): (Store, seq<LeftRoom>) {
    if codes == [] then (s, [])
    else
      var (s1, r) := LeaveRoom(s, codes[0], id);
      var (s2, rest) := LeaveAll(s1, codes[1..], id);
      (s2, if r.Ok? then [r.value] + rest else rest)
  }

  ghost predicate Distinct(codes: seq<RoomCode>) {
    forall i, j :: 0 <= i < j < |codes| ==> codes[i] != codes[j]
  }

  /** `codes` lists the store's codes, each once. */
  ghost predicate Enumerates(codes: seq<RoomCode>, s: Store) {
    (forall c :: c in codes <==> c in s) && Distinct(codes)
  }

  /** Some order in which a store with these codes may list them. */
  ghost function SomeOrder(codes: set<RoomCode>): (order: seq<RoomCode>)
    ensures Distinct(order) && forall c :: c in order <==> c in codes
  {
    if codes == {} then []
    else
      var last :| last in codes;
      SomeOrder(codes - {last}) + [last]
  }

  // ------------------------------------------------------------------
  // What every operation keeps
  // ------------------------------------------------------------------

  /** Keys are the stored codes, every key is a printed draw, and nobody is listed twice. */
  ghost predicate WellFormed(s: Store) {
    && (forall c :: c in s ==> s[c].code == c && IsCode(c))
    && (forall c :: c in s ==> DistinctIds(s[c].participants))
  }

  ghost predicate NoEmptyRooms(s: Store) {
    forall c :: c in s ==> s[c].participants != []
  }

  lemma OpeningKeepsWellFormed(s: Store, n: Draw, p: Participant, secret: Option<RoomSecret>)
    requires WellFormed(s)
    ensures WellFormed(s[FormatCode(n) := Room(FormatCode(n), secret, [p])])
  {
    assert IsCode(FormatCode(n));
  }

  lemma JoinKeepsWellFormed(s: Store, c: RoomCode, p: Participant, supplied: Option<RoomSecret>)
    requires WellFormed(s)
    ensures WellFormed(JoinCommitted(s, c, p, supplied))
  {
    if CanJoin(s, c, p.id, supplied) {
      AppendKeepsDistinct(s[c].participants, p);
    }
  }

  lemma AppendKeepsDistinct(ps: seq<Participant>, p: Participant)
    requires DistinctIds(ps) && !Has(ps, p.id)
    ensures DistinctIds(ps + [p])
  {
    assert forall q :: q in ps ==> q.id != p.id;
  }

  /** No atomic operation of the repository breaks well-formedness, whatever its arguments. */
  lemma AtomicOperationsKeepWellFormed(s: Store, n: Draw, secret: Option<RoomSecret>, c: RoomCode, p: Participant)
    requires WellFormed(s)
    ensures WellFormed(Added(s, FormatCode(n), secret))
    ensures WellFormed(JoinCommitted(s, c, p, secret))
    ensures WellFormed(LeaveCommitted(s, c, p.id))
    ensures WellFormed(ErasedIfEmpty(s, c))
  {
    hide Has, DistinctIds, JoinCommitted;
    assert IsCode(FormatCode(n));
    JoinKeepsWellFormed(s, c, p, secret);
    assert DistinctIds([]) by {
      DistinctOfNone();
    }
    if c in s {
      WithoutDistinct(s[c].participants, p.id);
    }
  }

  lemma DistinctOfNone()
    ensures DistinctIds([])
  {
  }

  lemma LeaveKeepsWellFormed(s: Store, c: RoomCode, id: ParticipantId)
    requires WellFormed(s)
    ensures WellFormed(LeaveRoom(s, c, id).0)
    ensures NoEmptyRooms(s) ==> NoEmptyRooms(LeaveRoom(s, c, id).0)
  {
    if c in s {
      WithoutDistinct(s[c].participants, id);
    }
  }

  /** The retry loop's contract: the chosen code is the first free one among the draws. */
  lemma {:induction false} FirstFreeIsFirst(s: Store, draws: seq<Draw>, i: nat)
    requires i <= |draws|
    ensures i <= FirstFree(s, draws, i) <= |draws|
    ensures forall j :: i <= j < FirstFree(s, draws, i) ==> FormatCode(draws[j]) in s
    ensures FirstFree(s, draws, i) < |draws| ==> FormatCode(draws[FirstFree(s, draws, i)]) !in s
    decreases |draws| - i
  {
    if i < |draws| && FormatCode(draws[i]) in s {
      FirstFreeIsFirst(s, draws, i + 1);
    }
  }

  lemma CreateRoomTakesFirstFreeCode(s: Store, secret: Option<RoomSecret>, draws: seq<Draw>)
    ensures var (s', r) := CreateRoom(s, secret, draws);
      && (r.Err? <==> forall j :: 0 <= j < |draws| ==> FormatCode(draws[j]) in s)
      && (r.Err? ==> s' == s && r.error == RoomCodeGenerationFailed)
      && (r.Ok? ==> r.value !in s && s' == s[r.value := Room(r.value, secret, [])])
      && (r.Ok? ==> exists k :: 0 <= k < |draws| && r.value == FormatCode(draws[k])
                             && forall j :: 0 <= j < k ==> FormatCode(draws[j]) in s)
  {
    FirstFreeIsFirst(s, draws, 0);
  }

  /** Creating and then joining with the same secret option always lets the creator in. */
  lemma CreatorAlwaysGetsIn(s: Store, p: Participant, secret: Option<RoomSecret>, draws: seq<Draw>)
    requires CreateRoom(s, secret, draws).1.Ok?
    ensures var (s1, created) := CreateRoom(s, secret, draws);
      var (s2, joined) := JoinRoom(s1, created.value, p, secret);
      && created.value !in s
      && joined == Ok(JoinedRoom(created.value, p, [p]))
      && s2 == s[created.value := Room(created.value, secret, [p])]
  {
    FirstFreeIsFirst(s, draws, 0);
    var (s1, created) := CreateRoom(s, secret, draws);
    assert JoinVerdict(s1[created.value], p.id, secret) == Joined;
    assert [] + [p] == [p];
  }

  /** What a whole sweep does, said without the loop: `id` disappears from every room, rooms it
      had to itself disappear, everybody else keeps their place. */
  function Swept(s: Store, id: ParticipantId): Store {
    map c | c in s && !(Has(s[c].participants, id) && Without(s[c].participants, id) == []) ::
      s[c].(participants := Without(s[c].participants, id))
  }

  /** The rooms of `codes` that hold `id`, in that order, each with who stays behind. */
  function Departures(s: Store, codes: seq<RoomCode>, id: ParticipantId): seq<LeftRoom> {
    if codes == [] then []
    else if InRoom(s, id, codes[0])
    then [LeftRoom(codes[0], id, Without(s[codes[0]].participants, id))] + Departures(s, codes[1..], id)
    else Departures(s, codes[1..], id)
  }

  ghost predicate SameAt(s: Store, t: Store, c: RoomCode) {
    (c in s <==> c in t) && (c in s ==> s[c] == t[c])
  }

  lemma SameEverywhere(s: Store, t: Store)
    requires forall c :: SameAt(s, t, c)
    ensures s == t
  {
    forall c ensures c in s <==> c in t {
      assert SameAt(s, t, c);
    }
    forall c | c in s ensures s[c] == t[c] {
      assert SameAt(s, t, c);
    }
  }

  lemma {:induction false} DeparturesIgnoreOtherRooms(s: Store, t: Store, codes: seq<RoomCode>, id: ParticipantId)
    requires forall c :: c in codes ==> SameAt(s, t, c)
    ensures Departures(s, codes, id) == Departures(t, codes, id)
  {
    if codes != [] {
      assert codes[0] in codes;
      DeparturesIgnoreOtherRooms(s, t, codes[1..], id);
    }
  }

  lemma {:induction false} SweepRoomByRoom(s: Store, codes: seq<RoomCode>, id: ParticipantId)
    requires Distinct(codes)
    ensures LeaveAll(s, codes, id).1 == Departures(s, codes, id)
    ensures forall c :: c !in codes ==> SameAt(LeaveAll(s, codes, id).0, s, c)
    ensures forall c :: c in codes ==> SameAt(LeaveAll(s, codes, id).0, LeaveRoom(s, c, id).0, c)
  {
    if codes != [] {
      var s1 := LeaveRoom(s, codes[0], id).0;
      SweepRoomByRoom(s1, codes[1..], id);
      assert codes == [codes[0]] + codes[1..];
      assert codes[0] !in codes[1..];
      DeparturesIgnoreOtherRooms(s, s1, codes[1..], id);
    }
  }

  /** Disconnect cleanup is complete and framed: whatever order the snapshot lists the codes in,
      the loop produces exactly `Swept`, and one departure for exactly each room that held `id`. */
  lemma CleanupIsComplete(s: Store, codes: seq<RoomCode>, id: ParticipantId)
    requires Enumerates(codes, s)
    ensures LeaveAll(s, codes, id) == (Swept(s, id), Departures(s, codes, id))
    ensures forall c :: !InRoom(Swept(s, id), id, c)
  {
    SweepRoomByRoom(s, codes, id);
    var t := LeaveAll(s, codes, id).0;
    forall c ensures SameAt(t, Swept(s, id), c) {
      SweptRoom(s, c, id);
    }
    SameEverywhere(t, Swept(s, id));
    forall c | c in s ensures !InRoom(Swept(s, id), id, c) {
      WithoutMembers(s[c].participants, id);
    }
  }

  lemma SweptRoom(s: Store, c: RoomCode, id: ParticipantId)
    ensures SameAt(LeaveRoom(s, c, id).0, Swept(s, id), c)
  {
    if c in s && !Has(s[c].participants, id) {
      WithoutAbsent(s[c].participants, id);
    }
  }

  lemma {:induction false} DeparturesAre(s: Store, codes: seq<RoomCode>, id: ParticipantId)
    ensures forall d :: d in Departures(s, codes, id) <==>
      d.code in codes && InRoom(s, id, d.code) && d == LeftRoom(d.code, id, Without(s[d.code].participants, id))
    ensures Distinct(codes) ==>
      forall i, j :: 0 <= i < j < |Departures(s, codes, id)| ==> Departures(s, codes, id)[i].code != Departures(s, codes, id)[j].code
  {
    if codes != [] {
      DeparturesAre(s, codes[1..], id);
      assert codes == [codes[0]] + codes[1..];
      if Distinct(codes) {
        assert codes[0] !in codes[1..];
      }
    }
  }
}
