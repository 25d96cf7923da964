/** Participants and rooms as values: what `Room` keeps and what its operations compute. */
module Domain {

  datatype Option<+T> = None | Some(value: T)

  type ParticipantId = string
  type RoomCode = string
  type RoomSecret = string

  datatype Participant = Participant(id: ParticipantId, name: string)

  datatype JoinRoomResult = Joined | InvalidSecret | SecretNotProvided | AlreadyInRoom
  datatype LeaveRoomResult = Left | NotInRoom

  /** A room without participants is legal: it exists between creation and the creator's join,
      and between the last leave and the conditional erase. */
  datatype Room = Room(code: RoomCode, secret: Option<RoomSecret>, participants: seq<Participant>)

  predicate Has(ps: seq<Participant>, id: ParticipantId) {
    exists p :: p in ps && p.id == id
  }

  ghost predicate DistinctIds(ps: seq<Participant>) {
    forall i, j :: 0 <= i < j < |ps| ==> ps[i].id != ps[j].id
  }

  /** The participants other than `id`, in order. */
  function Without(ps: seq<Participant>, id: ParticipantId): seq<Participant> {
    if ps == [] then []
    else if ps[0].id == id then Without(ps[1..], id)
    else [ps[0]] + Without(ps[1..], id)
  }

  /** An open room admits everybody, a protected one only those who supply its secret. */
  predicate Admits(secret: Option<RoomSecret>, supplied: Option<RoomSecret>) {
    secret.None? || supplied == secret
  }

  function JoinVerdict(room: Room, id: ParticipantId, supplied: Option<RoomSecret>): JoinRoomResult {
    if Has(room.participants, id) then AlreadyInRoom
    else if room.secret.Some? && supplied.None? then SecretNotProvided
    else if room.secret.Some? && room.secret.value != supplied.value then InvalidSecret
    else Joined
  }

  /** The participants that joined before `id`. */
  function Ahead(ps: seq<Participant>, id: ParticipantId): seq<Participant> {
    if ps == [] || ps[0].id == id then [] else [ps[0]] + Ahead(ps[1..], id)
  }

  lemma {:induction false} WithoutMembers(ps: seq<Participant>, id: ParticipantId)
    ensures forall p :: p in Without(ps, id) <==> p in ps && p.id != id
  {
    if ps != [] {
      WithoutMembers(ps[1..], id);
      assert ps == [ps[0]] + ps[1..];
    }
  }

  lemma {:induction false} WithoutDistinct(ps: seq<Participant>, id: ParticipantId)
    requires DistinctIds(ps)
    ensures DistinctIds(Without(ps, id))
    ensures |Without(ps, id)| == if Has(ps, id) then |ps| - 1 else |ps|
  {
    if ps != [] {
      assert ps == [ps[0]] + ps[1..];
      WithoutDistinct(ps[1..], id);
      WithoutMembers(ps[1..], id);
      if ps[0].id == id {
        assert ps[0] in ps;
        assert !Has(ps[1..], id);
      }
    }
  }

  lemma {:induction false} WithoutAbsent(ps: seq<Participant>, id: ParticipantId)
    requires !Has(ps, id)
    ensures Without(ps, id) == ps
  {
    if ps != [] {
      assert ps[0] in ps;
      assert ps == [ps[0]] + ps[1..];
      WithoutAbsent(ps[1..], id);
    }
  }

  lemma HasSplits(ps: seq<Participant>, id: ParticipantId)
    requires ps != []
    ensures Has(ps, id) <==> ps[0].id == id || Has(ps[1..], id)
    ensures DistinctIds(ps) && ps[0].id == id ==> !Has(ps[1..], id)
  {
    assert ps == [ps[0]] + ps[1..];
  }

  lemma {:induction false} AheadOfAppended(ps: seq<Participant>, p: Participant, id: ParticipantId)
    requires Has(ps, id)
    ensures Ahead(ps + [p], id) == Ahead(ps, id)
  {
    if ps[0].id != id {
      assert (ps + [p])[1..] == ps[1..] + [p];
      assert ps == [ps[0]] + ps[1..];
      AheadOfAppended(ps[1..], p, id);
    }
  }

  /** Removing somebody else never lets anybody overtake `id`. */
  lemma {:induction false} AheadWithout(ps: seq<Participant>, other: ParticipantId, id: ParticipantId)
    requires Has(ps, id) && other != id
    ensures Ahead(Without(ps, other), id) == Without(Ahead(ps, id), other)
  {
    if ps[0].id != id {
      assert ps == [ps[0]] + ps[1..];
      AheadWithout(ps[1..], other, id);
      assert Ahead(ps, id)[1..] == Ahead(ps[1..], id);
      if ps[0].id != other {
        assert Without(ps, other)[1..] == Without(ps[1..], other);
      }
    } else {
      assert Without(ps, other)[0] == ps[0];
    }
  }

  // ------------------------------------------------------------------
  // Sequences
  // ------------------------------------------------------------------

  lemma ConcatTail<T>(a: seq<T>, b: seq<T>)
    requires a != []
    ensures (a + b)[0] == a[0] && (a + b)[1..] == a[1..] + b
  {
  }

  lemma ConcatAssociates<T>(a: seq<T>, b: seq<T>, c: seq<T>)
    ensures (a + b) + c == a + (b + c)
  {
  }
}
