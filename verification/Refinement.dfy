/** The simple picture behind the store: which rooms exist with which secret, and who is in which
    room. Every service call, and every single repository call of interleaved threads, is one step
    of that picture or none. */
module Refinement {
  import opened Domain
  import opened RoomCodes
  import opened RoomStore
  import Interleaving

  datatype Picture = Picture(secrets: map<RoomCode, Option<RoomSecret>>, members: set<(RoomCode, ParticipantId)>)

  function PictureOf(s: Store): Picture {
    Picture(map c | c in s :: s[c].secret, set c, p | c in s && p in s[c].participants :: (c, p.id))
  }

  lemma Pictured(s: Store, c: RoomCode, id: ParticipantId)
    ensures (c, id) in PictureOf(s).members <==> InRoom(s, id, c)
    ensures c in PictureOf(s).secrets <==> c in s
    ensures c in s ==> PictureOf(s).secrets[c] == s[c].secret
  {
    if InRoom(s, id, c) {
      var p :| p in s[c].participants && p.id == id;
    }
  }

  // ------------------------------------------------------------------
  // The picture's own operations
  // ------------------------------------------------------------------

  /** Why a join is refused, if it is. */
  function JoinRefusal(a: Picture, c: RoomCode, id: ParticipantId, supplied: Option<RoomSecret>): Option<ServiceError> {
    if c !in a.secrets then Some(RoomNotFound)
    else if (c, id) in a.members then Some(AlreadyJoined)
    else if Admits(a.secrets[c], supplied) then None
    else if supplied.None? then Some(PasswordNotProvided)
    else Some(WrongPassword)
  }

  function LeaveRefusal(a: Picture, c: RoomCode, id: ParticipantId): Option<ServiceError> {
    if c !in a.secrets then Some(RoomNotFound)
    else if (c, id) !in a.members then Some(ServiceError.NotInRoom)
    else None
  }

  function Open(a: Picture, c: RoomCode, secret: Option<RoomSecret>): Picture {
    a.(secrets := a.secrets[c := secret])
  }

  function Enter(a: Picture, c: RoomCode, id: ParticipantId): Picture {
    a.(members := a.members + {(c, id)})
  }

  predicate Inhabited(a: Picture, c: RoomCode) {
    exists m :: m in a.members && m.0 == c
  }

  /** A room goes with its last member. */
  function Exit(a: Picture, c: RoomCode, id: ParticipantId): Picture {
    var a' := a.(members := a.members - {(c, id)});
    if Inhabited(a', c) then a' else a'.(secrets := a.secrets - {c})
  }

  /** `id` leaves everything at once. */
  function ExitAll(a: Picture, id: ParticipantId): Picture {
    var a' := a.(members := set m | m in a.members && m.1 != id);
    a'.(secrets := map c | c in a.secrets && (Inhabited(a', c) || (c, id) !in a.members) :: a.secrets[c])
  }

  // ------------------------------------------------------------------
  // Service calls refine them
  // ------------------------------------------------------------------

  lemma PicturesAgree(s: Store, a: Picture)
    requires forall c, id :: (c, id) in a.members <==> InRoom(s, id, c)
    requires a.secrets.Keys == s.Keys
    requires forall c :: c in s ==> a.secrets[c] == s[c].secret
    ensures PictureOf(s) == a
  {
    forall m | true ensures m in PictureOf(s).members <==> m in a.members {
      Pictured(s, m.0, m.1);
      assert m == (m.0, m.1);
    }
    assert PictureOf(s).members == a.members;
    assert PictureOf(s).secrets == a.secrets;
  }

  lemma EnterRefined(s: Store, c: RoomCode, p: Participant, supplied: Option<RoomSecret>)
    requires CanJoin(s, c, p.id, supplied)
    ensures PictureOf(JoinCommitted(s, c, p, supplied)) == Enter(PictureOf(s), c, p.id)
  {
    var s' := JoinCommitted(s, c, p, supplied);
    forall d, id ensures (d, id) in Enter(PictureOf(s), c, p.id).members <==> InRoom(s', id, d) {
      Pictured(s, d, id);
      if d == c {
        AppendedHas(s[c].participants, p, id);
      }
    }
    PicturesAgree(s', Enter(PictureOf(s), c, p.id));
  }

  lemma AppendedHas(ps: seq<Participant>, p: Participant, id: ParticipantId)
    ensures Has(ps + [p], id) <==> Has(ps, id) || p.id == id
  {
    if q :| q in ps && q.id == id {
      assert q in ps + [p];
    }
    assert p in ps + [p];
  }

  /** Joining is decided by the picture alone, and changes it by one pair or not at all. */
  lemma JoinRefines(s: Store, c: RoomCode, p: Participant, supplied: Option<RoomSecret>)
    ensures var a, refusal := PictureOf(s), JoinRefusal(PictureOf(s), c, p.id, supplied);
      var (s', r) := JoinRoom(s, c, p, supplied);
      && (r.Err? ==> refusal == Some(r.error) && s' == s)
      && (r.Ok? ==> refusal == None && PictureOf(s') == Enter(a, c, p.id))
  {
    Pictured(s, c, p.id);
    if CanJoin(s, c, p.id, supplied) {
      EnterRefined(s, c, p, supplied);
    }
  }

  lemma LeaveMembers(s: Store, c: RoomCode, id: ParticipantId, d: RoomCode, x: ParticipantId)
    ensures InRoom(LeaveRoom(s, c, id).0, x, d) <==> InRoom(s, x, d) && (d, x) != (c, id)
  {
    if c in s {
      WithoutMembers(s[c].participants, id);
      if d == c && InRoom(s, x, c) && x != id {
        var q :| q in s[c].participants && q.id == x;
        assert q in Without(s[c].participants, id);
      }
    }
  }

  lemma ExitMembers(s: Store, c: RoomCode, id: ParticipantId)
    requires InRoom(s, id, c)
    ensures PictureOf(LeaveRoom(s, c, id).0).members == PictureOf(s).members - {(c, id)}
  {
    var s' := LeaveRoom(s, c, id).0;
    forall m | true ensures m in PictureOf(s').members <==> m in PictureOf(s).members - {(c, id)} {
      Pictured(s, m.0, m.1);
      Pictured(s', m.0, m.1);
      LeaveMembers(s, c, id, m.0, m.1);
      assert m == (m.0, m.1);
    }
  }

  lemma InhabitedIffNotEmpty(s: Store, c: RoomCode)
    ensures Inhabited(PictureOf(s), c) <==> c in s && s[c].participants != []
  {
    if c in s && s[c].participants != [] {
      assert s[c].participants[0] in s[c].participants;
      assert (c, s[c].participants[0].id) in PictureOf(s).members;
    }
  }

  /** Leaving removes one pair, and the room with its last member; in between, the store is in a
      state where the room is empty, but no caller of the service sees it. */
  lemma LeaveRefines(s: Store, c: RoomCode, id: ParticipantId)
    ensures var a, refusal := PictureOf(s), LeaveRefusal(PictureOf(s), c, id);
      var (s', r) := LeaveRoom(s, c, id);
      && (r.Err? ==> refusal == Some(r.error) && s' == s)
      && (r.Ok? ==> refusal == None && PictureOf(s') == Exit(a, c, id))
  {
    Pictured(s, c, id);
    if InRoom(s, id, c) {
      var s' := LeaveRoom(s, c, id).0;
      ExitMembers(s, c, id);
      InhabitedIffNotEmpty(LeaveCommitted(s, c, id), c);
      var a' := PictureOf(s).(members := PictureOf(s).members - {(c, id)});
      CommittedMembers(s, c, id);
      assert Inhabited(a', c) <==> Without(s[c].participants, id) != [];
      assert PictureOf(s').secrets == Exit(PictureOf(s), c, id).secrets;
    }
  }

  lemma CommittedMembers(s: Store, c: RoomCode, id: ParticipantId)
    requires InRoom(s, id, c)
    ensures PictureOf(LeaveCommitted(s, c, id)).members == PictureOf(s).members - {(c, id)}
  {
    var s' := LeaveCommitted(s, c, id);
    forall m | true ensures m in PictureOf(s').members <==> m in PictureOf(s).members - {(c, id)} {
      Pictured(s, m.0, m.1);
      Pictured(s', m.0, m.1);
      CommittedHas(s, c, id, m.0, m.1);
      assert m == (m.0, m.1);
    }
  }

  lemma CommittedHas(s: Store, c: RoomCode, id: ParticipantId, d: RoomCode, x: ParticipantId)
    requires InRoom(s, id, c)
    ensures InRoom(LeaveCommitted(s, c, id), x, d) <==> InRoom(s, x, d) && (d, x) != (c, id)
  {
    WithoutMembers(s[c].participants, id);
    if d == c && InRoom(s, x, c) && x != id {
      var q :| q in s[c].participants && q.id == x;
      assert q in Without(s[c].participants, id);
    }
  }

  /** A creation adds one room, nobody in it, unless every draw is taken. */
  lemma CreateRefines(s: Store, secret: Option<RoomSecret>, draws: seq<Draw>)
    ensures var (s', r) := CreateRoom(s, secret, draws);
      && (r.Err? ==> s' == s)
      && (r.Ok? ==> r.value !in PictureOf(s).secrets && PictureOf(s') == Open(PictureOf(s), r.value, secret))
  {
    FirstFreeIsFirst(s, draws, 0);
    var (s', r) := CreateRoom(s, secret, draws);
    if r.Ok? {
      var a := Open(PictureOf(s), r.value, secret);
      forall c, id ensures (c, id) in a.members <==> InRoom(s', id, c) {
        Pictured(s, c, id);
      }
      PicturesAgree(s', a);
    }
  }

  /** A whole cleanup is one departure from everything, in whatever order the codes are listed. */
  lemma CleanupRefines(s: Store, codes: seq<RoomCode>, id: ParticipantId)
    requires Enumerates(codes, s)
    ensures PictureOf(LeaveAll(s, codes, id).0) == ExitAll(PictureOf(s), id)
  {
    CleanupIsComplete(s, codes, id);
    var s', a' := Swept(s, id), ExitAll(PictureOf(s), id);
    forall c, x ensures (c, x) in a'.members <==> InRoom(s', x, c) {
      Pictured(s, c, x);
      SweptHas(s, id, c, x);
    }
    forall c ensures c in a'.secrets <==> c in s' {
      Pictured(s, c, id);
      if c in s {
        SweptInhabited(s, id, c);
      }
    }
    PicturesAgree(s', a');
  }

  lemma SweptHas(s: Store, id: ParticipantId, c: RoomCode, x: ParticipantId)
    ensures InRoom(Swept(s, id), x, c) <==> InRoom(s, x, c) && x != id
  {
    if c in s {
      WithoutMembers(s[c].participants, id);
      if InRoom(s, x, c) && x != id {
        var q :| q in s[c].participants && q.id == x;
        assert q in Without(s[c].participants, id);
      }
    }
  }

  lemma SweptInhabited(s: Store, id: ParticipantId, c: RoomCode)
    requires c in s
    ensures Inhabited(PictureOf(s).(members := set m | m in PictureOf(s).members && m.1 != id), c) <==> Without(s[c].participants, id) != []
  {
    WithoutMembers(s[c].participants, id);
    var rest := Without(s[c].participants, id);
    if rest != [] {
      var q := rest[0];
      assert q in rest;
      Pictured(s, c, q.id);
      assert (c, q.id) in PictureOf(s).members;
    }
  }

  // ------------------------------------------------------------------
  // Interleaved threads refine them too
  // ------------------------------------------------------------------

  /** One step of the picture under interleaving, where opening, entering, leaving and discarding an
      uninhabited room are separate; or no step. */
  ghost predicate Next(a: Picture, a': Picture) {
    || a' == a
    || (exists c, secret :: c !in a.secrets && a' == Open(a, c, secret))
    || (exists c, id, supplied :: JoinRefusal(a, c, id, supplied) == None && a' == Enter(a, c, id))
    || (exists m :: m in a.members && a' == a.(members := a.members - {m}))
    || (exists c :: c in a.secrets && !Inhabited(a, c) && a' == a.(secrets := a.secrets - {c}))
  }

  lemma OpenIsNext(s: Store, c: RoomCode, secret: Option<RoomSecret>)
    ensures Next(PictureOf(s), PictureOf(Added(s, c, secret)))
  {
    if c !in s {
      var a := PictureOf(s);
      var a' := Open(a, c, secret);
      forall d, id ensures (d, id) in a'.members <==> InRoom(Added(s, c, secret), id, d) {
        Pictured(s, d, id);
      }
      PicturesAgree(Added(s, c, secret), a');
      assert c !in a.secrets;
    }
  }

  lemma JoinIsNext(s: Store, c: RoomCode, p: Participant, supplied: Option<RoomSecret>)
    ensures Next(PictureOf(s), PictureOf(JoinCommitted(s, c, p, supplied)))
  {
    if CanJoin(s, c, p.id, supplied) {
      EnterRefined(s, c, p, supplied);
      JoinRefines(s, c, p, supplied);
    }
  }

  lemma LeaveIsNext(s: Store, c: RoomCode, id: ParticipantId)
    ensures Next(PictureOf(s), PictureOf(LeaveCommitted(s, c, id)))
  {
    if InRoom(s, id, c) {
      CommittedMembers(s, c, id);
      Pictured(s, c, id);
      assert PictureOf(LeaveCommitted(s, c, id)).secrets == PictureOf(s).secrets;
      assert (c, id) in PictureOf(s).members;
    }
  }

  lemma EraseIsNext(s: Store, c: RoomCode)
    ensures Next(PictureOf(s), PictureOf(ErasedIfEmpty(s, c)))
  {
    if c in s && s[c].participants == [] {
      InhabitedIffNotEmpty(s, c);
      var a' := PictureOf(s).(secrets := PictureOf(s).secrets - {c});
      forall d, id ensures (d, id) in a'.members <==> InRoom(ErasedIfEmpty(s, c), id, d) {
        Pictured(s, d, id);
      }
      PicturesAgree(ErasedIfEmpty(s, c), a');
      assert c in PictureOf(s).secrets;
    }
  }

  lemma EveryCallIsOneStepOrNone(s: Interleaving.State, l: Interleaving.Label)
    requires Interleaving.Enabled(s, l)
    ensures Next(PictureOf(s.store), PictureOf(Interleaving.Step(s, l).store))
  {
    hide Next, PictureOf;
    assert Next(PictureOf(s.store), PictureOf(s.store)) by {
      StandingStill(PictureOf(s.store));
    }
    if l.Tick? {
      match s.pcs[l.t]
      case Creating(_, secret, _) => OpenIsNext(s.store, FormatCode(l.draw), secret);
      case CreatorJoining(code, p, secret) => JoinIsNext(s.store, code, p, secret);
      case Joining(code, p, supplied) => JoinIsNext(s.store, code, p, supplied);
      case Leaving(code, id) => LeaveIsNext(s.store, code, id);
      case Erasing(code) => EraseIsNext(s.store, code);
      case Listing(_) =>
      case Sweeping(id, todo, _, _) =>
        if todo != [] {
          LeaveIsNext(s.store, todo[0], id);
        }
      case SweepErasing(_, todo, _, _) => EraseIsNext(s.store, todo[0]);
    }
  }

  lemma StandingStill(a: Picture)
    ensures Next(a, a)
  {
  }
}
