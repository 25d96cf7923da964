/** Any number of threads calling the room service at once. Only single repository calls are atomic
    (each runs under the repository's mutex), so other threads' calls can come between the calls of
    one use case. */
module Interleaving {
  import opened Domain
  import opened RoomCodes
  import opened RoomStore

  type Thread = nat

  /** Where a thread is: which repository call it makes next, and what it remembers. The operations
      are not tied to one participant: several threads may act for the same one. A sweep collects in
      `left` what it will report; `start` only records the rooms that held the participant when the
      codes were listed. */
  datatype Pc =
    | Creating(p: Participant, secret: Option<RoomSecret>, attempt: nat)
    | CreatorJoining(code: RoomCode, p: Participant, secret: Option<RoomSecret>)
    | Joining(code: RoomCode, p: Participant, supplied: Option<RoomSecret>)
    | Leaving(code: RoomCode, id: ParticipantId)
    | Erasing(code: RoomCode)
    | Listing(id: ParticipantId)
    | Sweeping(id: ParticipantId, todo: seq<RoomCode>, left: seq<LeftRoom>, start: set<RoomCode>)
    | SweepErasing(id: ParticipantId, todo: seq<RoomCode>, left: seq<LeftRoom>, start: set<RoomCode>)
    | SweepDone(id: ParticipantId, left: seq<LeftRoom>, start: set<RoomCode>)

  datatype State = State(store: Store, pcs: map<Thread, Pc>)

  /** A thread enters a use case, makes its next repository call, or looks at a finished sweep. */
  datatype Label =
    | Begin(t: Thread, pc: Pc)
    | Tick(t: Thread, draw: Draw, order: seq<RoomCode>)

  predicate IsEntry(pc: Pc) {
    (pc.Creating? && pc.attempt == 0) || pc.Joining? || pc.Leaving? || pc.Listing?
  }

  ghost predicate Enabled(s: State, l: Label) {
    match l
    case Begin(t, pc) => (t !in s.pcs || s.pcs[t].SweepDone?) && IsEntry(pc)
    case Tick(t, _, order) =>
      && t in s.pcs
      && !s.pcs[t].SweepDone?
      && (s.pcs[t].Listing? ==> Enumerates(order, s.store))
      && (s.pcs[t].SweepErasing? ==> s.pcs[t].todo != [])
  }

  function RoomsOf(s: Store, id: ParticipantId): set<RoomCode> {
    set c | c in s && Has(s[c].participants, id)
  }

  function Goes(s: State, t: Thread, pc: Pc): State {
    s.(pcs := s.pcs[t := pc])
  }

  function Ends(s: State, t: Thread): State {
    s.(pcs := s.pcs - {t})
  }

  ghost function Step(s: State, l: Label): State
    requires Enabled(s, l)
  {
    match l
    case Begin(t, pc) => Goes(s, t, pc)
    case Tick(t, draw, order) =>
      match s.pcs[t]
      case Creating(p, secret, attempt) =>
        var code := FormatCode(draw);
        if code !in s.store then Goes(s.(store := Added(s.store, code, secret)), t, CreatorJoining(code, p, secret))
        else if attempt + 1 < MAX_ATTEMPTS then Goes(s, t, Creating(p, secret, attempt + 1))
        else Ends(s, t)
      case CreatorJoining(code, p, secret) => Ends(s.(store := JoinCommitted(s.store, code, p, secret)), t)
      case Joining(code, p, supplied) => Ends(s.(store := JoinCommitted(s.store, code, p, supplied)), t)
      case Leaving(code, id) =>
        if InRoom(s.store, id, code)
        then Goes(s.(store := LeaveCommitted(s.store, code, id)), t, Erasing(code))
        else Ends(s, t)
      case Erasing(code) => Ends(s.(store := ErasedIfEmpty(s.store, code)), t)
      case Listing(id) => Goes(s, t, Sweeping(id, order, [], RoomsOf(s.store, id)))
      case Sweeping(id, todo, left, start) =>
        if todo == [] then Goes(s, t, SweepDone(id, left, start))
        else if InRoom(s.store, id, todo[0])
        then
          var store := LeaveCommitted(s.store, todo[0], id);
          var report := LeftRoom(todo[0], id, store[todo[0]].participants);
          Goes(s.(store := store), t, SweepErasing(id, todo, left + [report], start))
        else Goes(s, t, Sweeping(id, todo[1..], left, start))
      case SweepErasing(id, todo, left, start) =>
        Goes(s.(store := ErasedIfEmpty(s.store, todo[0])), t, Sweeping(id, todo[1..], left, start))
  }

  /** `ls` can be run from `s`, and leads to `Exec(s, ls)`. */
  ghost predicate Runs(s: State, ls: seq<Label>)
    decreases |ls|
  {
    ls == [] || (Enabled(s, ls[0]) && Runs(Step(s, ls[0]), ls[1..]))
  }

  ghost function Exec(s: State, ls: seq<Label>): State
    requires Runs(s, ls)
    decreases |ls|
  {
    if ls == [] then s else Exec(Step(s, ls[0]), ls[1..])
  }

  const START := State(map[], map[])

  lemma RunsOn(s: State, l: Label, rest: seq<Label>)
    requires Enabled(s, l) && Runs(Step(s, l), rest)
    ensures Runs(s, [l] + rest) && Exec(s, [l] + rest) == Exec(Step(s, l), rest)
  {
    assert ([l] + rest)[1..] == rest;
  }

  lemma {:induction false} RunsConcat(s: State, a: seq<Label>, b: seq<Label>)
    requires Runs(s, a) && Runs(Exec(s, a), b)
    ensures Runs(s, a + b) && Exec(s, a + b) == Exec(Exec(s, a), b)
    decreases |a|
  {
    if a == [] {
      assert a + b == b;
    } else {
      RunsConcat(Step(s, a[0]), a[1..], b);
      RunsOn(s, a[0], a[1..] + b);
      assert [a[0]] + (a[1..] + b) == a + b;
    }
  }

  ghost predicate Leads(s: State, ls: seq<Label>, s': State) {
    Runs(s, ls) && Exec(s, ls) == s'
  }

  lemma LeadsOn(s: State, a: seq<Label>, s1: State, b: seq<Label>, s2: State)
    requires Leads(s, a, s1) && Leads(s1, b, s2)
    ensures Leads(s, a + b, s2)
  {
    RunsConcat(s, a, b);
  }

  lemma OneCall(s: State, l: Label)
    requires Enabled(s, l)
    ensures Leads(s, [l], Step(s, l))
  {
    RunsOn(s, l, []);
    assert [l] + [] == [l];
  }

  lemma TwoCalls(s: State, l: Label, m: Label)
    requires Enabled(s, l) && Enabled(Step(s, l), m)
    ensures Leads(s, [l, m], Step(Step(s, l), m))
  {
    OneCall(Step(s, l), m);
    RunsOn(s, l, [m]);
    assert [l] + [m] == [l, m];
  }

  lemma LeadsWhere(s: State, ls: seq<Label>, s': State)
    requires Leads(s, ls, s')
    ensures Runs(s, ls) && Exec(s, ls) == s'
  {
  }

  // ------------------------------------------------------------------
  // No leaked rooms
  // ------------------------------------------------------------------

  /** Thread `t` is about to make a call that settles room `c` if it is empty: a conditional erase,
      or the join of the one who created it with the very secret it has. */
  predicate Settles(s: State, t: Thread, c: RoomCode)
    requires c in s.store
  {
    && t in s.pcs
    && match s.pcs[t]
       case Erasing(code) => code == c
       case SweepErasing(_, todo, _, _) => todo != [] && todo[0] == c
       case CreatorJoining(code, _, secret) => code == c && secret == s.store[c].secret
       case _ => false
  }

  ghost predicate NoLeaks(s: State) {
    && WellFormed(s.store)
    && (forall t :: t in s.pcs && s.pcs[t].SweepErasing? ==> s.pcs[t].todo != [])
    && (forall c :: c in s.store && s.store[c].participants == [] ==> exists t :: Settles(s, t, c))
  }

  /** The room a thread's next call is about, if any. */
  function Subject(pc: Pc, draw: Draw): Option<RoomCode> {
    match pc
    case Creating(_, _, _) => Some(FormatCode(draw))
    case CreatorJoining(code, _, _) => Some(code)
    case Joining(code, _, _) => Some(code)
    case Leaving(code, _) => Some(code)
    case Erasing(code) => Some(code)
    case Sweeping(_, todo, _, _) => if todo == [] then None else Some(todo[0])
    case SweepErasing(_, todo, _, _) => if todo == [] then None else Some(todo[0])
    case _ => None
  }

  lemma TickTouchesItsSubject(s: State, t: Thread, draw: Draw, order: seq<RoomCode>, c: RoomCode)
    requires Enabled(s, Tick(t, draw, order))
    requires Subject(s.pcs[t], draw) != Some(c)
    ensures SameAt(Step(s, Tick(t, draw, order)).store, s.store, c)
  {
  }

  lemma StepKeepsWellFormed(s: State, l: Label)
    requires WellFormed(s.store) && Enabled(s, l)
    ensures WellFormed(Step(s, l).store)
  {
    hide WellFormed;
    if l.Tick? {
      match s.pcs[l.t]
      case Creating(p, secret, _) => AtomicOperationsKeepWellFormed(s.store, l.draw, secret, "", p);
      case CreatorJoining(code, p, secret) => AtomicOperationsKeepWellFormed(s.store, 0, secret, code, p);
      case Joining(code, p, supplied) => AtomicOperationsKeepWellFormed(s.store, 0, supplied, code, p);
      case Leaving(code, id) => AtomicOperationsKeepWellFormed(s.store, 0, None, code, Participant(id, ""));
      case Erasing(code) => AtomicOperationsKeepWellFormed(s.store, 0, None, code, Participant("", ""));
      case Listing(_) =>
      case Sweeping(id, todo, _, _) =>
        if todo != [] {
          AtomicOperationsKeepWellFormed(s.store, 0, None, todo[0], Participant(id, ""));
        }
      case SweepErasing(id, todo, _, _) => AtomicOperationsKeepWellFormed(s.store, 0, None, todo[0], Participant(id, ""));
    }
  }

  /** A thread that settles a room does so with its next call, whatever the others do meanwhile: the
      room is gone or inhabited afterwards. */
  lemma SettlingWorks(s: State, t: Thread, draw: Draw, order: seq<RoomCode>, c: RoomCode)
    requires c in s.store && Settles(s, t, c) && Enabled(s, Tick(t, draw, order))
    ensures var s' := Step(s, Tick(t, draw, order)); c !in s'.store || s'.store[c].participants != []
  {
    var room := s.store[c];
    if s.pcs[t].CreatorJoining? && room.participants == [] {
      assert JoinVerdict(room, s.pcs[t].p.id, s.pcs[t].secret) == Joined;
    }
  }

  /** A room that a thread's own call leaves empty is one that this thread goes on to settle, or
      that was empty before and that this thread did not settle. */
  lemma EmptiedRoomIsSettled(s: State, t: Thread, draw: Draw, order: seq<RoomCode>, c: RoomCode)
    requires Enabled(s, Tick(t, draw, order))
    requires var s' := Step(s, Tick(t, draw, order)); c in s'.store && s'.store[c].participants == []
    ensures var s' := Step(s, Tick(t, draw, order));
      || Settles(s', t, c)
      || (c in s.store && s.store[c].participants == [] && s'.store[c].secret == s.store[c].secret && !Settles(s, t, c))
  {
    if c in s.store && Settles(s, t, c) {
      SettlingWorks(s, t, draw, order, c);
    }
    if Subject(s.pcs[t], draw) != Some(c) {
      TickTouchesItsSubject(s, t, draw, order, c);
    }
  }

  lemma OthersStillSettle(s: State, t: Thread, draw: Draw, order: seq<RoomCode>, u: Thread, c: RoomCode)
    requires Enabled(s, Tick(t, draw, order)) && u != t
    requires c in s.store && Settles(s, u, c)
    requires var s' := Step(s, Tick(t, draw, order)); c in s'.store && s'.store[c].secret == s.store[c].secret
    ensures Settles(Step(s, Tick(t, draw, order)), u, c)
  {
  }

  lemma StepLeaksNothing(s: State, l: Label)
    requires NoLeaks(s) && Enabled(s, l)
    ensures NoLeaks(Step(s, l))
  {
    var s' := Step(s, l);
    StepKeepsWellFormed(s, l);
    forall c | c in s'.store && s'.store[c].participants == []
      ensures exists t :: Settles(s', t, c)
    {
      if l.Begin? {
        var u :| Settles(s, u, c);
        assert Settles(s', u, c);
      } else {
        EmptiedRoomIsSettled(s, l.t, l.draw, l.order, c);
        if !Settles(s', l.t, c) {
          var u :| Settles(s, u, c);
          OthersStillSettle(s, l.t, l.draw, l.order, u, c);
        }
      }
    }
  }

  lemma {:induction false} RunLeaksNothing(s: State, ls: seq<Label>)
    requires NoLeaks(s) && Runs(s, ls)
    ensures NoLeaks(Exec(s, ls))
    decreases |ls|
  {
    if ls != [] {
      StepLeaksNothing(s, ls[0]);
      RunLeaksNothing(Step(s, ls[0]), ls[1..]);
    }
  }

  ghost predicate Quiescent(s: State) {
    forall t :: t in s.pcs ==> s.pcs[t].SweepDone?
  }

  /** However threads interleave: every empty room has a thread whose next call settles it, and when
      nothing is in flight there is no empty room. */
  lemma NoLeakedEmptyRooms(ls: seq<Label>)
    requires Runs(START, ls)
    ensures var s := Exec(START, ls);
      && WellFormed(s.store)
      && |s.store| <= 1_000_000
      && (forall c :: c in s.store && s.store[c].participants == [] ==> exists t :: Settles(s, t, c))
      && (Quiescent(s) ==> NoEmptyRooms(s.store))
  {
    RunLeaksNothing(START, ls);
    var s := Exec(START, ls);
    CodeSpaceBound(s.store.Keys);
    if Quiescent(s) {
      forall c, t | c in s.store ensures !Settles(s, t, c) {
      }
    }
  }

  // ------------------------------------------------------------------
  // No lost joins
  // ------------------------------------------------------------------

  /** This step takes `id` out of room `c`. */
  predicate CommitsLeave(s: State, l: Label, c: RoomCode, id: ParticipantId) {
    && l.Tick?
    && l.t in s.pcs
    && (|| s.pcs[l.t] == Leaving(c, id)
        || (s.pcs[l.t].Sweeping? && s.pcs[l.t].id == id && s.pcs[l.t].todo != [] && s.pcs[l.t].todo[0] == c))
    && InRoom(s.store, id, c)
  }

  ghost predicate NeverLeaves(s: State, ls: seq<Label>, c: RoomCode, id: ParticipantId)
    requires Runs(s, ls)
    decreases |ls|
  {
    ls == [] || (!CommitsLeave(s, ls[0], c, id) && NeverLeaves(Step(s, ls[0]), ls[1..], c, id))
  }

  /** `id` is still in the same room, and nobody has got ahead of it there. */
  ghost predicate StillIn(s: Store, s': Store, c: RoomCode, id: ParticipantId) {
    && InRoom(s, id, c)
    && InRoom(s', id, c)
    && s'[c].secret == s[c].secret
    && forall q :: q in Ahead(s'[c].participants, id) ==> q in Ahead(s[c].participants, id)
  }

  lemma AtomicCallsKeepOthersIn(s: Store, c: RoomCode, id: ParticipantId, d: RoomCode, p: Participant,
      supplied: Option<RoomSecret>)
    requires InRoom(s, id, c)
    ensures StillIn(s, JoinCommitted(s, d, p, supplied), c, id)
    ensures StillIn(s, Added(s, d, supplied), c, id)
    ensures StillIn(s, ErasedIfEmpty(s, d), c, id)
    ensures !(d == c && p.id == id) ==> StillIn(s, LeaveCommitted(s, d, p.id), c, id)
  {
    AppendKeepsMember(s[c].participants, p, id);
    if p.id != id {
      WithoutKeepsMember(s[c].participants, p.id, id);
    }
  }

  lemma AppendKeepsMember(ps: seq<Participant>, p: Participant, id: ParticipantId)
    requires Has(ps, id)
    ensures Has(ps + [p], id) && Ahead(ps + [p], id) == Ahead(ps, id)
  {
    AheadOfAppended(ps, p, id);
    var q :| q in ps && q.id == id;
    assert q in ps + [p];
  }

  lemma WithoutKeepsMember(ps: seq<Participant>, other: ParticipantId, id: ParticipantId)
    requires Has(ps, id) && other != id
    ensures Has(Without(ps, other), id)
    ensures forall q :: q in Ahead(Without(ps, other), id) ==> q in Ahead(ps, id)
  {
    WithoutMembers(ps, other);
    AheadWithout(ps, other, id);
    WithoutMembers(Ahead(ps, id), other);
    var q :| q in ps && q.id == id;
    assert q in Without(ps, other);
  }

  lemma StepLosesNoJoin(s: State, l: Label, c: RoomCode, id: ParticipantId)
    requires Enabled(s, l) && InRoom(s.store, id, c) && !CommitsLeave(s, l, c, id)
    ensures StillIn(s.store, Step(s, l).store, c, id)
  {
    hide StillIn, Has;
    assert StillIn(s.store, s.store, c, id) by {
      StillInItself(s.store, c, id);
    }
    if l.Tick? {
      match s.pcs[l.t]
      case Creating(p, secret, _) => AtomicCallsKeepOthersIn(s.store, c, id, FormatCode(l.draw), p, secret);
      case CreatorJoining(code, p, secret) => AtomicCallsKeepOthersIn(s.store, c, id, code, p, secret);
      case Joining(code, p, supplied) => AtomicCallsKeepOthersIn(s.store, c, id, code, p, supplied);
      case Leaving(code, who) => AtomicCallsKeepOthersIn(s.store, c, id, code, Participant(who, ""), None);
      case Erasing(code) => AtomicCallsKeepOthersIn(s.store, c, id, code, Participant("", ""), None);
      case Listing(_) =>
      case Sweeping(who, todo, _, _) =>
        if todo != [] {
          AtomicCallsKeepOthersIn(s.store, c, id, todo[0], Participant(who, ""), None);
        }
      case SweepErasing(who, todo, _, _) =>
        AtomicCallsKeepOthersIn(s.store, c, id, todo[0], Participant(who, ""), None);
    }
  }

  lemma StillInItself(s: Store, c: RoomCode, id: ParticipantId)
    requires InRoom(s, id, c)
    ensures StillIn(s, s, c, id)
  {
  }

  lemma StillInComposes(s: Store, s1: Store, s2: Store, c: RoomCode, id: ParticipantId)
    requires StillIn(s, s1, c, id) && StillIn(s1, s2, c, id)
    ensures StillIn(s, s2, c, id)
  {
  }

  /** However threads interleave: a participant that is in a room stays in that very room, and keeps
      its seniority there, until a leave of that participant from that room commits. Stale erases and
      colliding creations cannot touch it. */
  lemma {:induction false} NoLostJoins(s: State, ls: seq<Label>, c: RoomCode, id: ParticipantId)
    requires Runs(s, ls) && InRoom(s.store, id, c) && NeverLeaves(s, ls, c, id)
    ensures StillIn(s.store, Exec(s, ls).store, c, id)
    decreases |ls|
  {
    if ls == [] {
      StillInItself(s.store, c, id);
    } else {
      StepLosesNoJoin(s, ls[0], c, id);
      NoLostJoins(Step(s, ls[0]), ls[1..], c, id);
      StillInComposes(s.store, Step(s, ls[0]).store, Exec(s, ls).store, c, id);
    }
  }

  /** This step erases room `c`. */
  predicate Erases(s: State, l: Label, c: RoomCode) {
    && l.Tick?
    && l.t in s.pcs
    && (|| s.pcs[l.t] == Erasing(c)
        || (s.pcs[l.t].SweepErasing? && s.pcs[l.t].todo != [] && s.pcs[l.t].todo[0] == c))
    && c in s.store && s.store[c].participants == []
  }

  /** This step opens a room with code `c`. */
  predicate Opens(s: State, l: Label, c: RoomCode) {
    && l.Tick?
    && l.t in s.pcs
    && s.pcs[l.t].Creating?
    && FormatCode(l.draw) == c
    && c !in s.store
  }

  /** Room `c` of `s` is the same incarnation throughout the run. */
  ghost predicate Undisturbed(s: State, ls: seq<Label>, c: RoomCode)
    requires Runs(s, ls)
    decreases |ls|
  {
    ls == [] || (!Erases(s, ls[0], c) && !Opens(s, ls[0], c) && Undisturbed(Step(s, ls[0]), ls[1..], c))
  }

  lemma {:induction false} InhabitedIsUndisturbed(s: State, ls: seq<Label>, c: RoomCode, id: ParticipantId)
    requires Runs(s, ls) && InRoom(s.store, id, c) && NeverLeaves(s, ls, c, id)
    ensures Undisturbed(s, ls, c)
    decreases |ls|
  {
    if ls != [] {
      StepLosesNoJoin(s, ls[0], c, id);
      InhabitedIsUndisturbed(Step(s, ls[0]), ls[1..], c, id);
    }
  }

  /** Once a join commits, its participant is in the room it was admitted to, in that incarnation and
      behind nobody but those it found there, however the run goes on, until it leaves. */
  lemma CommittedJoinStays(s: State, l: Label, ls: seq<Label>, c: RoomCode, p: Participant, supplied: Option<RoomSecret>)
    requires Enabled(s, l) && l.Tick?
    requires s.pcs[l.t] == Joining(c, p, supplied) || s.pcs[l.t] == CreatorJoining(c, p, supplied)
    requires CanJoin(s.store, c, p.id, supplied)
    requires Runs(Step(s, l), ls) && NeverLeaves(Step(s, l), ls, c, p.id)
    ensures var s' := Exec(Step(s, l), ls);
      && InRoom(s'.store, p.id, c)
      && s'.store[c].secret == s.store[c].secret && Admits(s'.store[c].secret, supplied)
      && (forall q :: q in Ahead(s'.store[c].participants, p.id) ==> q in s.store[c].participants)
    ensures Undisturbed(Step(s, l), ls, c)
  {
    var s1 := Step(s, l);
    assert p in s1.store[c].participants;
    NoLostJoins(s1, ls, c, p.id);
    InhabitedIsUndisturbed(s1, ls, c, p.id);
    AheadOfLast(s.store[c].participants, p);
  }

  lemma {:induction false} AheadOfLast(ps: seq<Participant>, p: Participant)
    requires !Has(ps, p.id)
    ensures Ahead(ps + [p], p.id) == ps
  {
    if ps != [] {
      assert ps[0] in ps;
      assert (ps + [p])[1..] == ps[1..] + [p];
      AheadOfLast(ps[1..], p);
    }
  }

  // ------------------------------------------------------------------
  // No leave is undone
  // ------------------------------------------------------------------

  /** No thread's call of this run puts `id` into room `c`. */
  ghost predicate NobodyJoinsAs(s: State, ls: seq<Label>, c: RoomCode, id: ParticipantId)
    requires Runs(s, ls)
    decreases |ls|
  {
    ls == [] || (!JoinsAs(s, ls[0], c, id) && NobodyJoinsAs(Step(s, ls[0]), ls[1..], c, id))
  }

  predicate JoinsAs(s: State, l: Label, c: RoomCode, id: ParticipantId) {
    && l.Tick?
    && l.t in s.pcs
    && (s.pcs[l.t].Joining? || s.pcs[l.t].CreatorJoining?)
    && s.pcs[l.t].code == c
    && s.pcs[l.t].p.id == id
  }

  lemma StepKeepsOut(s: State, l: Label, c: RoomCode, id: ParticipantId)
    requires Enabled(s, l) && !InRoom(s.store, id, c) && !JoinsAs(s, l, c, id)
    ensures !InRoom(Step(s, l).store, id, c)
  {
    if l.Tick? {
      if Subject(s.pcs[l.t], l.draw) != Some(c) {
        TickTouchesItsSubject(s, l.t, l.draw, l.order, c);
      } else if c in s.store {
        OutsidersStayOut(s.store[c].participants, s.pcs[l.t], id);
      }
    }
  }

  lemma OutsidersStayOut(ps: seq<Participant>, pc: Pc, id: ParticipantId)
    requires !Has(ps, id)
    ensures (pc.Joining? || pc.CreatorJoining?) && pc.p.id != id ==> !Has(ps + [pc.p], id)
    ensures pc.Leaving? || pc.Sweeping? ==> !Has(Without(ps, pc.id), id)
  {
    if pc.Leaving? || pc.Sweeping? {
      WithoutMembers(ps, pc.id);
    }
  }

  lemma {:induction false} RunKeepsOut(s: State, ls: seq<Label>, c: RoomCode, id: ParticipantId)
    requires Runs(s, ls) && !InRoom(s.store, id, c) && NobodyJoinsAs(s, ls, c, id)
    ensures !InRoom(Exec(s, ls).store, id, c)
    decreases |ls|
  {
    if ls != [] {
      StepKeepsOut(s, ls[0], c, id);
      RunKeepsOut(Step(s, ls[0]), ls[1..], c, id);
    }
  }

  /** Once a leave has been called, whether or not it found its participant, the participant is not in
      the room, however the run goes on, until somebody joins as it; and nobody else is moved. */
  lemma CommittedLeaveStays(s: State, l: Label, ls: seq<Label>, c: RoomCode, id: ParticipantId)
    requires Enabled(s, l) && l.Tick? && s.pcs[l.t] == Leaving(c, id)
    requires Runs(Step(s, l), ls) && NobodyJoinsAs(Step(s, l), ls, c, id)
    ensures !InRoom(Exec(Step(s, l), ls).store, id, c)
    ensures Members(Step(s, l).store, c) == Without(Members(s.store, c), id)
    ensures InRoom(s.store, id, c) <==> l.t in Step(s, l).pcs
    ensures l.t in Step(s, l).pcs ==> Step(s, l).pcs[l.t] == Erasing(c)
  {
    if c in s.store {
      WithoutMembers(s.store[c].participants, id);
      if !Has(s.store[c].participants, id) {
        WithoutAbsent(s.store[c].participants, id);
      }
    }
    RunKeepsOut(Step(s, l), ls, c, id);
  }
}
