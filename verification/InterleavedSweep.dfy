/** Disconnect cleanup while other threads keep calling the room service. */
module InterleavedSweep {
  import opened Domain
  import opened RoomCodes
  import opened RoomStore
  import opened Interleaving

  function Elements(codes: seq<RoomCode>): set<RoomCode> {
    set c | c in codes
  }

  function CodesLeft(left: seq<LeftRoom>): set<RoomCode> {
    set d | d in left :: d.code
  }

  ghost predicate EachOnce(left: seq<LeftRoom>) {
    forall i, j :: 0 <= i < j < |left| ==> left[i].code != left[j].code
  }

  /** A call by which membership of `id` can change. */
  predicate ActsFor(pc: Pc, id: ParticipantId) {
    match pc
    case CreatorJoining(_, p, _) => p.id == id
    case Joining(_, p, _) => p.id == id
    case Leaving(_, who) => who == id
    case Sweeping(who, _, _, _) => who == id
    case _ => false
  }

  /** Nobody but thread `t` makes a call for `id`, and `t` does nothing else. */
  ghost predicate Alone(s: State, l: Label, t: Thread, id: ParticipantId) {
    match l
    case Begin(u, _) => u != t
    case Tick(u, _, _) => u == t || (u in s.pcs ==> !ActsFor(s.pcs[u], id))
  }

  ghost predicate AloneThroughout(s: State, ls: seq<Label>, t: Thread, id: ParticipantId)
    requires Runs(s, ls)
    decreases |ls|
  {
    ls == [] || (Alone(s, ls[0], t, id) && AloneThroughout(Step(s, ls[0]), ls[1..], t, id))
  }

  /** What a sweep has done and what it still has to do add up to the rooms it started with. */
  ghost predicate OnTrack(s: State, t: Thread, id: ParticipantId, start: set<RoomCode>) {
    && t in s.pcs
    && var now := RoomsOf(s.store, id);
    match s.pcs[t]
    case Sweeping(who, todo, left, from) =>
      && who == id && from == start
      && Distinct(todo) && EachOnce(left) && CodesLeft(left) !! Elements(todo)
      && now <= Elements(todo)
      && now + CodesLeft(left) == start
    case SweepErasing(who, todo, left, from) =>
      && who == id && from == start
      && todo != [] && Distinct(todo) && EachOnce(left) && CodesLeft(left) !! Elements(todo[1..])
      && now <= Elements(todo[1..])
      && now + CodesLeft(left) == start
    case SweepDone(who, left, from) =>
      && who == id && from == start
      && EachOnce(left)
      && now == {}
      && CodesLeft(left) == start
    case _ => false
  }

  lemma ElementsSplit(codes: seq<RoomCode>)
    requires codes != []
    ensures Elements(codes) == {codes[0]} + Elements(codes[1..])
    ensures Distinct(codes) ==> codes[0] !in Elements(codes[1..]) && Distinct(codes[1..])
  {
    assert codes == [codes[0]] + codes[1..];
  }

  lemma ReportAppended(left: seq<LeftRoom>, d: LeftRoom)
    ensures CodesLeft(left + [d]) == CodesLeft(left) + {d.code}
    ensures EachOnce(left) && d.code !in CodesLeft(left) ==> EachOnce(left + [d])
  {
    assert forall e :: e in left + [d] <==> e in left || e == d;
    if EachOnce(left) && d.code !in CodesLeft(left) {
      assert forall i :: 0 <= i < |left| ==> left[i] in left && left[i].code in CodesLeft(left);
    }
  }

  lemma LeavingChangesOneRoom(s: Store, c: RoomCode, id: ParticipantId)
    ensures RoomsOf(LeaveCommitted(s, c, id), id) == RoomsOf(s, id) - {c}
  {
    if c in s {
      WithoutMembers(s[c].participants, id);
    }
  }

  lemma ErasingChangesNoMember(s: Store, c: RoomCode, id: ParticipantId)
    ensures RoomsOf(ErasedIfEmpty(s, c), id) == RoomsOf(s, id)
  {
  }

  /** Calls for other participants neither add nor remove `id`. */
  lemma CallsForOthers(s: Store, c: RoomCode, p: Participant, supplied: Option<RoomSecret>, id: ParticipantId)
    requires p.id != id
    ensures RoomsOf(JoinCommitted(s, c, p, supplied), id) == RoomsOf(s, id)
    ensures RoomsOf(LeaveCommitted(s, c, p.id), id) == RoomsOf(s, id)
  {
    if c in s {
      WithoutMembers(s[c].participants, p.id);
      forall ps: seq<Participant> ensures Has(ps + [p], id) <==> Has(ps, id) {
        if q :| q in ps && q.id == id {
          assert q in ps + [p];
        }
      }
      if q :| q in s[c].participants && q.id == id {
        assert q in Without(s[c].participants, p.id);
      }
    }
  }

  lemma AddingChangesNoMember(s: Store, c: RoomCode, secret: Option<RoomSecret>, id: ParticipantId)
    ensures RoomsOf(Added(s, c, secret), id) == RoomsOf(s, id)
  {
  }

  lemma OthersStepKeepsRooms(s: State, l: Label, t: Thread, id: ParticipantId)
    requires Enabled(s, l) && Alone(s, l, t, id) && l.t != t
    ensures RoomsOf(Step(s, l).store, id) == RoomsOf(s.store, id)
    ensures t in s.pcs ==> t in Step(s, l).pcs && Step(s, l).pcs[t] == s.pcs[t]
  {
    hide RoomsOf;
    if l.Tick? {
      match s.pcs[l.t]
      case Creating(_, secret, _) => AddingChangesNoMember(s.store, FormatCode(l.draw), secret, id);
      case CreatorJoining(code, p, secret) => CallsForOthers(s.store, code, p, secret, id);
      case Joining(code, p, supplied) => CallsForOthers(s.store, code, p, supplied, id);
      case Leaving(code, who) => CallsForOthers(s.store, code, Participant(who, ""), None, id);
      case Erasing(code) => ErasingChangesNoMember(s.store, code, id);
      case Listing(_) =>
      case Sweeping(who, todo, _, _) =>
        if todo != [] {
          CallsForOthers(s.store, todo[0], Participant(who, ""), None, id);
        }
      case SweepErasing(_, todo, _, _) => ErasingChangesNoMember(s.store, todo[0], id);
    }
  }

  lemma OwnStepStaysOnTrack(s: State, l: Label, t: Thread, id: ParticipantId, start: set<RoomCode>)
    requires Enabled(s, l) && l.Tick? && l.t == t && OnTrack(s, t, id, start)
    ensures OnTrack(Step(s, l), t, id, start)
  {
    hide RoomsOf, Elements, Distinct, CodesLeft, EachOnce;
    match s.pcs[t]
    case Sweeping(_, todo, left, _) =>
      if todo == [] {
        NoElements();
      } else {
        ElementsSplit(todo);
        LeavingChangesOneRoom(s.store, todo[0], id);
        InRoomsOf(s.store, todo[0], id);
        if InRoom(s.store, id, todo[0]) {
          ReportAppended(left, LeftRoom(todo[0], id, LeaveCommitted(s.store, todo[0], id)[todo[0]].participants));
        }
      }
    case SweepErasing(_, todo, left, _) =>
      ElementsSplit(todo);
      ErasingChangesNoMember(s.store, todo[0], id);
  }

  lemma NoElements()
    ensures Elements([]) == {}
  {
  }

  lemma InRoomsOf(s: Store, c: RoomCode, id: ParticipantId)
    ensures c in RoomsOf(s, id) <==> InRoom(s, id, c)
  {
  }

  lemma {:induction false} RunStaysOnTrack(s: State, ls: seq<Label>, t: Thread, id: ParticipantId, start: set<RoomCode>)
    requires Runs(s, ls) && AloneThroughout(s, ls, t, id) && OnTrack(s, t, id, start)
    ensures OnTrack(Exec(s, ls), t, id, start)
    decreases |ls|
  {
    if ls != [] {
      if ls[0].t == t {
        OwnStepStaysOnTrack(s, ls[0], t, id, start);
      } else {
        OthersStepKeepsRooms(s, ls[0], t, id);
      }
      RunStaysOnTrack(Step(s, ls[0]), ls[1..], t, id, start);
    }
  }

  lemma ListingIsOnTrack(s: State, l: Label, id: ParticipantId)
    requires Enabled(s, l) && l.Tick? && s.pcs[l.t] == Listing(id)
    ensures OnTrack(Step(s, l), l.t, id, RoomsOf(s.store, id))
  {
  }

  /** During the run, thread `t` committed the leave that `d` reports, and `d` lists who was then left. */
  ghost predicate CommittedDuring(s: State, ls: seq<Label>, t: Thread, d: LeftRoom)
    requires Runs(s, ls)
    decreases |ls|
  {
    ls != [] &&
    (|| (ls[0].t == t && CommitsLeave(s, ls[0], d.code, d.id) && d.remaining == Members(Step(s, ls[0]).store, d.code))
     || CommittedDuring(Step(s, ls[0]), ls[1..], t, d))
  }

  function Reports(s: State, t: Thread): seq<LeftRoom> {
    if t in s.pcs && (s.pcs[t].Sweeping? || s.pcs[t].SweepErasing? || s.pcs[t].SweepDone?) then s.pcs[t].left else []
  }

  lemma {:induction false} ReportsAreCommitted(s: State, ls: seq<Label>, t: Thread, d: LeftRoom)
    requires Runs(s, ls) && d in Reports(Exec(s, ls), t)
    ensures d in Reports(s, t) || CommittedDuring(s, ls, t, d)
    decreases |ls|
  {
    if ls != [] {
      ReportsAreCommitted(Step(s, ls[0]), ls[1..], t, d);
    }
  }

  /** A sweep that ran to its end while other threads did anything whatsoever for other participants:
      it reports exactly the rooms that held `id` when the codes were listed, each once and each with
      those who stayed behind when the leave committed, and `id` is in no room. */
  lemma InterleavedCleanupIsComplete(s: State, l: Label, ls: seq<Label>, id: ParticipantId)
    requires Enabled(s, l) && l.Tick? && s.pcs[l.t] == Listing(id)
    requires Runs(Step(s, l), ls) && AloneThroughout(Step(s, l), ls, l.t, id)
    requires l.t in Exec(Step(s, l), ls).pcs && Exec(Step(s, l), ls).pcs[l.t].SweepDone?
    ensures var s' := Exec(Step(s, l), ls);
      && (forall c :: !InRoom(s'.store, id, c))
      && (forall c :: c in CodesLeft(s'.pcs[l.t].left) <==> InRoom(s.store, id, c))
      && EachOnce(s'.pcs[l.t].left)
      && (forall d :: d in s'.pcs[l.t].left ==> CommittedDuring(Step(s, l), ls, l.t, d))
  {
    ListingIsOnTrack(s, l, id);
    RunStaysOnTrack(Step(s, l), ls, l.t, id, RoomsOf(s.store, id));
    var s' := Exec(Step(s, l), ls);
    forall c ensures !InRoom(s'.store, id, c) && (c in CodesLeft(s'.pcs[l.t].left) <==> InRoom(s.store, id, c)) {
      InRoomsOf(s'.store, c, id);
      InRoomsOf(s.store, c, id);
    }
    forall d | d in s'.pcs[l.t].left ensures CommittedDuring(Step(s, l), ls, l.t, d) {
      ReportsAreCommitted(Step(s, l), ls, l.t, d);
    }
  }

  /** The sweep's own calls touch nobody else: every room keeps its other members, in order. */
  lemma SweepTouchesNobodyElse(s: State, l: Label, id: ParticipantId, c: RoomCode)
    requires Enabled(s, l) && l.Tick?
    requires (s.pcs[l.t].Sweeping? || s.pcs[l.t].SweepErasing?) && s.pcs[l.t].id == id
    ensures Without(Members(Step(s, l).store, c), id) == Without(Members(s.store, c), id)
    ensures c in Step(s, l).store ==> c in s.store && Step(s, l).store[c].secret == s.store[c].secret
  {
    WithoutMembers(Members(s.store, c), id);
    WithoutAbsent(Without(Members(s.store, c), id), id);
  }
}
