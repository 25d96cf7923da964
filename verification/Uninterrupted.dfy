/** A thread that nobody interrupts does what the room service's functions say: the calls of one use
    case, made one after the other, are the use case. */
module Uninterrupted {
  import opened Domain
  import opened RoomCodes
  import opened RoomStore
  import opened Interleaving

  /** Only `t` makes calls. */
  ghost predicate Solo(ls: seq<Label>, t: Thread) {
    forall l :: l in ls ==> l.Tick? && l.t == t
  }

  lemma SoloConcat(a: seq<Label>, b: seq<Label>, t: Thread)
    requires Solo(a, t) && Solo(b, t)
    ensures Solo(a + b, t)
  {
  }

  lemma JoinAlone(s: State, t: Thread) returns (ls: seq<Label>)
    requires t in s.pcs && s.pcs[t].Joining?
    ensures Solo(ls, t)
    ensures Leads(s, ls, State(JoinRoom(s.store, s.pcs[t].code, s.pcs[t].p, s.pcs[t].supplied).0, s.pcs - {t}))
  {
    ls := [Tick(t, 0, [])];
    OneCall(s, ls[0]);
  }

  lemma LeaveAlone(s: State, t: Thread) returns (ls: seq<Label>)
    requires t in s.pcs && s.pcs[t].Leaving?
    ensures Solo(ls, t)
    ensures Leads(s, ls, State(LeaveRoom(s.store, s.pcs[t].code, s.pcs[t].id).0, s.pcs - {t}))
  {
    var l := Tick(t, 0, []);
    if InRoom(s.store, s.pcs[t].id, s.pcs[t].code) {
      ls := [l, l];
      TwoCalls(s, l, l);
      assert s.pcs[t := Erasing(s.pcs[t].code)] - {t} == s.pcs - {t};
    } else {
      ls := [l];
      OneCall(s, l);
    }
  }

  // ------------------------------------------------------------------
  // Creating
  // ------------------------------------------------------------------

  /** The store after the creator's two use cases. */
  function CreatedAndJoined(s: Store, p: Participant, secret: Option<RoomSecret>, draws: seq<Draw>): Store {
    var (s1, created) := CreateRoom(s, secret, draws);
    if created.Ok? then JoinRoom(s1, created.value, p, secret).0 else s1
  }

  /** The attempts from `i` on. */
  lemma {:induction false} AttemptsAlone(s: State, t: Thread, draws: seq<Draw>, i: nat) returns (ls: seq<Label>)
    requires t in s.pcs && s.pcs[t].Creating? && s.pcs[t].attempt == i
    requires |draws| == 100 && i < 100 && FirstFree(s.store, draws, 0) == FirstFree(s.store, draws, i)
    ensures Solo(ls, t)
    ensures Leads(s, ls, State(CreatedAndJoined(s.store, s.pcs[t].p, s.pcs[t].secret, draws), s.pcs - {t}))
    decreases 100 - i
  {
    hide FormatCode, Leads;
    var (p, secret, l) := (s.pcs[t].p, s.pcs[t].secret, Tick(t, draws[i], []));
    if FormatCode(draws[i]) !in s.store {
      ls := [l, l];
      TwoCalls(s, l, l);
      assert s.pcs[t := CreatorJoining(FormatCode(draws[i]), p, secret)] - {t} == s.pcs - {t};
    } else if i == 99 {
      ls := [l];
      OneCall(s, l);
    } else {
      OneCall(s, l);
      var s1 := Step(s, l);
      var rest := AttemptsAlone(s1, t, draws, i + 1);
      assert s1.pcs - {t} == s.pcs - {t};
      LeadsOn(s, [l], s1, rest, State(CreatedAndJoined(s.store, p, secret, draws), s.pcs - {t}));
      ls := [l] + rest;
    }
  }

  lemma CreateAlone(s: State, t: Thread, draws: seq<Draw>) returns (ls: seq<Label>)
    requires t in s.pcs && s.pcs[t].Creating? && s.pcs[t].attempt == 0 && |draws| == 100
    ensures Solo(ls, t)
    ensures Leads(s, ls, State(CreatedAndJoined(s.store, s.pcs[t].p, s.pcs[t].secret, draws), s.pcs - {t}))
  {
    ls := AttemptsAlone(s, t, draws, 0);
  }

  // ------------------------------------------------------------------
  // Sweeping
  // ------------------------------------------------------------------

  /** The state when the rest of a sweep is done. */
  function SweepEnds(s: State, t: Thread, id: ParticipantId, todo: seq<RoomCode>, left: seq<LeftRoom>,
      start: set<RoomCode>): State {
    var (store, more) := LeaveAll(s.store, todo, id);
    State(store, s.pcs[t := SweepDone(id, left + more, start)])
  }

  /** The state when the first room of the rest is dealt with. */
  function AfterOneRoom(s: State, t: Thread, id: ParticipantId, todo: seq<RoomCode>, left: seq<LeftRoom>,
      start: set<RoomCode>): State
    requires todo != []
  {
    var (store, r) := LeaveRoom(s.store, todo[0], id);
    State(store, s.pcs[t := Sweeping(id, todo[1..], left + (if r.Ok? then [r.value] else []), start)])
  }

  lemma OneRoomAlone(s: State, t: Thread, id: ParticipantId, todo: seq<RoomCode>, left: seq<LeftRoom>,
      start: set<RoomCode>) returns (calls: seq<Label>)
    requires t in s.pcs && s.pcs[t] == Sweeping(id, todo, left, start) && todo != []
    ensures Solo(calls, t) && Leads(s, calls, AfterOneRoom(s, t, id, todo, left, start))
  {
    hide Leads;
    var l := Tick(t, 0, []);
    if InRoom(s.store, id, todo[0]) {
      calls := [l, l];
      TwoCalls(s, l, l);
      var s1 := Step(s, l);
      assert s1.pcs[t := Sweeping(id, todo[1..], s1.pcs[t].left, start)] == s.pcs[t := Sweeping(id, todo[1..], s1.pcs[t].left, start)];
    } else {
      calls := [l];
      OneCall(s, l);
      assert left + [] == left;
    }
  }

  lemma SweepUnfolds(s: State, t: Thread, id: ParticipantId, todo: seq<RoomCode>, left: seq<LeftRoom>, start: set<RoomCode>)
    requires todo != []
    ensures var s1 := AfterOneRoom(s, t, id, todo, left, start);
      SweepEnds(s1, t, id, todo[1..], s1.pcs[t].left, start) == SweepEnds(s, t, id, todo, left, start)
  {
    hide LeaveRoom;
    var (s1, r) := LeaveRoom(s.store, todo[0], id);
    var more := LeaveAll(s1, todo[1..], id).1;
    var first := if r.Ok? then [r.value] else [];
    ConcatAssociates(left, first, more);
    assert [] + more == more;
  }

  lemma {:induction false} SweepingAlone(s: State, t: Thread, id: ParticipantId, todo: seq<RoomCode>, left: seq<LeftRoom>,
      start: set<RoomCode>) returns (ls: seq<Label>)
    requires t in s.pcs && s.pcs[t] == Sweeping(id, todo, left, start)
    ensures Solo(ls, t)
    ensures Leads(s, ls, SweepEnds(s, t, id, todo, left, start))
    decreases |todo|
  {
    hide Leads;
    var l := Tick(t, 0, []);
    if todo == [] {
      ls := [l];
      OneCall(s, l);
      assert left + [] == left;
    } else {
      var calls := OneRoomAlone(s, t, id, todo, left, start);
      var s1 := AfterOneRoom(s, t, id, todo, left, start);
      var rest := SweepingAlone(s1, t, id, todo[1..], s1.pcs[t].left, start);
      SweepUnfolds(s, t, id, todo, left, start);
      LeadsOn(s, calls, s1, rest, SweepEnds(s, t, id, todo, left, start));
      SoloConcat(calls, rest, t);
      ls := calls + rest;
    }
  }

  lemma SweepAlone(s: State, t: Thread, order: seq<RoomCode>) returns (ls: seq<Label>)
    requires t in s.pcs && s.pcs[t].Listing? && Enumerates(order, s.store)
    ensures Solo(ls, t)
    ensures var (id, all) := (s.pcs[t].id, LeaveAll(s.store, order, s.pcs[t].id));
      Leads(s, ls, State(all.0, s.pcs[t := SweepDone(id, all.1, RoomsOf(s.store, id))]))
  {
    hide Leads, Enumerates;
    var (id, l) := (s.pcs[t].id, Tick(t, 0, order));
    OneCall(s, l);
    var s1 := Step(s, l);
    var rest := SweepingAlone(s1, t, id, order, [], RoomsOf(s.store, id));
    assert [] + LeaveAll(s.store, order, id).1 == LeaveAll(s.store, order, id).1;
    var done := SweepDone(id, LeaveAll(s.store, order, id).1, RoomsOf(s.store, id));
    assert s1.pcs[t := done] == s.pcs[t := done];
    LeadsOn(s, [l], s1, rest, SweepEnds(s1, t, id, order, [], RoomsOf(s.store, id)));
    ls := [l] + rest;
  }
}
