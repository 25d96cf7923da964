/** Creating a room takes two repository calls: adding it and joining it. What other threads do in
    between decides whose room the creator then asks to join. */
module CreatorRace {
  import opened Domain
  import opened RoomCodes
  import opened RoomStore
  import opened Interleaving

  // ------------------------------------------------------------------
  // The room's story between the two calls
  // ------------------------------------------------------------------

  /** The creator's own room, no room, or a room that somebody else opened with this secret. */
  datatype Fate = Own | Gone | Foreign(secret: Option<RoomSecret>)

  function FateAfter(s: State, l: Label, c: RoomCode, fate: Fate): Fate {
    if Erases(s, l, c) then Gone
    else if Opens(s, l, c) then Foreign(s.pcs[l.t].secret)
    else fate
  }

  /** What the erases and openings of a run make of the code's room. */
  ghost function FateOf(s: State, ls: seq<Label>, c: RoomCode, fate: Fate): Fate
    requires Runs(s, ls)
    decreases |ls|
  {
    if ls == [] then fate else FateOf(Step(s, ls[0]), ls[1..], c, FateAfter(s, ls[0], c, fate))
  }

  ghost predicate NeverErased(s: State, ls: seq<Label>, c: RoomCode)
    requires Runs(s, ls)
    decreases |ls|
  {
    ls == [] || (!Erases(s, ls[0], c) && NeverErased(Step(s, ls[0]), ls[1..], c))
  }

  ghost predicate NeverOpened(s: State, ls: seq<Label>, c: RoomCode)
    requires Runs(s, ls)
    decreases |ls|
  {
    ls == [] || (!Opens(s, ls[0], c) && NeverOpened(Step(s, ls[0]), ls[1..], c))
  }

  /** The store bears the story out; `mine` is the secret the creator asked for. */
  predicate Bears(s: Store, c: RoomCode, mine: Option<RoomSecret>, fate: Fate) {
    match fate
    case Own => c in s && s[c].secret == mine
    case Gone => c !in s
    case Foreign(secret) => c in s && s[c].secret == secret
  }

  lemma StepBears(s: State, l: Label, c: RoomCode, mine: Option<RoomSecret>, fate: Fate)
    requires Enabled(s, l) && Bears(s.store, c, mine, fate)
    ensures Bears(Step(s, l).store, c, mine, FateAfter(s, l, c, fate))
    ensures fate == Own ==> !Opens(s, l, c)
  {
    if l.Tick? && Subject(s.pcs[l.t], l.draw) != Some(c) {
      TickTouchesItsSubject(s, l.t, l.draw, l.order, c);
    }
  }

  lemma {:induction false} RunBears(s: State, ls: seq<Label>, c: RoomCode, mine: Option<RoomSecret>, fate: Fate)
    requires Runs(s, ls) && Bears(s.store, c, mine, fate)
    ensures Bears(Exec(s, ls).store, c, mine, FateOf(s, ls, c, fate))
    decreases |ls|
  {
    if ls != [] {
      StepBears(s, ls[0], c, mine, fate);
      RunBears(Step(s, ls[0]), ls[1..], c, mine, FateAfter(s, ls[0], c, fate));
    }
  }

  lemma {:induction false} LostIsLost(s: State, ls: seq<Label>, c: RoomCode, fate: Fate)
    requires Runs(s, ls) && fate != Own
    ensures FateOf(s, ls, c, fate) != Own
    decreases |ls|
  {
    if ls != [] {
      LostIsLost(Step(s, ls[0]), ls[1..], c, FateAfter(s, ls[0], c, fate));
    }
  }

  /** The creator's room is still its own exactly when nothing erased it; then nothing opened it
      again either. */
  lemma {:induction false} OwnIffNeverErased(s: State, ls: seq<Label>, c: RoomCode, mine: Option<RoomSecret>)
    requires Runs(s, ls) && Bears(s.store, c, mine, Own)
    ensures FateOf(s, ls, c, Own) == Own <==> NeverErased(s, ls, c)
    ensures NeverErased(s, ls, c) ==> NeverOpened(s, ls, c)
    decreases |ls|
  {
    if ls != [] {
      StepBears(s, ls[0], c, mine, Own);
      if Erases(s, ls[0], c) {
        LostIsLost(Step(s, ls[0]), ls[1..], c, Gone);
      } else {
        OwnIffNeverErased(Step(s, ls[0]), ls[1..], c, mine);
      }
    }
  }

  /** A room that is there without having been opened again was never erased. */
  lemma {:induction false} ThereAndNotReopened(s: State, ls: seq<Label>, c: RoomCode, fate: Fate)
    requires Runs(s, ls) && NeverOpened(s, ls, c) && !fate.Foreign?
    ensures !FateOf(s, ls, c, fate).Foreign?
    decreases |ls|
  {
    if ls != [] {
      ThereAndNotReopened(Step(s, ls[0]), ls[1..], c, FateAfter(s, ls[0], c, fate));
    }
  }

  // ------------------------------------------------------------------
  // The creator's second call
  // ------------------------------------------------------------------

  ghost predicate Waits(ls: seq<Label>, t: Thread) {
    forall l :: l in ls ==> l.t != t
  }

  lemma {:induction false} WaitingThreadStaysPut(s: State, ls: seq<Label>, t: Thread)
    requires Runs(s, ls) && Waits(ls, t) && t in s.pcs
    ensures t in Exec(s, ls).pcs && Exec(s, ls).pcs[t] == s.pcs[t]
    decreases |ls|
  {
    if ls != [] {
      assert ls[0] in ls;
      WaitingThreadStaysPut(Step(s, ls[0]), ls[1..], t);
    }
  }

  /** Thread `l.t` has just opened a room; the others then do anything at all. Its next call is the
      join, and the answer is decided by the room's fate and by whether its participant has been put
      into the room meanwhile. */
  lemma CreatorsFate(s: State, l: Label, ls: seq<Label>, c: RoomCode)
    requires Enabled(s, l) && Opens(s, l, c)
    requires Runs(Step(s, l), ls) && Waits(ls, l.t)
    ensures var (s1, s') := (Step(s, l), Exec(Step(s, l), ls));
      var (p, mine) := (s.pcs[l.t].p, s.pcs[l.t].secret);
      var (fate, r) := (FateOf(s1, ls, c, Own), JoinRoom(s'.store, c, p, mine).1);
      && l.t in s'.pcs && s'.pcs[l.t] == CreatorJoining(c, p, mine)
      && (fate == Own <==> NeverErased(s1, ls, c))
      && (r == Err(RoomNotFound) <==> fate == Gone)
      && (r == Err(AlreadyJoined) <==> InRoom(s'.store, p.id, c))
      && (r == Err(PasswordNotProvided) <==> !InRoom(s'.store, p.id, c) && fate.Foreign? && fate.secret.Some? && mine.None?)
      && (r == Err(WrongPassword) <==>
            !InRoom(s'.store, p.id, c) && fate.Foreign? && fate.secret.Some? && mine.Some? && mine != fate.secret)
      && (r.Ok? <==> !InRoom(s'.store, p.id, c) && (fate == Own || (fate.Foreign? && Admits(fate.secret, mine))))
      && (r.Ok? ==> r.value == JoinedRoom(c, p, Members(s'.store, c) + [p]))
  {
    var s1, mine := Step(s, l), s.pcs[l.t].secret;
    assert Bears(s1.store, c, mine, Own);
    RunBears(s1, ls, c, mine, Own);
    OwnIffNeverErased(s1, ls, c, mine);
    WaitingThreadStaysPut(s1, ls, l.t);
  }

  /** The creator gets into the room it opened if and only if no call of the others erases it. */
  lemma CreatorGetsInIff(s: State, l: Label, ls: seq<Label>, c: RoomCode)
    requires Enabled(s, l) && Opens(s, l, c)
    requires Runs(Step(s, l), ls) && Waits(ls, l.t) && NobodyJoinsAs(Step(s, l), ls, c, s.pcs[l.t].p.id)
    ensures var s1 := Step(s, l);
      var r := JoinRoom(Exec(s1, ls).store, c, s.pcs[l.t].p, s.pcs[l.t].secret).1;
      (r.Ok? && NeverOpened(s1, ls, c)) <==> NeverErased(s1, ls, c)
  {
    var s1 := Step(s, l);
    CreatorsFate(s, l, ls, c);
    assert Bears(s1.store, c, s.pcs[l.t].secret, Own);
    OwnIffNeverErased(s1, ls, c, s.pcs[l.t].secret);
    RunKeepsOut(s1, ls, c, s.pcs[l.t].p.id);
    if NeverOpened(s1, ls, c) {
      ThereAndNotReopened(s1, ls, c, Own);
    }
  }

  // ------------------------------------------------------------------
  // Witnesses
  // ------------------------------------------------------------------

  const CREATOR := Participant("p_1", "x")
  const VISITOR := Participant("p_2", "y")
  const SECRET: Option<RoomSecret> := Some("s")

  type Pcs = map<Thread, Pc>

  function Code(): RoomCode {
    FormatCode(0)
  }

  /** Just one room, with these participants, and these threads. */
  function One(secret: Option<RoomSecret>, ps: seq<Participant>, pcs: Pcs): State {
    State(map[Code() := Room(Code(), secret, ps)], pcs)
  }

  function NoRoom(pcs: Pcs): State {
    State(map[], pcs)
  }

  function Call(t: Thread): Label {
    Tick(t, 0, [])
  }

  lemma ThreadOpens(pcs: Pcs, t: Thread, p: Participant, secret: Option<RoomSecret>)
    requires t !in pcs
    ensures Leads(NoRoom(pcs), [Begin(t, Creating(p, secret, 0)), Call(t)], One(secret, [], pcs[t := CreatorJoining(Code(), p, secret)]))
  {
    hide FormatCode;
    TwoCalls(NoRoom(pcs), Begin(t, Creating(p, secret, 0)), Call(t));
    assert pcs[t := Creating(p, secret, 0)][t := CreatorJoining(Code(), p, secret)] == pcs[t := CreatorJoining(Code(), p, secret)];
  }

  lemma CreatorEnters(pcs: Pcs, t: Thread, p: Participant, secret: Option<RoomSecret>)
    requires t in pcs && pcs[t] == CreatorJoining(Code(), p, secret)
    ensures Leads(One(secret, [], pcs), [Call(t)], One(secret, [p], pcs - {t}))
  {
    hide FormatCode;
    OneCall(One(secret, [], pcs), Call(t));
    assert [] + [p] == [p];
  }

  lemma ThreadEnters(ps: seq<Participant>, pcs: Pcs, t: Thread, p: Participant)
    requires t !in pcs && !Has(ps, p.id)
    ensures Leads(One(None, ps, pcs), [Begin(t, Joining(Code(), p, None)), Call(t)], One(None, ps + [p], pcs))
  {
    hide FormatCode, Has;
    TwoCalls(One(None, ps, pcs), Begin(t, Joining(Code(), p, None)), Call(t));
    assert pcs[t := Joining(Code(), p, None)] - {t} == pcs;
  }

  lemma ThreadLeaves(ps: seq<Participant>, pcs: Pcs, t: Thread, id: ParticipantId)
    requires t !in pcs && Has(ps, id)
    ensures Leads(One(None, ps, pcs), [Begin(t, Leaving(Code(), id)), Call(t)], One(None, Without(ps, id), pcs[t := Erasing(Code())]))
  {
    hide FormatCode, Has, Without;
    TwoCalls(One(None, ps, pcs), Begin(t, Leaving(Code(), id)), Call(t));
    assert pcs[t := Leaving(Code(), id)][t := Erasing(Code())] == pcs[t := Erasing(Code())];
  }

  lemma ThreadErases(secret: Option<RoomSecret>, pcs: Pcs, t: Thread)
    requires t in pcs && pcs[t] == Erasing(Code())
    ensures Leads(One(secret, [], pcs), [Call(t)], NoRoom(pcs - {t}))
  {
    hide FormatCode;
    OneCall(One(secret, [], pcs), Call(t));
    assert One(secret, [], pcs).store - {Code()} == map[];
  }

  /** `t`'s creation has succeeded, and its join will be told that there is no such room. */
  predicate LockedOut(s: State, t: Thread) {
    && t in s.pcs
    && s.pcs[t].CreatorJoining?
    && JoinRoom(s.store, s.pcs[t].code, s.pcs[t].p, s.pcs[t].secret).1 == Err(RoomNotFound)
  }

  /** A visitor that joins and leaves in between takes the room with it. */
  lemma VisitorLocksCreatorOut()
    ensures exists ls, t :: Runs(START, ls) && LockedOut(Exec(START, ls), t)
  {
    hide Leads, Step, Runs;
    var creating: Pcs := map[1 := CreatorJoining(Code(), CREATOR, None)];
    ThreadOpens(map[], 1, CREATOR, None);
    ThreadEnters([], creating, 2, VISITOR);
    ThreadLeaves([VISITOR], creating, 2, VISITOR.id);
    ThreadErases(None, creating[2 := Erasing(Code())], 2);
    assert [] + [VISITOR] == [VISITOR];
    assert Without([VISITOR], VISITOR.id) == [];
    assert creating[2 := Erasing(Code())] - {2} == creating;
    var a := [Begin(1, Creating(CREATOR, None, 0)), Call(1)];
    var b := [Begin(2, Joining(Code(), VISITOR, None)), Call(2)];
    var c := [Begin(2, Leaving(Code(), VISITOR.id)), Call(2)];
    LeadsOn(START, a, One(None, [], creating), b, One(None, [VISITOR], creating));
    LeadsOn(START, a + b, One(None, [VISITOR], creating), c, One(None, [], creating[2 := Erasing(Code())]));
    LeadsOn(START, a + b + c, One(None, [], creating[2 := Erasing(Code())]), [Call(2)], NoRoom(creating));
    LeadsWhere(START, a + b + c + [Call(2)], NoRoom(creating));
    assert LockedOut(NoRoom(creating), 1);
  }

  /** Step `l` opens a protected room, and step `e` right after it is an erase that was already
      pending and leaves the creator locked out. */
  ghost predicate StaleErase(s: State, l: Label, e: Label) {
    && Enabled(s, l) && l.Tick? && Opens(s, l, FormatCode(l.draw)) && s.pcs[l.t].secret.Some?
    && e.Tick? && e.t in s.pcs && s.pcs[e.t] == Erasing(FormatCode(l.draw))
    && Enabled(Step(s, l), e)
    && LockedOut(Step(Step(s, l), e), l.t)
  }

  /** Two participants come and go and only one of their erases has run: the other is left over. */
  function LeftOver(): Pcs {
    map[2 := Erasing(Code())]
  }

  function TwoComeAndGo(): seq<Label> {
    [Begin(1, Creating(CREATOR, None, 0)), Call(1)] + [Call(1)]
    + [Begin(2, Joining(Code(), VISITOR, None)), Call(2)]
    + [Begin(1, Leaving(Code(), CREATOR.id)), Call(1)]
    + [Begin(2, Leaving(Code(), VISITOR.id)), Call(2)]
    + [Call(1)]
  }

  lemma TwoComeAndGoLeavesAnErase()
    ensures Leads(START, TwoComeAndGo(), NoRoom(LeftOver()))
  {
    hide Leads, Step, Runs, FormatCode;
    var creating: Pcs := map[1 := CreatorJoining(Code(), CREATOR, None)];
    var one: Pcs := map[1 := Erasing(Code())];
    ThreadOpens(map[], 1, CREATOR, None);
    CreatorEnters(creating, 1, CREATOR, None);
    assert creating - {1} == map[];
    ThreadEnters([CREATOR], map[], 2, VISITOR);
    assert [CREATOR] + [VISITOR] == [CREATOR, VISITOR];
    BothAreThere();
    ThreadLeaves([CREATOR, VISITOR], map[], 1, CREATOR.id);
    ThreadLeaves([VISITOR], one, 2, VISITOR.id);
    ThreadErases(None, one[2 := Erasing(Code())], 1);
    assert one[2 := Erasing(Code())] - {1} == LeftOver();
    var a := [Begin(1, Creating(CREATOR, None, 0)), Call(1)];
    var b := [Begin(2, Joining(Code(), VISITOR, None)), Call(2)];
    var c := [Begin(1, Leaving(Code(), CREATOR.id)), Call(1)];
    var d := [Begin(2, Leaving(Code(), VISITOR.id)), Call(2)];
    LeadsOn(START, a, One(None, [], creating), [Call(1)], One(None, [CREATOR], map[]));
    LeadsOn(START, a + [Call(1)], One(None, [CREATOR], map[]), b, One(None, [CREATOR, VISITOR], map[]));
    LeadsOn(START, a + [Call(1)] + b, One(None, [CREATOR, VISITOR], map[]), c, One(None, [VISITOR], one));
    LeadsOn(START, a + [Call(1)] + b + c, One(None, [VISITOR], one), d, One(None, [], one[2 := Erasing(Code())]));
    LeadsOn(START, a + [Call(1)] + b + c + d, One(None, [], one[2 := Erasing(Code())]), [Call(1)], NoRoom(LeftOver()));
  }

  lemma BothAreThere()
    ensures !Has([CREATOR], VISITOR.id) && Has([CREATOR, VISITOR], CREATOR.id) && Has([VISITOR], VISITOR.id)
    ensures Without([CREATOR, VISITOR], CREATOR.id) == [VISITOR] && Without([VISITOR], VISITOR.id) == []
  {
    assert CREATOR in [CREATOR, VISITOR];
    assert VISITOR in [VISITOR];
    assert [CREATOR, VISITOR][1..] == [VISITOR];
    assert [VISITOR][1..] == [];
    assert CREATOR.id[2] != VISITOR.id[2];
    assert Without([VISITOR], CREATOR.id) == [VISITOR];
  }

  /** A left-over erase takes the new room away, although no visitor ever knew of it. */
  lemma StaleEraseLocksCreatorOut()
    ensures exists ls, l, e :: Runs(START, ls) && StaleErase(Exec(START, ls), l, e)
  {
    var pcs := LeftOver()[3 := Creating(CREATOR, SECRET, 0)];
    TwoComeAndGoLeavesAnErase();
    OneCall(NoRoom(LeftOver()), Begin(3, Creating(CREATOR, SECRET, 0)));
    LeadsOn(START, TwoComeAndGo(), NoRoom(LeftOver()), [Begin(3, Creating(CREATOR, SECRET, 0))], NoRoom(pcs));
    LeadsWhere(START, TwoComeAndGo() + [Begin(3, Creating(CREATOR, SECRET, 0))], NoRoom(pcs));
    NewRoomIsErased(pcs);
  }

  lemma NewRoomIsErased(pcs: Pcs)
    requires pcs == LeftOver()[3 := Creating(CREATOR, SECRET, 0)]
    ensures StaleErase(NoRoom(pcs), Call(3), Call(2))
  {
    hide FormatCode;
    var s1 := One(SECRET, [], pcs[3 := CreatorJoining(Code(), CREATOR, SECRET)]);
    assert Step(NoRoom(pcs), Call(3)) == s1;
    assert Step(s1, Call(2)).store == map[];
  }

  /** The creator asked for a protected room and is about to be let into an open one that somebody
      else has opened under its code. */
  predicate Misled(s: State, t: Thread) {
    && t in s.pcs
    && s.pcs[t].CreatorJoining? && s.pcs[t].secret.Some?
    && s.pcs[t].code in s.store && s.store[s.pcs[t].code].secret.None?
    && JoinRoom(s.store, s.pcs[t].code, s.pcs[t].p, s.pcs[t].secret).1
       == Ok(JoinedRoom(s.pcs[t].code, s.pcs[t].p, s.store[s.pcs[t].code].participants + [s.pcs[t].p]))
  }

  lemma CreatorCanEndUpInForeignRoom()
    ensures exists ls, t :: Runs(START, ls) && Misled(Exec(START, ls), t)
  {
    hide Leads, Step, Runs, FormatCode;
    var mine := CreatorJoining(Code(), CREATOR, SECRET);
    var both := LeftOver()[3 := mine];
    var alone: Pcs := map[3 := mine];
    var foreign := alone[4 := CreatorJoining(Code(), VISITOR, None)];
    TwoComeAndGoLeavesAnErase();
    ThreadOpens(LeftOver(), 3, CREATOR, SECRET);
    ThreadErases(SECRET, both, 2);
    assert both - {2} == alone;
    ThreadOpens(alone, 4, VISITOR, None);
    CreatorEnters(foreign, 4, VISITOR, None);
    assert foreign - {4} == alone;
    var a := [Begin(3, Creating(CREATOR, SECRET, 0)), Call(3)];
    var b := [Begin(4, Creating(VISITOR, None, 0)), Call(4)];
    LeadsOn(START, TwoComeAndGo(), NoRoom(LeftOver()), a, One(SECRET, [], both));
    LeadsOn(START, TwoComeAndGo() + a, One(SECRET, [], both), [Call(2)], NoRoom(alone));
    LeadsOn(START, TwoComeAndGo() + a + [Call(2)], NoRoom(alone), b, One(None, [], foreign));
    LeadsOn(START, TwoComeAndGo() + a + [Call(2)] + b, One(None, [], foreign), [Call(4)], One(None, [VISITOR], alone));
    LeadsWhere(START, TwoComeAndGo() + a + [Call(2)] + b + [Call(4)], One(None, [VISITOR], alone));
    assert !Has([VISITOR], CREATOR.id);
    assert Misled(One(None, [VISITOR], alone), 3);
  }
}
