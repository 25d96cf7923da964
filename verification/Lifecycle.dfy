/** What becomes of a session over a run: which steps make it close, stop reading or leave the registry,
    and that one which does none of these goes on writing. */
module Lifecycle {
  import opened Domain
  import opened Protocol
  import opened RoomCodes
  import opened Sessions
  import opened Server
  import opened ServerInvariant
  import opened ServerTheorems
  import opened Confinement
  import R = RoomStore

  /** The steps that make their session close: any failure, and the closure that `Close` posted. */
  ghost predicate Closes(w: World, l: Label)
    requires Enabled(w, l)
  {
    || (l.AcceptDone? && !l.ok)
    || l.ReadFailed?
    || (l.WriteDone? && !l.ok)
    || (l.RunPosted? && w.sessions[l.id].posted[0].CloseTask?)
  }

  function PhaseAfter(l: Label, phase: Phase): Phase {
    if l.AcceptDone? then if l.ok then Reading else Halted
    else if l.ReadClosed? || l.ReadFailed? then Halted
    else phase
  }

  /** How one step treats the flags of a session that acts or looks on. */
  ghost predicate FlagsMove(w: World, l: Label, x: ParticipantId, s: Session, s': Session)
    requires Enabled(w, l)
  {
    && (s'.closing <==> s.closing || (x == l.id && Closes(w, l)))
    && (s'.phase == if x == l.id then PhaseAfter(l, s.phase) else s.phase)
    && (s'.registered <==> (x == l.id && l.AcceptDone? && l.ok) || (s.registered && !(x == l.id && Removes(w, l))))
  }

  lemma RemovalMovesFlags(w: World, id: ParticipantId, s: Session, order: seq<RoomCode>, x: ParticipantId)
    requires id in w.sessions && x in w.sessions
    ensures x in RemoveFromRegistry(Local(w, id, s), id, order).sessions
    ensures var s', before := RemoveFromRegistry(Local(w, id, s), id, order).sessions[x], if x == id then s else w.sessions[x];
      && s'.closing == before.closing && s'.phase == before.phase
      && (s'.registered <==> before.registered && x != id)
  {
    hide Cleanup, For;
  }

  lemma HandlingMovesNoFlags(w: World, id: ParticipantId, m: Inbound, draws: seq<Draw>, x: ParticipantId)
    requires id in w.sessions && x in w.sessions
    ensures x in Handled(w, id, m, draws).sessions
    ensures var s' := Handled(w, id, m, draws).sessions[x];
      s'.closing == w.sessions[x].closing && s'.phase == w.sessions[x].phase && s'.registered == w.sessions[x].registered
  {
    hide Handle, For;
  }

  /** A step makes a session close, changes its phase or its registration exactly in these cases. */
  lemma StepMovesFlags(w: World, l: Label, x: ParticipantId)
    requires Enabled(w, l) && x in w.sessions
    requires w.sessions[x].phase == Accepting ==> !w.sessions[x].registered
    ensures x in Step(w, l).sessions && FlagsMove(w, l, x, w.sessions[x], Step(w, l).sessions[x])
  {
    hide RemoveFromRegistry, Handled, R.Enumerates;
    match l
    case Connect(_) =>
    case AcceptDone(id, ok, order) =>
      if !ok {
        RemovalMovesFlags(w, id, w.sessions[id].(phase := Halted, closing := true), order, x);
      }
    case ReadClosed(id, order) => RemovalMovesFlags(w, id, w.sessions[id].(phase := Halted), order, x);
    case ReadFailed(id, order) => RemovalMovesFlags(w, id, w.sessions[id].(phase := Halted, closing := true), order, x);
    case ReadDone(id, m, draws) => HandlingMovesNoFlags(w, id, m, draws, x);
    case WriteDone(id, ok, order) =>
      if !ok {
        RemovalMovesFlags(w, id, WriteFailed(w.sessions[id]).(closing := true), order, x);
      }
    case CallClose(_) =>
    case RunPosted(id, order) =>
      var s := w.sessions[id].(posted := w.sessions[id].posted[1..]);
      if w.sessions[id].posted[0].CloseTask? && !s.closing {
        RemovalMovesFlags(w, id, s.(closing := true), order, x);
      }
  }

  /** Sessions come into being by connecting and in no other way, and they start from nothing. */
  lemma NewcomersAreFresh(w: World, l: Label, x: ParticipantId)
    requires Enabled(w, l) && x !in w.sessions
    ensures x in Step(w, l).sessions <==> l == Connect(x)
    ensures l == Connect(x) ==> Step(w, l).sessions[x] == Fresh()
  {
    hide Handle, Cleanup, For, R.Enumerates;
  }

  // ------------------------------------------------------------------
  // Over runs
  // ------------------------------------------------------------------

  /** Some step of the run made the session close. */
  ghost predicate ClosedIn(ls: seq<Label>, id: ParticipantId)
    requires Runs(ls)
    decreases |ls|
  {
    ls != [] &&
    (var before, l := ls[..|ls| - 1], ls[|ls| - 1];
     ClosedIn(before, id) || (l.id == id && Closes(After(before), l)))
  }

  /** Some step of the run ended the session's upgrade, ended it well, or ended its reading. */
  ghost predicate UpgradeEnded(ls: seq<Label>, id: ParticipantId) {
    exists l :: l in ls && l.AcceptDone? && l.id == id
  }

  ghost predicate Upgraded(ls: seq<Label>, id: ParticipantId) {
    exists l :: l in ls && l.AcceptDone? && l.id == id && l.ok
  }

  ghost predicate ReadingEnded(ls: seq<Label>, id: ParticipantId) {
    exists l :: l in ls && (l.ReadClosed? || l.ReadFailed?) && l.id == id
  }

  lemma PastGrows(ls: seq<Label>, l: Label, id: ParticipantId)
    ensures Upgraded(ls, id) ==> UpgradeEnded(ls, id)
    ensures UpgradeEnded(ls + [l], id) <==> UpgradeEnded(ls, id) || (l.AcceptDone? && l.id == id)
    ensures Upgraded(ls + [l], id) <==> Upgraded(ls, id) || (l.AcceptDone? && l.id == id && l.ok)
    ensures ReadingEnded(ls + [l], id) <==> ReadingEnded(ls, id) || ((l.ReadClosed? || l.ReadFailed?) && l.id == id)
  {
    assert forall k :: k in ls + [l] <==> k in ls || k == l;
  }

  /** What the flags of a session say about its past. */
  ghost predicate Tells(ls: seq<Label>, id: ParticipantId, s: Session)
    requires Runs(ls)
  {
    && (s.closing <==> ClosedIn(ls, id))
    && (s.phase == Accepting <==> !UpgradeEnded(ls, id))
    && (s.phase == Reading <==> Upgraded(ls, id) && !ReadingEnded(ls, id))
    && (ReadingEnded(ls, id) ==> Upgraded(ls, id))
    && (s.registered ==> s.phase == Reading)
    && (s.phase == Reading && !s.closing ==> s.registered)
  }

  ghost predicate Unheard(ls: seq<Label>, id: ParticipantId)
    requires Runs(ls)
  {
    !ClosedIn(ls, id) && forall l :: l in ls ==> l.id != id
  }

  lemma {:induction false} AbsentIsUnheard(ls: seq<Label>, id: ParticipantId)
    requires Runs(ls) && id !in After(ls).sessions
    ensures Unheard(ls, id)
    decreases |ls|
  {
    hide Step;
    if ls != [] {
      var before, l := ls[..|ls| - 1], ls[|ls| - 1];
      var w := After(before);
      assert ls == before + [l];
      if id in w.sessions {
        EverySessionOk(before, id);
        StepMovesFlags(w, l, id);
      }
      NewcomersAreFresh(w, l, id);
      AbsentIsUnheard(before, id);
    }
  }

  lemma StepKeepsTelling(ls: seq<Label>, l: Label, id: ParticipantId, s: Session, s': Session)
    requires Runs(ls) && Enabled(After(ls), l) && Runs(ls + [l])
    requires Tells(ls, id, s) && FlagsMove(After(ls), l, id, s, s')
    requires id in After(ls).sessions && After(ls).sessions[id] == s
    ensures Tells(ls + [l], id, s')
  {
    hide Step, Runs, R.Enumerates, UpgradeEnded, Upgraded, ReadingEnded;
    var all := ls + [l];
    assert all[..|all| - 1] == ls && all[|all| - 1] == l;
    PastGrows(ls, l, id);
  }

  /** In every run: a session is closing exactly when something closed it; it waits for its upgrade
      until that ends, and then reads exactly until a read ends without a message; and while it reads and
      is not closing it is registered. */
  lemma {:induction false} FlagsTell(ls: seq<Label>, id: ParticipantId)
    requires Runs(ls) && id in After(ls).sessions
    ensures Tells(ls, id, After(ls).sessions[id])
    decreases |ls|
  {
    hide Step;
    if ls != [] {
      var before, l := ls[..|ls| - 1], ls[|ls| - 1];
      var w := After(before);
      assert ls == before + [l];
      if id in w.sessions {
        FlagsTell(before, id);
        EverySessionOk(before, id);
        StepMovesFlags(w, l, id);
        StepKeepsTelling(before, l, id, w.sessions[id], After(ls).sessions[id]);
      } else {
        NewcomersAreFresh(w, l, id);
        AbsentIsUnheard(before, id);
      }
    }
  }

  /** A session that nothing has closed has a write outstanding whenever there is something to write,
      and so is never stuck. */
  lemma WritesGoOn(ls: seq<Label>, id: ParticipantId)
    requires Runs(ls) && id in After(ls).sessions && !ClosedIn(ls, id)
    ensures var s := After(ls).sessions[id]; !s.closing && (s.inFlight != [] <==> s.queue != [])
  {
    hide Runs, After, Step;
    FlagsTell(ls, id);
    WriteQueueSafety(ls, id);
  }

  // ------------------------------------------------------------------
  // Progress
  // ------------------------------------------------------------------

  /** Only messages are posted. */
  ghost predicate OnlySends(ts: seq<Task>) {
    forall t :: t in ts ==> t.SendTask?
  }

  /** Running a posted message, or completing a write when none is posted: one step nearer to rest. */
  ghost function NextChore(w: World, id: ParticipantId): Label
    requires id in w.sessions
  {
    var order := R.SomeOrder(w.store.Keys);
    if w.sessions[id].posted != [] then RunPosted(id, order) else WriteDone(id, true, order)
  }

  function Chores(s: Session): nat {
    2 * |s.posted| + |s.queue|
  }

  lemma ChoreHelps(w: World, id: ParticipantId)
    requires id in w.sessions && QueueSafe(w.sessions[id]) && !w.sessions[id].closing && OnlySends(w.sessions[id].posted)
    requires Chores(w.sessions[id]) > 0
    ensures Enabled(w, NextChore(w, id))
    ensures var s, s' := w.sessions[id], Step(w, NextChore(w, id)).sessions[id];
      Chores(s') == Chores(s) - 1 && s'.sent == s.sent && !s'.closing && OnlySends(s'.posted)
    ensures Step(w, NextChore(w, id)).sessions.Keys == w.sessions.Keys
  {
    var s := w.sessions[id];
    if s.posted != [] {
      assert s.posted[0] in s.posted;
    }
  }

  /** Wherever a run has led, a session that is not closing and has no close posted can still have
      everything it was ever sent written, in as many steps as there are chores left. */
  lemma {:induction false} CanAlwaysDrain(ls: seq<Label>, id: ParticipantId) returns (more: seq<Label>)
    requires Runs(ls) && id in After(ls).sessions
    requires !After(ls).sessions[id].closing && OnlySends(After(ls).sessions[id].posted)
    ensures Runs(ls + more) && |more| == Chores(After(ls).sessions[id])
    ensures id in After(ls + more).sessions && After(ls + more).sessions[id].wire == After(ls).sessions[id].sent
    decreases Chores(After(ls).sessions[id])
  {
    hide Runs, After, Step, Enabled;
    var w := After(ls);
    WriteQueueSafety(ls, id);
    if Chores(w.sessions[id]) == 0 {
      more := [];
      assert ls + more == ls;
      DrainedMeansWritten(w.sessions[id]);
    } else {
      var l := NextChore(w, id);
      ChoreHelps(w, id);
      RunGrows(ls, l);
      var rest := CanAlwaysDrain(ls + [l], id);
      more := [l] + rest;
      assert ls + more == ls + [l] + rest;
    }
  }

  // ------------------------------------------------------------------
  // Closing
  // ------------------------------------------------------------------

  /** A close is under way or done. */
  ghost predicate CloseStands(s: Session) {
    s.closing || CloseTask in s.posted
  }

  /** Done means out of the registry, unless the session was closing before it was ever let in. */
  ghost predicate CloseRemoves(s: Session) {
    s.phase != Accepting && (s.closing ==> !s.registered)
  }

  lemma StepKeepsTasks(w: World, l: Label, x: ParticipantId)
    requires Enabled(w, l) && x in w.sessions
    ensures x in Step(w, l).sessions
    ensures var s, s' := w.sessions[x], Step(w, l).sessions[x];
      CloseTask in s.posted ==> CloseTask in s'.posted || (x == l.id && Closes(w, l))
  {
    hide Handle, Cleanup, For, R.Enumerates;
    var s := w.sessions[x];
    assert s.posted != [] ==> s.posted == [s.posted[0]] + s.posted[1..];
  }

  lemma StepKeepsClosing(ls: seq<Label>, l: Label, x: ParticipantId)
    requires Runs(ls) && Enabled(After(ls), l) && x in After(ls).sessions
    ensures x in Step(After(ls), l).sessions
    ensures var s, s' := After(ls).sessions[x], Step(After(ls), l).sessions[x];
      (CloseStands(s) ==> CloseStands(s')) && (CloseRemoves(s) ==> CloseRemoves(s'))
  {
    hide Step, R.Enumerates, Runs, After;
    EverySessionOk(ls, x);
    StepMovesFlags(After(ls), l, x);
    StepKeepsTasks(After(ls), l, x);
  }

  lemma {:induction false} RunKeepsClosing(ls: seq<Label>, more: seq<Label>, id: ParticipantId)
    requires Runs(ls) && Runs(ls + more) && id in After(ls).sessions
    ensures id in After(ls + more).sessions
    ensures var s, s' := After(ls).sessions[id], After(ls + more).sessions[id];
      (CloseStands(s) ==> CloseStands(s')) && (CloseRemoves(s) ==> CloseRemoves(s'))
    decreases |more|
  {
    hide Step, Enabled, Runs, After, CloseStands, CloseRemoves;
    if more == [] {
      assert ls + more == ls;
    } else {
      var shorter := more[..|more| - 1];
      assert ls + more == ls + shorter + [more[|more| - 1]];
      RunGrows(ls + shorter, more[|more| - 1]);
      RunKeepsClosing(ls, shorter, id);
      StepKeepsClosing(ls + shorter, more[|more| - 1], id);
    }
  }

  /** `Close` works: however the run goes on, once the closures posted to the session have run it is
      closing, and if it was live when it was called it is out of the registry. */
  lemma CloseTakesEffect(ls: seq<Label>, more: seq<Label>, id: ParticipantId)
    requires Runs(ls) && Runs(ls + [CallClose(id)] + more) && id in After(ls).sessions
    ensures var (s, w) := (After(ls).sessions[id], After(ls + [CallClose(id)] + more));
      && id in w.sessions
      && (w.sessions[id].posted == [] ==> w.sessions[id].closing)
      && (w.sessions[id].posted == [] && s.registered && !s.closing ==> id !in w.registry)
  {
    hide Runs, After;
    var l := CallClose(id);
    var all := ls + [l] + more;
    RunIsPrefixClosed(ls + [l], more);
    RunGrows(ls, l);
    EverySessionOk(ls, id);
    RunKeepsClosing(ls + [l], more, id);
    EveryRunKeepsInv(all);
  }

  lemma {:induction false} RunIsPrefixClosed(ls: seq<Label>, more: seq<Label>)
    requires Runs(ls + more)
    ensures Runs(ls)
    decreases |more|
  {
    if more == [] {
      assert ls + more == ls;
    } else {
      var shorter := more[..|more| - 1];
      assert ls + more == ls + shorter + [more[|more| - 1]];
      RunGrows(ls + shorter, more[|more| - 1]);
      RunIsPrefixClosed(ls, shorter);
    }
  }
}
