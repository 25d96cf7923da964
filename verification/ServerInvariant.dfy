/** What every step of the server keeps. */
module ServerInvariant {
  import opened Domain
  import opened Protocol
  import opened RoomCodes
  import opened Codec
  import opened CodecTheorems
  import opened Sessions
  import opened History
  import opened Server
  import opened Deliveries
  import opened Effects
  import R = RoomStore
  import Dispatcher

  /** The i-th reply handed to `Send` answers the i-th message read, and there are no others. */
  ghost predicate Conversed(inbox: seq<Inbound>, sent: seq<Json>) {
    && |Replies(sent)| == |inbox|
    && forall i :: 0 <= i < |inbox| ==> Answers(Replies(sent)[i], inbox[i])
  }

  ghost predicate CleanedOnce(s: Session) {
    && s.cleanups <= 1
    && (s.registered ==> s.cleanups == 0)
    && (s.phase == Accepting ==> !s.registered && s.cleanups == 0)
  }

  ghost predicate SessionOk(s: Session) {
    QueueSafe(s) && Conversed(s.inbox, s.sent) && CleanedOnce(s)
  }

  ghost predicate RegistryExact(w: World) {
    forall id :: id in w.registry <==> id in w.sessions && w.sessions[id].registered
  }

  ghost predicate MembersHaveSessions(w: World) {
    forall c, x :: Has(R.Members(w.store, c), x) ==> x in w.sessions && w.sessions[x].phase != Accepting
  }

  /** Every registered member's latest list is the room's list. */
  ghost predicate ReplicasAgree(w: World) {
    forall c, x :: Has(R.Members(w.store, c), x) && x in w.registry ==>
      x in w.sessions && View(w.sessions[x].sent, c) == Some(R.Members(w.store, c))
  }

  ghost predicate Inv(w: World) {
    && Recorded(w.store, w.facts)
    && RegistryExact(w)
    && (forall id :: id in w.sessions ==> SessionOk(w.sessions[id]))
    && MembersHaveSessions(w)
    && ReplicasAgree(w)
  }

  // ------------------------------------------------------------------
  // Steps that concern one session only
  // ------------------------------------------------------------------

  /** A change inside one session that neither sends, nor registers, nor goes back to accepting. */
  ghost predicate Inner(s: Session, s': Session) {
    && s'.sent == s.sent
    && s'.inbox == s.inbox
    && s'.registered == s.registered
    && s'.cleanups == s.cleanups
    && (s'.phase == s.phase || s'.phase == Halted)
  }

  lemma InvGives(w: World)
    requires Inv(w)
    ensures R.WellFormed(w.store)
    ensures forall id :: id in w.sessions ==> QueueSafe(w.sessions[id])
  {
  }

  lemma InnerKeepsSessionOk(s: Session, s': Session)
    requires SessionOk(s) && Inner(s, s') && QueueSafe(s')
    ensures SessionOk(s')
  {
  }

  lemma AcceptedSessionOk(s: Session)
    requires SessionOk(s) && s.phase == Accepting
    ensures SessionOk(s.(phase := Reading, registered := true))
  {
  }

  lemma LocalKeepsInv(w: World, id: ParticipantId, s': Session)
    requires Inv(w) && id in w.sessions
    requires Inner(w.sessions[id], s') && QueueSafe(s')
    ensures Inv(Local(w, id, s'))
  {
    hide Recorded, SessionOk, QueueSafe, View;
    InnerKeepsSessionOk(w.sessions[id], s');
  }

  lemma ConnectKeepsInv(w: World, id: ParticipantId)
    requires Inv(w) && id !in w.sessions
    ensures Inv(Local(w, id, Fresh()))
  {
    hide Recorded;
    ConnectKeepsReplicas(w, id);
  }

  lemma ConnectKeepsReplicas(w: World, id: ParticipantId)
    requires id !in w.sessions && RegistryExact(w) && MembersHaveSessions(w) && ReplicasAgree(w)
    ensures MembersHaveSessions(Local(w, id, Fresh())) && ReplicasAgree(Local(w, id, Fresh()))
  {
  }

  lemma AcceptKeepsInv(w: World, id: ParticipantId)
    requires Inv(w) && id in w.sessions && w.sessions[id].phase == Accepting
    ensures Inv(Local(w, id, w.sessions[id].(phase := Reading, registered := true)).(registry := w.registry + {id}))
  {
    hide Recorded, SessionOk, View;
    AcceptedSessionOk(w.sessions[id]);
  }

  // ------------------------------------------------------------------
  // Disconnects
  // ------------------------------------------------------------------

  lemma {:induction false} FactsOfDepartures(left: seq<R.LeftRoom>)
    ensures DepartureFacts(Dispatcher.DepartureEvents(left)) == DeparturesFrom(left)
  {
    if left != [] {
      FactsOfDepartures(left[1..]);
      assert Dispatcher.DepartureEvents(left)[1..] == Dispatcher.DepartureEvents(left[1..]);
    }
  }

  lemma CleanupIsRecorded(s: R.Store, h: seq<Fact>, registry: set<ParticipantId>, id: ParticipantId, order: seq<RoomCode>)
    requires Recorded(s, h)
    ensures var e := Cleanup(s, registry, id, order); Recorded(e.store, h + e.facts)
  {
    SweepIsRecorded(s, h, order, id);
    FactsOfDepartures(R.LeaveAll(s, order, id).1);
  }

  lemma CleanupOnlyRemoves(s: R.Store, id: ParticipantId, order: seq<RoomCode>, c: RoomCode, x: ParticipantId)
    requires R.Enumerates(order, s)
    ensures var s' := R.LeaveAll(s, order, id).0;
      Has(R.Members(s', c), x) ==> x != id && Has(R.Members(s, c), x)
  {
    R.CleanupIsComplete(s, order, id);
    if c in s {
      WithoutMembers(s[c].participants, id);
    }
  }

  lemma PostedSessionOk(s: Session, share: seq<Json>)
    requires SessionOk(s) && Replies(share) == []
    ensures SessionOk(Post(s, share))
  {
    PostKeepsQueueSafe(s, share);
    RepliesConcat(s.sent, share);
  }

  lemma UnregisteredSessionOk(s: Session)
    requires SessionOk(s) && s.registered
    ensures SessionOk(s.(registered := false, cleanups := s.cleanups + 1))
  {
  }

  lemma DisconnectKeepsSessions(w: World, id: ParticipantId, order: seq<RoomCode>)
    requires R.WellFormed(w.store) && R.Enumerates(order, w.store)
    requires id in w.sessions && w.sessions[id].registered
    requires forall x :: x in w.sessions ==> SessionOk(w.sessions[x])
    ensures forall x :: x in w.sessions ==> SessionOk(Disconnected(w, id, order).sessions[x])
  {
    hide Cleanup, SessionOk, R.WellFormed;
    var w1 := Unregistered(w, id);
    forall x | x in w.sessions ensures SessionOk(Disconnected(w, id, order).sessions[x]) {
      CleanupRepliesToNobody(w.store, w1.registry, id, order, x);
      assert SessionOk(w.sessions[x]);
      UnregisteredSessionOk(w.sessions[id]);
      PostedSessionOk(w1.sessions[x], For(Cleanup(w.store, w1.registry, id, order).sends, x));
    }
  }

  lemma DisconnectKeepsMembers(w: World, id: ParticipantId, order: seq<RoomCode>)
    requires R.Enumerates(order, w.store) && id in w.sessions
    requires MembersHaveSessions(w)
    ensures MembersHaveSessions(Disconnected(w, id, order))
  {
    var w' := Disconnected(w, id, order);
    forall c, x | Has(R.Members(w'.store, c), x)
      ensures x in w'.sessions && w'.sessions[x].phase != Accepting
    {
      CleanupOnlyRemoves(w.store, id, order, c, x);
    }
  }

  lemma DisconnectKeepsReplicas(w: World, id: ParticipantId, order: seq<RoomCode>)
    requires R.WellFormed(w.store) && R.Enumerates(order, w.store) && id in w.sessions
    requires ReplicasAgree(w)
    ensures ReplicasAgree(Disconnected(w, id, order))
  {
    var w1, w' := Unregistered(w, id), Disconnected(w, id, order);
    forall c, x | Has(R.Members(w'.store, c), x) && x in w'.registry
      ensures x in w'.sessions && View(w'.sessions[x].sent, c) == Some(R.Members(w'.store, c))
    {
      CleanupOnlyRemoves(w.store, id, order, c, x);
      CleanupRefreshes(w.store, w1.registry, id, order, x, c);
      ViewConcat(w.sessions[x].sent, For(Cleanup(w.store, w1.registry, id, order).sends, x), c);
    }
  }

  lemma RemoveFromRegistryKeepsInv(w: World, id: ParticipantId, order: seq<RoomCode>)
    requires Inv(w) && id in w.sessions && R.Enumerates(order, w.store)
    ensures Inv(RemoveFromRegistry(w, id, order))
  {
    hide Recorded, SessionOk, MembersHaveSessions, ReplicasAgree, Cleanup, R.WellFormed;
    InvGives(w);
    if w.sessions[id].registered {
      CleanupIsRecorded(w.store, w.facts, Unregistered(w, id).registry, id, order);
      DisconnectKeepsSessions(w, id, order);
      DisconnectKeepsMembers(w, id, order);
      DisconnectKeepsReplicas(w, id, order);
    }
  }

  /** A failed write leaves its message at the front of the queue, and closing keeps it there. */
  lemma FailKeepsInv(w: World, id: ParticipantId, s: Session, order: seq<RoomCode>)
    requires Inv(w) && id in w.sessions && R.Enumerates(order, w.store)
    requires Inner(w.sessions[id], s) && QueueSafe(s.(closing := true))
    ensures Inv(Fail(w, id, s, order))
  {
    LocalKeepsInv(w, id, s.(closing := true));
    RemoveFromRegistryKeepsInv(Local(w, id, s.(closing := true)), id, order);
  }

  // ------------------------------------------------------------------
  // Messages
  // ------------------------------------------------------------------

  lemma ExplainedIsRecorded(s: R.Store, h: seq<Fact>, id: ParticipantId, r: Request, o: Dispatcher.Outcome, ch: Change)
    requires Recorded(s, h) && Explains(ch, s, id, r, o)
    ensures Recorded(o.store, h + FactsOf(r, o.response))
  {
    match ch
    case Opens(code, draw, p, secret) => OpeningIsRecorded(s, h, draw, p, secret);
    case Enters(code, p, supplied) => EnteringIsRecorded(s, h, code, p, supplied);
    case Leaves(code) => DepartingIsRecorded(s, h, code, id);
    case Nothing => assert h + [] == h;
  }

  lemma HandleIsRecorded(s: R.Store, h: seq<Fact>, registry: set<ParticipantId>, id: ParticipantId, m: Inbound,
      draws: seq<Draw>)
    requires Recorded(s, h)
    ensures var e := Handle(s, registry, id, m, draws); Recorded(e.store, h + e.facts)
  {
    if m.Text? && DecodeRequest(id, m.json).Accepted? {
      var r := DecodeRequest(id, m.json).request;
      AcceptedRequestsAreIssued(id, m.json);
      DispatchExplained(s, id, r, draws);
      ExplainedIsRecorded(s, h, id, r, Dispatcher.Dispatch(s, r, draws), ChangeOf(s, r, draws));
    } else {
      assert h + [] == h;
    }
  }

  /** Handling a message can bring only its sender into a room. */
  lemma HandleAddsOnlyTheSender(s: R.Store, registry: set<ParticipantId>, id: ParticipantId, m: Inbound,
      draws: seq<Draw>, c: RoomCode, x: ParticipantId)
    ensures var s' := Handle(s, registry, id, m, draws).store;
      Has(R.Members(s', c), x) ==> Has(R.Members(s, c), x) || x == id
  {
    if m.Text? && DecodeRequest(id, m.json).Accepted? {
      var r := DecodeRequest(id, m.json).request;
      AcceptedRequestsAreIssued(id, m.json);
      DispatchExplained(s, id, r, draws);
      var ch := ChangeOf(s, r, draws);
      if ch.Leaves? {
        WithoutMembers(s[ch.code].participants, id);
      }
    }
  }

  lemma AnsweredSessionOk(s: Session, m: Inbound, share: seq<Json>)
    requires SessionOk(s) && AnsweredOnce(share, m)
    ensures SessionOk(Post(s.(inbox := s.inbox + [m]), share))
  {
    PostKeepsQueueSafe(s.(inbox := s.inbox + [m]), share);
    RepliesConcat(s.sent, share);
    assert forall i :: 0 <= i < |s.inbox| ==> (s.inbox + [m])[i] == s.inbox[i];
  }

  lemma HandledKeepsSessions(w: World, id: ParticipantId, m: Inbound, draws: seq<Draw>)
    requires R.WellFormed(w.store) && id in w.sessions
    requires forall x :: x in w.sessions ==> SessionOk(w.sessions[x])
    ensures forall x :: x in w.sessions ==> SessionOk(Handled(w, id, m, draws).sessions[x])
  {
    hide Handle, SessionOk, R.WellFormed;
    forall x | x in w.sessions ensures SessionOk(Handled(w, id, m, draws).sessions[x]) {
      var share := For(Handle(w.store, w.registry, id, m, draws).sends, x);
      EveryMessageIsAnsweredOnce(w.store, w.registry, id, m, draws, x);
      assert SessionOk(w.sessions[x]);
      if x == id {
        AnsweredSessionOk(w.sessions[x], m, share);
      } else {
        PostedSessionOk(w.sessions[x], share);
      }
    }
  }

  lemma HandledKeepsMembers(w: World, id: ParticipantId, m: Inbound, draws: seq<Draw>)
    requires id in w.sessions && w.sessions[id].phase == Reading
    requires MembersHaveSessions(w)
    ensures MembersHaveSessions(Handled(w, id, m, draws))
  {
    hide Handle;
    var w' := Handled(w, id, m, draws);
    forall c, x | Has(R.Members(w'.store, c), x)
      ensures x in w'.sessions && w'.sessions[x].phase != Accepting
    {
      HandleAddsOnlyTheSender(w.store, w.registry, id, m, draws, c, x);
    }
  }

  lemma HandledKeepsReplicas(w: World, id: ParticipantId, m: Inbound, draws: seq<Draw>)
    requires R.WellFormed(w.store) && id in w.sessions
    requires ReplicasAgree(w)
    ensures ReplicasAgree(Handled(w, id, m, draws))
  {
    hide Handle, View, R.WellFormed;
    var w' := Handled(w, id, m, draws);
    forall c, x | Has(R.Members(w'.store, c), x) && x in w'.registry
      ensures x in w'.sessions && View(w'.sessions[x].sent, c) == Some(R.Members(w'.store, c))
    {
      HandledReplica(w, id, m, draws, c, x);
    }
  }

  lemma HandledReplica(w: World, id: ParticipantId, m: Inbound, draws: seq<Draw>, c: RoomCode, x: ParticipantId)
    requires R.WellFormed(w.store) && id in w.sessions
    requires ReplicasAgree(w)
    requires x in w.registry && Has(R.Members(Handled(w, id, m, draws).store, c), x)
    ensures var w' := Handled(w, id, m, draws);
      x in w'.sessions && View(w'.sessions[x].sent, c) == Some(R.Members(w'.store, c))
  {
    hide Handle, View, R.WellFormed;
    HandleAddsOnlyTheSender(w.store, w.registry, id, m, draws, c, x);
    HandleRefreshes(w.store, w.registry, id, m, draws, x, c);
    ViewConcat(w.sessions[x].sent, For(Handle(w.store, w.registry, id, m, draws).sends, x), c);
  }

  lemma HandledKeepsRegistry(w: World, id: ParticipantId, m: Inbound, draws: seq<Draw>)
    requires id in w.sessions && RegistryExact(w)
    ensures RegistryExact(Handled(w, id, m, draws))
  {
    hide Handle, For;
  }

  lemma HandledKeepsInv(w: World, id: ParticipantId, m: Inbound, draws: seq<Draw>)
    requires Inv(w) && id in w.sessions && w.sessions[id].phase == Reading
    ensures Inv(Handled(w, id, m, draws))
  {
    hide Recorded, SessionOk, MembersHaveSessions, ReplicasAgree, RegistryExact, Handle, R.WellFormed, For;
    InvGives(w);
    HandleIsRecorded(w.store, w.facts, w.registry, id, m, draws);
    HandledKeepsRegistry(w, id, m, draws);
    HandledKeepsSessions(w, id, m, draws);
    HandledKeepsMembers(w, id, m, draws);
    HandledKeepsReplicas(w, id, m, draws);
  }

  // ------------------------------------------------------------------
  // All steps
  // ------------------------------------------------------------------

  lemma StepKeepsInv(w: World, l: Label)
    requires Inv(w) && Enabled(w, l)
    ensures Inv(Step(w, l))
  {
    hide Inv, R.WellFormed, QueueSafe, R.Enumerates;
    InvGives(w);
    if !l.Connect? {
      ClosingKeepsQueueSafe(w.sessions[l.id], Halted);
    }
    match l
    case Connect(id) => ConnectKeepsInv(w, id);
    case AcceptDone(id, ok, order) =>
      if ok {
        AcceptKeepsInv(w, id);
      } else {
        FailKeepsInv(w, id, w.sessions[id].(phase := Halted), order);
      }
    case ReadClosed(id, order) =>
      var s' := w.sessions[id].(phase := Halted);
      LocalKeepsInv(w, id, s');
      RemoveFromRegistryKeepsInv(Local(w, id, s'), id, order);
    case ReadFailed(id, order) => FailKeepsInv(w, id, w.sessions[id].(phase := Halted), order);
    case ReadDone(id, m, draws) => HandledKeepsInv(w, id, m, draws);
    case WriteDone(id, ok, order) =>
      if ok {
        WriteSucceededKeepsQueueSafe(w.sessions[id]);
        LocalKeepsInv(w, id, WriteSucceeded(w.sessions[id]));
      } else {
        FailKeepsInv(w, id, WriteFailed(w.sessions[id]), order);
      }
    case CallClose(id) =>
      PostCloseKeepsQueueSafe(w.sessions[id]);
      LocalKeepsInv(w, id, w.sessions[id].(posted := w.sessions[id].posted + [CloseTask]));
    case RunPosted(id, order) =>
      var s := w.sessions[id];
      match s.posted[0] {
        case SendTask(m) =>
          RunSendKeepsQueueSafe(s, m);
          LocalKeepsInv(w, id, RunSend(s.(posted := s.posted[1..]), m));
        case CloseTask =>
          CloseRunKeepsInv(w, id, s.(posted := s.posted[1..]), order);
      }
  }

  lemma CloseRunKeepsInv(w: World, id: ParticipantId, s: Session, order: seq<RoomCode>)
    requires Inv(w) && id in w.sessions && R.Enumerates(order, w.store)
    requires Inner(w.sessions[id], s) && QueueSafe(s)
    ensures Inv(CloseRun(w, id, s, order))
  {
    if s.closing {
      LocalKeepsInv(w, id, s);
    } else {
      LocalKeepsInv(w, id, s.(closing := true));
      RemoveFromRegistryKeepsInv(Local(w, id, s.(closing := true)), id, order);
    }
  }

  lemma StartsOk()
    ensures Inv(START)
  {
    forall c ensures PasswordBacked(START.store, START.facts, c) {
    }
  }

  lemma {:induction false} EveryRunKeepsInv(ls: seq<Label>)
    requires Runs(ls)
    ensures Inv(After(ls))
    decreases |ls|
  {
    if ls == [] {
      StartsOk();
    } else {
      EveryRunKeepsInv(ls[..|ls| - 1]);
      StepKeepsInv(After(ls[..|ls| - 1]), ls[|ls| - 1]);
    }
  }
}
