/** What holds over whole runs of the server, for every interleaving of completions, every message
    and every draw. */
module ServerTheorems {
  import opened Domain
  import opened Protocol
  import opened RoomCodes
  import opened Codec
  import opened CodecTheorems
  import opened Sessions
  import opened History
  import opened Server
  import opened Deliveries
  import opened ServerInvariant
  import R = RoomStore

  // ------------------------------------------------------------------
  // Rooms and their history
  // ------------------------------------------------------------------

  /** Replaying the reported creations, joins and leaves reproduces every room's list exactly, and
      an absent room's list is empty. */
  lemma EventReplay(ls: seq<Label>, c: RoomCode)
    requires Runs(ls)
    ensures Replay(After(ls).facts, c) == R.Members(After(ls).store, c)
  {
    EveryRunKeepsInv(ls);
  }

  /** The sum of room sizes is arrivals minus departures, disconnects included. */
  lemma Conservation(ls: seq<Label>)
    requires Runs(ls)
    ensures TotalMembers(After(ls).store) == Balance(After(ls).facts)
  {
    EveryRunKeepsInv(ls);
  }

  /** A room's secret is that of its current incarnation's opening, and every member was let in
      during that incarnation by a request that supplied it. */
  lemma PasswordBackedMembership(ls: seq<Label>, c: RoomCode)
    requires Runs(ls)
    ensures PasswordBacked(After(ls).store, After(ls).facts, c)
  {
    EveryRunKeepsInv(ls);
  }

  /** Between handlers no room is empty, none is listed under a foreign code, nobody is listed
      twice, and there are at most a million rooms. */
  lemma StoreIsSound(ls: seq<Label>)
    requires Runs(ls)
    ensures R.WellFormed(After(ls).store) && R.NoEmptyRooms(After(ls).store)
    ensures |After(ls).store| <= 1_000_000
  {
    EveryRunKeepsInv(ls);
    CodeSpaceBound(After(ls).store.Keys);
  }

  // ------------------------------------------------------------------
  // Replicas
  // ------------------------------------------------------------------

  /** The latest list about a room that was sent to any of its registered members is the room's
      list, in order; and once that member's messages are all written, so is the latest list on the
      wire. */
  lemma ReplicaAgreement(ls: seq<Label>, c: RoomCode, x: ParticipantId)
    requires Runs(ls)
    requires x in After(ls).registry && R.InRoom(After(ls).store, x, c)
    ensures x in After(ls).sessions
    ensures var s := After(ls).sessions[x];
      && View(s.sent, c) == Some(After(ls).store[c].participants)
      && (s.queue == [] && s.posted == [] ==> View(s.wire, c) == Some(After(ls).store[c].participants))
  {
    EveryRunKeepsInv(ls);
    assert Has(R.Members(After(ls).store, c), x);
    EverySessionOk(ls, x);
    if After(ls).sessions[x].queue == [] && After(ls).sessions[x].posted == [] {
      DrainedMeansWritten(After(ls).sessions[x]);
    }
  }

  lemma DrainedMeansWritten(s: Session)
    requires QueueSafe(s) && s.queue == [] && s.posted == []
    ensures s.wire == s.sent
  {
  }

  // ------------------------------------------------------------------
  // Requests and replies
  // ------------------------------------------------------------------

  lemma {:induction false} RepliesOfPrefix(a: seq<Json>, b: seq<Json>)
    ensures Replies(a) <= Replies(a + b)
  {
    RepliesConcat(a, b);
  }

  /** Every message read so far has exactly one reply, in order, with the request id and type it
      calls for; the replies on the wire are the first of these. */
  lemma OrderedReplies(ls: seq<Label>, id: ParticipantId)
    requires Runs(ls) && id in After(ls).sessions
    ensures var s := After(ls).sessions[id];
      && |Replies(s.sent)| == |s.inbox|
      && |Replies(s.wire)| <= |s.inbox|
      && (forall i :: 0 <= i < |s.inbox| ==> Answers(Replies(s.sent)[i], s.inbox[i]))
      && (forall i :: 0 <= i < |Replies(s.wire)| ==> Answers(Replies(s.wire)[i], s.inbox[i]))
  {
    EverySessionOk(ls, id);
    RepliesOnTheWire(After(ls).sessions[id]);
  }

  lemma RepliesOnTheWire(s: Session)
    requires QueueSafe(s)
    ensures Replies(s.wire) <= Replies(s.sent)
  {
    RepliesOfPrefix(s.wire, s.queue + Pending(s.posted));
    assert s.wire + (s.queue + Pending(s.posted)) == s.sent;
  }

  lemma EverySessionOk(ls: seq<Label>, id: ParticipantId)
    requires Runs(ls) && id in After(ls).sessions
    ensures SessionOk(After(ls).sessions[id])
  {
    EveryRunKeepsInv(ls);
  }

  // ------------------------------------------------------------------
  // Write queue and lifecycle
  // ------------------------------------------------------------------

  lemma WriteQueueSafety(ls: seq<Label>, id: ParticipantId)
    requires Runs(ls) && id in After(ls).sessions
    ensures QueueSafe(After(ls).sessions[id])
    ensures After(ls).sessions[id].cleanups <= 1
  {
    EverySessionOk(ls, id);
  }

  ghost predicate SameWriting(s: Session, s': Session) {
    && s'.closing
    && s'.started == s.started
    && (s'.inFlight == s.inFlight || (s.inFlight != [] && s'.inFlight == s.inFlight[1..]))
  }

  lemma RemovalStartsNoWrite(w: World, id: ParticipantId, s: Session, order: seq<RoomCode>, x: ParticipantId)
    requires id in w.sessions && x in w.sessions && w.sessions[x].closing
    requires x == id ==> SameWriting(w.sessions[x], s)
    ensures x in RemoveFromRegistry(Local(w, id, s), id, order).sessions
    ensures SameWriting(w.sessions[x], RemoveFromRegistry(Local(w, id, s), id, order).sessions[x])
  {
    hide Cleanup, For;
  }

  lemma ClosingStepStartsNoWrite(w: World, l: Label, x: ParticipantId)
    requires Enabled(w, l) && x in w.sessions && w.sessions[x].closing
    ensures x in Step(w, l).sessions && SameWriting(w.sessions[x], Step(w, l).sessions[x])
  {
    hide Handle, For, R.Enumerates, RemoveFromRegistry;
    match l
    case Connect(_) =>
    case AcceptDone(id, ok, order) =>
      if !ok {
        RemovalStartsNoWrite(w, id, w.sessions[id].(phase := Halted, closing := true), order, x);
      }
    case ReadClosed(id, order) => RemovalStartsNoWrite(w, id, w.sessions[id].(phase := Halted), order, x);
    case ReadFailed(id, order) => RemovalStartsNoWrite(w, id, w.sessions[id].(phase := Halted, closing := true), order, x);
    case ReadDone(_, _, _) =>
    case WriteDone(id, ok, order) =>
      if !ok {
        RemovalStartsNoWrite(w, id, WriteFailed(w.sessions[id]).(closing := true), order, x);
      }
    case CallClose(_) =>
    case RunPosted(id, order) =>
      var s := w.sessions[id].(posted := w.sessions[id].posted[1..]);
      if w.sessions[id].posted[0].CloseTask? && !s.closing {
        RemovalStartsNoWrite(w, id, s.(closing := true), order, x);
      }
  }

  /** Once a session is closing it stays so, and however the run goes on it starts no write. */
  lemma {:induction false} NoWriteStartsOnceClosing(ls: seq<Label>, more: seq<Label>, id: ParticipantId)
    requires Runs(ls) && Runs(ls + more)
    requires id in After(ls).sessions && After(ls).sessions[id].closing
    ensures id in After(ls + more).sessions && After(ls + more).sessions[id].closing
    ensures After(ls + more).sessions[id].started == After(ls).sessions[id].started
    ensures |After(ls + more).sessions[id].inFlight| <= |After(ls).sessions[id].inFlight|
    decreases |more|
  {
    hide Step, Enabled, Runs, After;
    if more == [] {
      assert ls + more == ls;
    } else {
      var shorter := more[..|more| - 1];
      assert ls + more == ls + shorter + [more[|more| - 1]];
      RunGrows(ls + shorter, more[|more| - 1]);
      NoWriteStartsOnceClosing(ls, shorter, id);
      ClosingStepStartsNoWrite(After(ls + shorter), more[|more| - 1], id);
    }
  }

  // ------------------------------------------------------------------
  // Members are live
  // ------------------------------------------------------------------

  ghost predicate MembersLive(w: World) {
    forall c, x :: Has(R.Members(w.store, c), x) ==> x in w.registry
  }

  /** The one step that can put somebody without a registered session into a room: a message is
      read on a session whose cleanup has already run, and it asks for a room that admits it. */
  ghost predicate AdmitsUnregistered(w: World, l: Label) {
    && l.ReadDone?
    && l.id !in w.registry
    && l.message.Text?
    && DecodeRequest(l.id, l.message.json).Accepted?
    && var ch := ChangeOf(w.store, DecodeRequest(l.id, l.message.json).request, l.draws);
       ch.Opens? || ch.Enters?
  }

  lemma QuietHandlingKeepsMembers(s: R.Store, registry: set<ParticipantId>, id: ParticipantId, m: Inbound,
      draws: seq<Draw>, c: RoomCode, x: ParticipantId)
    requires !(m.Text? && DecodeRequest(id, m.json).Accepted?
               && var ch := ChangeOf(s, DecodeRequest(id, m.json).request, draws); ch.Opens? || ch.Enters?)
    ensures Has(R.Members(Handle(s, registry, id, m, draws).store, c), x) ==> Has(R.Members(s, c), x)
  {
    if m.Text? && DecodeRequest(id, m.json).Accepted? {
      var r := DecodeRequest(id, m.json).request;
      AcceptedRequestsAreIssued(id, m.json);
      DispatchExplained(s, id, r, draws);
      var ch := ChangeOf(s, r, draws);
      if ch.Leaves? {
        WithoutMembers(s[ch.code].participants, id);
      }
    }
  }

  lemma AdmissionAddsSender(w: World, l: Label)
    requires Enabled(w, l) && AdmitsUnregistered(w, l)
    ensures exists c :: Has(R.Members(Step(w, l).store, c), l.id)
    ensures Step(w, l).registry == w.registry
  {
    var r := DecodeRequest(l.id, l.message.json).request;
    AcceptedRequestsAreIssued(l.id, l.message.json);
    DispatchExplained(w.store, l.id, r, l.draws);
    var ch := ChangeOf(w.store, r, l.draws);
    assert ch.p in R.Members(Step(w, l).store, ch.code);
  }

  lemma ReadDoneLive(w: World, l: Label)
    requires Enabled(w, l) && l.ReadDone? && MembersLive(w) && !AdmitsUnregistered(w, l)
    ensures MembersLive(Step(w, l))
  {
    forall c, x | Has(R.Members(Step(w, l).store, c), x) ensures x in w.registry {
      if l.id in w.registry {
        HandleAddsOnlyTheSender(w.store, w.registry, l.id, l.message, l.draws, c, x);
      } else {
        QuietHandlingKeepsMembers(w.store, w.registry, l.id, l.message, l.draws, c, x);
      }
    }
  }

  lemma DisconnectLive(w: World, id: ParticipantId, order: seq<RoomCode>)
    requires id in w.sessions && R.Enumerates(order, w.store) && MembersLive(w)
    ensures MembersLive(RemoveFromRegistry(w, id, order))
  {
    if w.sessions[id].registered {
      forall c, x | Has(R.Members(Disconnected(w, id, order).store, c), x)
        ensures x in Disconnected(w, id, order).registry
      {
        CleanupOnlyRemoves(w.store, id, order, c, x);
      }
    }
  }

  /** Exactly one kind of step makes a member unreachable. */
  lemma LivenessLostIff(w: World, l: Label)
    requires MembersLive(w) && Enabled(w, l)
    ensures MembersLive(Step(w, l)) <==> !AdmitsUnregistered(w, l)
  {
    hide Handle, Cleanup;
    if AdmitsUnregistered(w, l) {
      AdmissionAddsSender(w, l);
    } else {
      match l
      case Connect(_) =>
      case AcceptDone(id, ok, order) =>
        if !ok {
          DisconnectLive(Local(w, id, w.sessions[id].(phase := Halted, closing := true)), id, order);
        }
      case ReadClosed(id, order) => DisconnectLive(Local(w, id, w.sessions[id].(phase := Halted)), id, order);
      case ReadFailed(id, order) => DisconnectLive(Local(w, id, w.sessions[id].(phase := Halted, closing := true)), id, order);
      case ReadDone(_, _, _) => ReadDoneLive(w, l);
      case WriteDone(id, ok, order) =>
        if !ok {
          DisconnectLive(Local(w, id, WriteFailed(w.sessions[id]).(closing := true)), id, order);
        }
      case CallClose(_) =>
      case RunPosted(id, order) =>
        var s := w.sessions[id].(posted := w.sessions[id].posted[1..], closing := true);
        if w.sessions[id].posted[0].CloseTask? && !w.sessions[id].closing {
          DisconnectLive(Local(w, id, s), id, order);
        }
    }
  }

  /** Members are live in every state of the run. */
  ghost predicate LiveThroughout(ls: seq<Label>)
    requires Runs(ls)
    decreases |ls|
  {
    MembersLive(After(ls)) && (ls == [] || LiveThroughout(ls[..|ls| - 1]))
  }

  ghost predicate NeverAdmitsUnregistered(ls: seq<Label>)
    requires Runs(ls)
    decreases |ls|
  {
    ls == [] ||
    (var before := ls[..|ls| - 1];
     NeverAdmitsUnregistered(before) && !AdmitsUnregistered(After(before), ls[|ls| - 1]))
  }

  /** Over whole runs: members are live throughout exactly when that step never happens. */
  lemma {:induction false} LiveThroughoutIff(ls: seq<Label>)
    requires Runs(ls)
    ensures LiveThroughout(ls) <==> NeverAdmitsUnregistered(ls)
    decreases |ls|
  {
    if ls != [] {
      var before := ls[..|ls| - 1];
      LiveThroughoutIff(before);
      if MembersLive(After(before)) {
        LivenessLostIff(After(before), ls[|ls| - 1]);
      }
    }
  }

  /** In such runs every room member has a registered session, in every state. */
  lemma MembersAreLive(ls: seq<Label>)
    requires Runs(ls) && NeverAdmitsUnregistered(ls)
    ensures MembersLive(After(ls))
  {
    LiveThroughoutIff(ls);
  }

  /** Hence every member of every room shows exactly the room's list. */
  lemma FullReplicaAgreement(ls: seq<Label>, c: RoomCode, x: ParticipantId)
    requires Runs(ls) && NeverAdmitsUnregistered(ls) && R.InRoom(After(ls).store, x, c)
    ensures x in After(ls).sessions
    ensures View(After(ls).sessions[x].sent, c) == Some(After(ls).store[c].participants)
  {
    MembersAreLive(ls);
    assert Has(R.Members(After(ls).store, c), x);
    ReplicaAgreement(ls, c, x);
  }

  /** Runs in which no message at all is read on a session after its cleanup. */
  ghost predicate Disciplined(ls: seq<Label>)
    requires Runs(ls)
    decreases |ls|
  {
    ls == [] ||
    (var before, l := ls[..|ls| - 1], ls[|ls| - 1];
     Disciplined(before) && (l.ReadDone? ==> l.id in After(before).registry))
  }

  /** A transport that delivers nothing after its session's cleanup is enough. */
  lemma {:induction false} DisciplineSuffices(ls: seq<Label>)
    requires Runs(ls) && Disciplined(ls)
    ensures NeverAdmitsUnregistered(ls)
    decreases |ls|
  {
    if ls != [] {
      DisciplineSuffices(ls[..|ls| - 1]);
    }
  }
}
