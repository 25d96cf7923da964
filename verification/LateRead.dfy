/** What goes wrong when a message is read on a session whose cleanup has already run: neither the
    read completion nor the message handler looks at `closing` or `registered`. */
module LateRead {
  import opened Domain
  import opened Protocol
  import opened RoomCodes
  import opened Codec
  import opened CodecTheorems
  import opened Sessions
  import opened Server
  import opened ServerTheorems
  import R = RoomStore

  const GHOST: ParticipantId := "p_1"

  function Draws(): seq<Draw> {
    seq(MAX_ATTEMPTS, i => 0)
  }

  function CreateMessage(): Inbound {
    Text(EncodeRequest(Request(Meta(ControlMessageType.CreateRoom, None, None), CreateRoomCommand(Participant(GHOST, "x"), None))))
  }

  function Complaint(): Json {
    EncodeProtocolError(None, "invalid_message", None)
  }

  /** A session whose first reply could not be written: it has failed and is cleaned up, but the read
      that was outstanding meanwhile has yet to complete. */
  function FailedSession(): Session {
    Fresh().(phase := Reading, closing := true, queue := [Complaint()], sent := [Complaint()], inbox := [Binary],
             cleanups := 1, started := 1)
  }

  function Prefix(): seq<Label> {
    [ Connect(GHOST), AcceptDone(GHOST, true, []), ReadDone(GHOST, Binary, Draws()), RunPosted(GHOST, []),
      WriteDone(GHOST, false, []) ]
  }

  lemma NoRoomsNoDepartures(registry: set<ParticipantId>, id: ParticipantId)
    ensures Cleanup(map[], registry, id, []) == Effect(map[], [], [])
  {
  }

  function Only(registry: set<ParticipantId>, s: Session): World {
    World(map[], registry, map[GHOST := s], [])
  }

  lemma ComplaintPosted(s: Session)
    requires s.posted == [] && s.sent == []
    ensures PostAll(map[GHOST := s], [Delivery(GHOST, Complaint())])
         == map[GHOST := s.(posted := [SendTask(Complaint())], sent := [Complaint()])]
  {
    hide EncodeProtocolError;
    assert For([Delivery(GHOST, Complaint())], GHOST) == [Complaint()];
    assert Tasks([Complaint()]) == [SendTask(Complaint())];
    assert [] + [SendTask(Complaint())] == [SendTask(Complaint())] && [] + [Complaint()] == [Complaint()];
  }

  lemma BinaryIsAnswered(s: Session)
    requires s == Fresh().(phase := Reading, registered := true)
    ensures Enabled(Only({GHOST}, s), ReadDone(GHOST, Binary, Draws()))
    ensures Step(Only({GHOST}, s), ReadDone(GHOST, Binary, Draws()))
         == Only({GHOST}, s.(posted := [SendTask(Complaint())], sent := [Complaint()], inbox := [Binary]))
  {
    hide EncodeProtocolError, PostAll;
    var read := s.(inbox := [Binary]);
    assert s.inbox + [Binary] == [Binary];
    assert Local(Only({GHOST}, s), GHOST, read) == Only({GHOST}, read);
    ComplaintPosted(read);
  }

  lemma WriteStarts(s: Session)
    requires s.posted == [SendTask(Complaint())] && s.queue == [] && s.inFlight == [] && !s.closing && s.started == 0
    ensures Enabled(Only({GHOST}, s), RunPosted(GHOST, []))
    ensures Step(Only({GHOST}, s), RunPosted(GHOST, []))
         == Only({GHOST}, s.(posted := [], queue := [Complaint()], inFlight := [Complaint()], started := 1))
  {
    hide EncodeProtocolError;
    assert s.posted[1..] == [];
    assert [] + [Complaint()] == [Complaint()];
  }

  lemma WriteFails(s: Session)
    requires s == FailedSession().(registered := true, closing := false, inFlight := [Complaint()], cleanups := 0)
    ensures Enabled(Only({GHOST}, s), WriteDone(GHOST, false, []))
    ensures Step(Only({GHOST}, s), WriteDone(GHOST, false, [])) == Only({}, FailedSession())
  {
    hide EncodeProtocolError;
    NoRoomsNoDepartures({}, GHOST);
    assert s.inFlight[1..] == [];
    var w1 := Local(Only({GHOST}, s), GHOST, WriteFailed(s).(closing := true));
    var w2 := Unregistered(w1, GHOST);
    assert w2.registry == {};
    assert w2.sessions == map[GHOST := FailedSession()];
    assert Post(FailedSession(), []) == FailedSession();
    assert PostAll(w2.sessions, []) == w2.sessions;
  }

  lemma PrefixRuns()
    ensures Runs(Prefix()) && After(Prefix()) == Only({}, FailedSession())
  {
    hide Step, Enabled, Runs, After, EncodeProtocolError;
    var s2 := Fresh().(phase := Reading, registered := true);
    var s3 := s2.(posted := [SendTask(Complaint())], sent := [Complaint()], inbox := [Binary]);
    var s4 := s3.(posted := [], queue := [Complaint()], inFlight := [Complaint()], started := 1);
    ConnectsAndIsAccepted();
    var a := [Connect(GHOST), AcceptDone(GHOST, true, [])];
    BinaryIsAnswered(s2);
    RunGrows(a, ReadDone(GHOST, Binary, Draws()));
    WriteStarts(s3);
    RunGrows(a + [ReadDone(GHOST, Binary, Draws())], RunPosted(GHOST, []));
    WriteFails(s4);
    RunGrows(a + [ReadDone(GHOST, Binary, Draws())] + [RunPosted(GHOST, [])], WriteDone(GHOST, false, []));
    assert a + [ReadDone(GHOST, Binary, Draws())] + [RunPosted(GHOST, [])] + [WriteDone(GHOST, false, [])] == Prefix();
  }

  lemma ConnectsAndIsAccepted()
    ensures var ls := [Connect(GHOST), AcceptDone(GHOST, true, [])];
      Runs(ls) && After(ls) == Only({GHOST}, Fresh().(phase := Reading, registered := true))
  {
    assert Runs([]) && After([]) == START;
    RunGrows([], Connect(GHOST));
    assert [] + [Connect(GHOST)] == [Connect(GHOST)];
    RunGrows([Connect(GHOST)], AcceptDone(GHOST, true, []));
    assert [Connect(GHOST)] + [AcceptDone(GHOST, true, [])] == [Connect(GHOST), AcceptDone(GHOST, true, [])];
  }

  lemma GhostIsAdmitted(w: World)
    requires w == Only({}, FailedSession())
    ensures Enabled(w, ReadDone(GHOST, CreateMessage(), Draws()))
    ensures AdmitsUnregistered(w, ReadDone(GHOST, CreateMessage(), Draws()))
  {
    hide DecodeRequest, EncodeRequest;
    RequestRoundTrip(Request(Meta(ControlMessageType.CreateRoom, None, None), CreateRoomCommand(Participant(GHOST, "x"), None)), GHOST);
    assert R.FirstFree(map[], Draws(), 0) == 0;
  }

  /** The property that members are live is false of unrestricted runs: a session whose write has
      failed can still create a room with a read that had already completed, and then sits in it with
      nobody left to clean up. */
  lemma LateReadBreaksLiveness()
    ensures exists ls :: Runs(ls) && !MembersLive(After(ls))
  {
    hide AdmitsUnregistered, Step;
    PrefixRuns();
    var w := After(Prefix());
    var l := ReadDone(GHOST, CreateMessage(), Draws());
    assert MembersLive(w);
    GhostIsAdmitted(w);
    LivenessLostIff(w, l);
    RunGrows(Prefix(), l);
  }
}
