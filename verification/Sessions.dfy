/** One session's asynchronous life: the completions it waits for, the closures posted to its
    executor and its write queue. */
module Sessions {
  import opened Domain
  import opened Protocol

  /** The read-side operation that is outstanding. */
  datatype Phase = Accepting | Reading | Halted

  datatype Task = SendTask(message: Json) | CloseTask

  /** `posted` holds closures not yet run, `queue` is the write queue, `inFlight` the buffers of the
      outstanding writes. `sent`, `wire`, `inbox`, `cleanups` and `started` only record: messages
      handed to `Send`, writes completed, messages read, cleanups run, writes started. */
  datatype Session = Session(
    phase: Phase,
    registered: bool,
    closing: bool,
    posted: seq<Task>,
    queue: seq<Json>,
    inFlight: seq<Json>,
    sent: seq<Json>,
    wire: seq<Json>,
    inbox: seq<Inbound>,
    cleanups: nat,
    started: nat)

  function Fresh(): Session {
    Session(Accepting, false, false, [], [], [], [], [], [], 0, 0)
  }

  function Tasks(ms: seq<Json>): seq<Task> {
    seq(|ms|, i requires 0 <= i < |ms| => SendTask(ms[i]))
  }

  /** A number of `Send` calls in a row. */
  function Post(s: Session, ms: seq<Json>): Session {
    s.(posted := s.posted + Tasks(ms), sent := s.sent + ms)
  }

  function DoWrite(s: Session): Session {
    if s.queue == [] || s.closing then s
    else s.(inFlight := s.inFlight + [s.queue[0]], started := s.started + 1)
  }

  /** The closure that `Send` posts. */
  function RunSend(s: Session, m: Json): Session {
    var writing := s.queue != [];
    var s1 := s.(queue := s.queue + [m]);
    if writing then s1 else DoWrite(s1)
  }

  /** Completion of the oldest outstanding write without error. */
  function WriteSucceeded(s: Session): Session
    requires s.inFlight != []
  {
    var s1 := s.(
      wire := s.wire + [s.inFlight[0]],
      inFlight := s.inFlight[1..],
      queue := if s.queue == [] then [] else s.queue[1..]);
    if s1.queue != [] then DoWrite(s1) else s1
  }

  function WriteFailed(s: Session): Session
    requires s.inFlight != []
  {
    s.(inFlight := s.inFlight[1..])
  }

  /** The messages that posted closures still have to queue. */
  function Pending(ts: seq<Task>): seq<Json> {
    if ts == [] then []
    else (if ts[0].SendTask? then [ts[0].message] else []) + Pending(ts[1..])
  }

  // ------------------------------------------------------------------
  // Write-queue safety
  // ------------------------------------------------------------------

  /** At most one write is outstanding and it writes the queue's front; until closing, a write is
      outstanding exactly while the queue is non-empty; and no message is lost, duplicated or
      overtaken between `Send` and the wire. */
  ghost predicate QueueSafe(s: Session) {
    && |s.inFlight| <= 1
    && (s.inFlight != [] ==> s.queue != [] && s.inFlight[0] == s.queue[0])
    && (!s.closing ==> (s.inFlight != [] <==> s.queue != []))
    && s.sent == s.wire + s.queue + Pending(s.posted)
  }

  lemma {:induction false} PendingConcat(a: seq<Task>, b: seq<Task>)
    ensures Pending(a + b) == Pending(a) + Pending(b)
  {
    if a == [] {
      assert a + b == b;
    } else {
      hide Pending;
      PendingConcat(a[1..], b);
      FirstPending(a);
      FirstPending(a + b);
      ConcatTail(a, b);
      ConcatAssociates(if a[0].SendTask? then [a[0].message] else [], Pending(a[1..]), Pending(b));
    }
  }

  lemma FirstPending(ts: seq<Task>)
    requires ts != []
    ensures Pending(ts) == (if ts[0].SendTask? then [ts[0].message] else []) + Pending(ts[1..])
  {
  }

  lemma {:induction false} PendingTasks(ms: seq<Json>)
    ensures Pending(Tasks(ms)) == ms
  {
    if ms != [] {
      assert Tasks(ms)[1..] == Tasks(ms[1..]);
      PendingTasks(ms[1..]);
    }
  }

  lemma PostKeepsQueueSafe(s: Session, ms: seq<Json>)
    requires QueueSafe(s)
    ensures QueueSafe(Post(s, ms))
  {
    PendingConcat(s.posted, Tasks(ms));
    PendingTasks(ms);
    assert s.wire + s.queue + (Pending(s.posted) + ms) == s.wire + s.queue + Pending(s.posted) + ms;
  }

  lemma PostCloseKeepsQueueSafe(s: Session)
    requires QueueSafe(s)
    ensures QueueSafe(s.(posted := s.posted + [CloseTask]))
  {
    PendingConcat(s.posted, [CloseTask]);
    assert Pending([CloseTask]) == [];
  }

  lemma RunSendKeepsQueueSafe(s: Session, m: Json)
    requires QueueSafe(s) && s.posted != [] && s.posted[0] == SendTask(m)
    ensures QueueSafe(RunSend(s.(posted := s.posted[1..]), m))
  {
    assert s.wire + (s.queue + [m]) + Pending(s.posted[1..]) == s.wire + s.queue + ([m] + Pending(s.posted[1..]));
  }

  lemma WriteSucceededKeepsQueueSafe(s: Session)
    requires QueueSafe(s) && s.inFlight != []
    ensures QueueSafe(WriteSucceeded(s))
    ensures WriteSucceeded(s).wire == s.wire + [s.queue[0]]
  {
    assert s.queue == [s.queue[0]] + s.queue[1..];
    assert s.wire + [s.queue[0]] + s.queue[1..] == s.wire + s.queue;
  }

  /** After a failed write the message stays queued; closing excuses the missing write. */
  lemma ClosingKeepsQueueSafe(s: Session, phase: Phase)
    requires QueueSafe(s)
    ensures QueueSafe(s.(phase := phase)) && QueueSafe(s.(phase := phase, closing := true))
    ensures s.inFlight != [] ==> QueueSafe(WriteFailed(s).(closing := true))
    ensures s.posted != [] && s.posted[0].CloseTask? ==> QueueSafe(s.(posted := s.posted[1..]))
  {
    if s.posted != [] && s.posted[0].CloseTask? {
      assert Pending(s.posted) == [] + Pending(s.posted[1..]);
    }
  }
}
