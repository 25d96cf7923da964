/** The public record of a run, written from requests and their outcomes alone, and what it tells
    about the stored rooms. */
module History {
  import opened Domain
  import opened Protocol
  import opened RoomCodes
  import R = RoomStore

  datatype Fact =
    | Opened(code: RoomCode, participant: Participant, supplied: Option<RoomSecret>)
    | Entered(code: RoomCode, participant: Participant, supplied: Option<RoomSecret>)
    | Departed(code: RoomCode, id: ParticipantId)

  /** What a response to a request says has happened. */
  function FactsOf(r: Request, response: Response): seq<Fact> {
    if response.Failed? then []
    else
      match (response.payload, r.command)
      case (RoomCreated(code, p, _), CreateRoomCommand(_, password)) => [Opened(code, p, password)]
      case (RoomJoined(code, p, _), JoinRoomCommand(_, _, password)) => [Entered(code, p, password)]
      case (RoomLeft(code), LeaveRoomCommand(_, id)) => [Departed(code, id)]
      case _ => []
  }

  /** What the events of a disconnect say has happened. */
  function DepartureFacts(events: seq<Event>): seq<Fact> {
    if events == [] then []
    else (if events[0].LeftRoomEvent? then [Departed(events[0].code, events[0].left)] else []) + DepartureFacts(events[1..])
  }

  /** An observer's list for one room: a creation starts it anew, a join appends, a leave filters. */
  function Replay(h: seq<Fact>, c: RoomCode): seq<Participant> {
    if h == [] then [] else Observed(Replay(h[..|h| - 1], c), h[|h| - 1], c)
  }

  function Observed(before: seq<Participant>, f: Fact, c: RoomCode): seq<Participant> {
    if f.code != c then before
    else
      match f
      case Opened(_, p, _) => [p]
      case Entered(_, p, _) => before + [p]
      case Departed(_, id) => Without(before, id)
  }

  /** Arrivals minus departures. */
  function Balance(h: seq<Fact>): int {
    if h == [] then 0
    else Balance(h[..|h| - 1]) + (if h[|h| - 1].Departed? then -1 else 1)
  }

  /** The sum of all room sizes. */
  ghost function TotalMembers(s: R.Store): nat {
    if s == map[] then 0
    else
      var c :| c in s;
      |s[c].participants| + TotalMembers(s - {c})
  }

  /** Room `c` was opened at record `k`, and not again since. */
  ghost predicate OpenedAt(h: seq<Fact>, c: RoomCode, k: nat) {
    && k < |h|
    && h[k].Opened? && h[k].code == c
    && forall j :: k < j < |h| ==> !(h[j].Opened? && h[j].code == c)
  }

  /** Record `i` let `id` into room `c`, and `id` has not left since. */
  ghost predicate LetIn(h: seq<Fact>, c: RoomCode, id: ParticipantId, i: nat) {
    && i < |h|
    && !h[i].Departed? && h[i].code == c && h[i].participant.id == id
    && forall j :: i < j < |h| ==> h[j] != Departed(c, id)
  }

  ghost predicate Backed(h: seq<Fact>, c: RoomCode, secret: Option<RoomSecret>, id: ParticipantId, k: nat) {
    exists i: nat :: k <= i && LetIn(h, c, id, i) && Admits(secret, h[i].supplied)
  }

  /** The secret is the one the current incarnation was opened with, and every member got in by a
      request of this incarnation that supplied it. */
  ghost predicate PasswordBacked(s: R.Store, h: seq<Fact>, c: RoomCode) {
    c in s ==>
      exists k: nat ::
        && OpenedAt(h, c, k)
        && h[k].supplied == s[c].secret
        && forall id :: Has(s[c].participants, id) ==> Backed(h, c, s[c].secret, id, k)
  }

  ghost predicate Recorded(s: R.Store, h: seq<Fact>) {
    && R.WellFormed(s)
    && R.NoEmptyRooms(s)
    && (forall c :: Replay(h, c) == R.Members(s, c))
    && TotalMembers(s) == Balance(h)
    && (forall c :: PasswordBacked(s, h, c))
  }

  // ------------------------------------------------------------------
  // Sums over rooms
  // ------------------------------------------------------------------

  lemma {:induction false} TotalSplits(s: R.Store, c: RoomCode)
    requires c in s
    ensures TotalMembers(s) == |s[c].participants| + TotalMembers(s - {c})
    decreases |s|
  {
    var d :| d in s && TotalMembers(s) == |s[d].participants| + TotalMembers(s - {d});
    if c != d {
      TotalSplits(s - {d}, c);
      TotalSplits(s - {c}, d);
      assert s - {c} - {d} == s - {d} - {c};
    }
  }

  lemma TotalAfterChange(s: R.Store, c: RoomCode, room: Room)
    ensures TotalMembers(s[c := room]) == TotalMembers(s) - |R.Members(s, c)| + |room.participants|
  {
    TotalSplits(s[c := room], c);
    if c in s {
      TotalSplits(s, c);
      assert s[c := room] - {c} == s - {c};
    } else {
      assert s[c := room] - {c} == s;
    }
  }

  lemma TotalAfterErase(s: R.Store, c: RoomCode)
    ensures TotalMembers(s - {c}) == TotalMembers(s) - |R.Members(s, c)|
  {
    if c in s {
      TotalSplits(s, c);
    } else {
      assert s - {c} == s;
    }
  }

  // ------------------------------------------------------------------
  // One more record
  // ------------------------------------------------------------------

  lemma RecordAppended(h: seq<Fact>, f: Fact)
    ensures forall c :: Replay(h + [f], c) == Observed(Replay(h, c), f, c)
    ensures Balance(h + [f]) == Balance(h) + if f.Departed? then -1 else 1
  {
    assert (h + [f])[..|h|] == h;
  }

  /** Records about other rooms, and later joins of the same room, leave an old member's backing
      alone; so does anybody else's departure. */
  lemma BackingSurvives(s: R.Store, s': R.Store, h: seq<Fact>, f: Fact, c: RoomCode)
    requires c in s && c in s' && s'[c].secret == s[c].secret
    requires PasswordBacked(s, h, c)
    requires !(f.Opened? && f.code == c)
    requires forall id :: Has(s'[c].participants, id) ==>
      (Has(s[c].participants, id) && f != Departed(c, id)) || (f.Entered? && f.code == c && f.participant.id == id && Admits(s[c].secret, f.supplied))
    ensures PasswordBacked(s', h + [f], c)
  {
    var k: nat :| OpenedAt(h, c, k) && h[k].supplied == s[c].secret
               && forall id :: Has(s[c].participants, id) ==> Backed(h, c, s[c].secret, id, k);
    assert OpenedAt(h + [f], c, k);
    forall id | Has(s'[c].participants, id)
      ensures Backed(h + [f], c, s[c].secret, id, k)
    {
      if Has(s[c].participants, id) && f != Departed(c, id) {
        assert Backed(h, c, s[c].secret, id, k);
        var i: nat :| k <= i && LetIn(h, c, id, i) && Admits(s[c].secret, h[i].supplied);
        assert LetIn(h + [f], c, id, i);
      } else {
        assert LetIn(h + [f], c, id, |h|);
      }
    }
  }

  lemma OpeningKeepsBacking(s: R.Store, h: seq<Fact>, c: RoomCode, p: Participant, secret: Option<RoomSecret>,
      d: RoomCode)
    requires c !in s && PasswordBacked(s, h, d)
    ensures PasswordBacked(s[c := Room(c, secret, [p])], h + [Opened(c, p, secret)], d)
  {
    var f := Opened(c, p, secret);
    if d == c {
      assert OpenedAt(h + [f], c, |h|);
      assert LetIn(h + [f], c, p.id, |h|);
      assert Backed(h + [f], c, secret, p.id, |h|);
    } else if d in s {
      BackingSurvives(s, s[c := Room(c, secret, [p])], h, f, d);
    }
  }

  lemma OpeningIsRecorded(s: R.Store, h: seq<Fact>, n: Draw, p: Participant, secret: Option<RoomSecret>)
    requires Recorded(s, h) && FormatCode(n) !in s
    ensures Recorded(s[FormatCode(n) := Room(FormatCode(n), secret, [p])], h + [Opened(FormatCode(n), p, secret)])
  {
    hide PasswordBacked, R.WellFormed, FormatCode, Replay;
    var c := FormatCode(n);
    var f := Opened(c, p, secret);
    var s' := s[c := Room(c, secret, [p])];
    R.OpeningKeepsWellFormed(s, n, p, secret);
    RecordAppended(h, f);
    TotalAfterChange(s, c, s'[c]);
    forall d ensures PasswordBacked(s', h + [f], d) {
      OpeningKeepsBacking(s, h, c, p, secret, d);
    }
  }

  lemma EnteringKeepsBacking(s: R.Store, h: seq<Fact>, c: RoomCode, p: Participant, supplied: Option<RoomSecret>,
      d: RoomCode)
    requires R.CanJoin(s, c, p.id, supplied) && PasswordBacked(s, h, d)
    ensures PasswordBacked(R.JoinCommitted(s, c, p, supplied), h + [Entered(c, p, supplied)], d)
  {
    if d in s {
      BackingSurvives(s, R.JoinCommitted(s, c, p, supplied), h, Entered(c, p, supplied), d);
    }
  }

  lemma EnteringIsRecorded(s: R.Store, h: seq<Fact>, c: RoomCode, p: Participant, supplied: Option<RoomSecret>)
    requires Recorded(s, h) && R.CanJoin(s, c, p.id, supplied)
    ensures Recorded(R.JoinCommitted(s, c, p, supplied), h + [Entered(c, p, supplied)])
  {
    hide PasswordBacked, R.WellFormed, Replay;
    var f := Entered(c, p, supplied);
    var s' := R.JoinCommitted(s, c, p, supplied);
    R.JoinKeepsWellFormed(s, c, p, supplied);
    RecordAppended(h, f);
    TotalAfterChange(s, c, s'[c]);
    forall d ensures PasswordBacked(s', h + [f], d) {
      EnteringKeepsBacking(s, h, c, p, supplied, d);
    }
  }

  lemma DepartureCounts(s: R.Store, c: RoomCode, id: ParticipantId)
    requires R.WellFormed(s) && R.InRoom(s, id, c)
    ensures TotalMembers(R.LeaveRoom(s, c, id).0) == TotalMembers(s) - 1
    ensures forall d :: R.Members(R.LeaveRoom(s, c, id).0, d) == if d == c then Without(R.Members(s, c), id) else R.Members(s, d)
  {
    var s1 := R.LeaveCommitted(s, c, id);
    WithoutDistinct(s[c].participants, id);
    TotalAfterChange(s, c, s1[c]);
    TotalAfterErase(s1, c);
  }

  lemma DepartureKeepsBacking(s: R.Store, h: seq<Fact>, c: RoomCode, id: ParticipantId, d: RoomCode)
    requires R.InRoom(s, id, c) && PasswordBacked(s, h, d)
    ensures PasswordBacked(R.LeaveRoom(s, c, id).0, h + [Departed(c, id)], d)
  {
    var s' := R.LeaveRoom(s, c, id).0;
    if d in s' {
      WithoutMembers(s[c].participants, id);
      BackingSurvives(s, s', h, Departed(c, id), d);
    }
  }

  lemma DepartingIsRecorded(s: R.Store, h: seq<Fact>, c: RoomCode, id: ParticipantId)
    requires Recorded(s, h) && R.InRoom(s, id, c)
    ensures Recorded(R.LeaveRoom(s, c, id).0, h + [Departed(c, id)])
  {
    R.LeaveKeepsWellFormed(s, c, id);
    DepartureCounts(s, c, id);
    RecordAppended(h, Departed(c, id));
    forall d ensures PasswordBacked(R.LeaveRoom(s, c, id).0, h + [Departed(c, id)], d) {
      DepartureKeepsBacking(s, h, c, id, d);
    }
  }

  /** A whole sweep, one departure after the other. */
  lemma {:induction false} SweepIsRecorded(s: R.Store, h: seq<Fact>, codes: seq<RoomCode>, id: ParticipantId)
    requires Recorded(s, h)
    ensures Recorded(R.LeaveAll(s, codes, id).0, h + DeparturesFrom(R.LeaveAll(s, codes, id).1))
    decreases |codes|
  {
    hide Recorded;
    if codes == [] {
      assert h + [] == h;
    } else {
      var (s1, r) := R.LeaveRoom(s, codes[0], id);
      var left := R.LeaveAll(s1, codes[1..], id).1;
      if r.Ok? {
        DepartingIsRecorded(s, h, codes[0], id);
        SweepIsRecorded(s1, h + [Departed(codes[0], id)], codes[1..], id);
        assert ([r.value] + left)[1..] == left;
        assert h + ([Departed(codes[0], id)] + DeparturesFrom(left)) == h + [Departed(codes[0], id)] + DeparturesFrom(left);
      } else {
        SweepIsRecorded(s, h, codes[1..], id);
      }
    }
  }

  function DeparturesFrom(left: seq<R.LeftRoom>): seq<Fact> {
    if left == [] then [] else [Departed(left[0].code, left[0].id)] + DeparturesFrom(left[1..])
  }
}
