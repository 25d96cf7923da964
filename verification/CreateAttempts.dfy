/** How often a thread that creates a room tries, whatever the other threads do meanwhile. */
module CreateAttempts {
  import opened Domain
  import opened RoomCodes
  import opened Interleaving

  /** The thread enters no other use case during the run. */
  ghost predicate BeginsNothing(ls: seq<Label>, t: Thread) {
    forall l :: l in ls ==> !(l.Begin? && l.t == t)
  }

  /** The calls that the thread itself makes. */
  function Calls(ls: seq<Label>, t: Thread): nat {
    if ls == [] then 0 else (if ls[0].Tick? && ls[0].t == t then 1 else 0) + Calls(ls[1..], t)
  }

  /** Each of these calls drew a code that was taken at that moment. */
  ghost predicate AlwaysTaken(s: State, ls: seq<Label>, t: Thread)
    requires Runs(s, ls)
    decreases |ls|
  {
    ls == [] ||
    ((ls[0].Tick? && ls[0].t == t ==> FormatCode(ls[0].draw) in s.store) && AlwaysTaken(Step(s, ls[0]), ls[1..], t))
  }

  /** Label `k` of the run is the thread's call that opens its room. */
  ghost predicate OpensAt(s: State, ls: seq<Label>, t: Thread, k: nat)
    requires Runs(s, ls)
    decreases |ls|
  {
    k < |ls| &&
    (if k == 0 then ls[0].t == t && ls[0].Tick? && Opens(s, ls[0], FormatCode(ls[0].draw))
     else OpensAt(Step(s, ls[0]), ls[1..], t, k - 1))
  }

  lemma {:induction false} GoneStaysGone(s: State, ls: seq<Label>, t: Thread)
    requires Runs(s, ls) && t !in s.pcs && BeginsNothing(ls, t)
    ensures Calls(ls, t) == 0 && t !in Exec(s, ls).pcs && AlwaysTaken(s, ls, t)
    decreases |ls|
  {
    if ls != [] {
      assert ls[0] in ls;
      assert forall l :: l in ls[1..] ==> l in ls;
      GoneStaysGone(Step(s, ls[0]), ls[1..], t);
    }
  }

  /** `n` attempts have been made before the run. */
  lemma {:induction false} AttemptsFrom(s: State, ls: seq<Label>, t: Thread, n: nat)
    requires Runs(s, ls) && BeginsNothing(ls, t) && n < 100
    requires t in s.pcs && s.pcs[t].Creating? && s.pcs[t].attempt == n
    ensures AlwaysTaken(s, ls, t) ==>
      var (calls, s') := (n + Calls(ls, t), Exec(s, ls));
      && calls <= 100
      && (calls < 100 <==> t in s'.pcs)
      && (calls < 100 ==> s'.pcs[t] == s.pcs[t].(attempt := calls))
    ensures !AlwaysTaken(s, ls, t) ==> exists k: nat :: OpensAt(s, ls, t, k) && n + Calls(ls[..k], t) < 100
    decreases |ls|
  {
    if ls != [] {
      var (l, rest, s1) := (ls[0], ls[1..], Step(s, ls[0]));
      assert l in ls;
      assert forall m :: m in rest ==> m in ls;
      if l.t == t && FormatCode(l.draw) !in s.store {
        assert ls[..0] == [];
        assert OpensAt(s, ls, t, 0);
      } else if l.t == t && n == 99 {
        GoneStaysGone(s1, rest, t);
      } else {
        var n1 := if l.t == t then n + 1 else n;
        AttemptsFrom(s1, rest, t, n1);
        if !AlwaysTaken(s1, rest, t) {
          var k: nat :| OpensAt(s1, rest, t, k) && n1 + Calls(rest[..k], t) < 100;
          assert ls[..k + 1][1..] == rest[..k];
          assert OpensAt(s, ls, t, k + 1);
        }
      }
    }
  }

  /** A thread that has just begun to create a room, in any interleaving: as long as every code it draws
      is taken it goes on, up to a hundred attempts, and gives up exactly then; as soon as one is free,
      within those hundred, it opens a room. */
  lemma HundredAttempts(s: State, ls: seq<Label>, t: Thread, p: Participant, secret: Option<RoomSecret>)
    requires Enabled(s, Begin(t, Creating(p, secret, 0)))
    requires var s1 := Step(s, Begin(t, Creating(p, secret, 0))); Runs(s1, ls) && BeginsNothing(ls, t)
    ensures var s1 := Step(s, Begin(t, Creating(p, secret, 0)));
      && (AlwaysTaken(s1, ls, t) ==>
            && Calls(ls, t) <= 100
            && (t !in Exec(s1, ls).pcs <==> Calls(ls, t) == 100))
      && (!AlwaysTaken(s1, ls, t) ==> exists k: nat :: OpensAt(s1, ls, t, k) && Calls(ls[..k], t) < 100)
  {
    AttemptsFrom(Step(s, Begin(t, Creating(p, secret, 0))), ls, t, 0);
  }
}
