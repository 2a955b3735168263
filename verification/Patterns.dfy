/** Deciding what comes next from the signals ahead alone: one expectation after the other is
    compared with one signal after the other. */
module Patterns {
  import opened Signals
  import opened Remotes
  import opened RecBuffers
  import opened Receive
  import opened RoundTrip

  /** A pulse or space is asked for, of which `offset` has been accounted for in advance. */
  datatype Expected = Expected(sig: Sig, offset: nat)

  predicate Accepts(r: Remote, e: Expected, x: Sig) {
    SameLevel(e.sig, x) && x.len > 0 && x.len >= e.offset && r.Expect(x.len - e.offset, e.sig.len)
  }

  /** The signals `a` begin with what is expected. */
  predicate Agrees(r: Remote, p: seq<Expected>, a: seq<Sig>) {
    |p| <= |a| && forall i :: 0 <= i < |p| ==> Accepts(r, p[i], a[i])
  }

  /** The signals `a`, and silence after them if `quiet`, are enough to decide. */
  predicate Known(r: Remote, p: seq<Expected>, a: seq<Sig>, quiet: bool) {
    quiet || |p| < |a| || exists i :: 0 <= i < |p| && i < |a| && !Accepts(r, p[i], a[i])
  }

  /** Silence, or a space that is long enough. */
  predicate GapFits(r: Remote, gap: nat, a: seq<Sig>) {
    a == [] || a[0] == NOTHING || (a[0].Space? && r.ExpectAtLeast(a[0].len, gap))
  }

  /** Something is ahead, or it is known that nothing is. */
  predicate Foreseen(t: Tape)
    requires Safe(t)
  {
    Ahead(t) != [] || Quiet(t)
  }

  /** From `s`, the step `x` accepted the next signal just if it is as expected; nothing is owed
      after that. */
  predicate Tried(s: Rx, r: Remote, e: Expected, x: Step)
    requires Safe(s.tape)
  {
    && Same(s.tape, x.s.tape) && (Ready(s.tape) ==> Ready(x.s.tape))
    && x.ok == (Ahead(s.tape) != [] && Accepts(r, e, Ahead(s.tape)[0]))
    && (x.ok ==> Ahead(x.s.tape) == Ahead(s.tape)[1..] && x.s.pendingp == 0 && x.s.pendings == 0)
  }

  lemma SameQuiet(t: Tape, u: Tape)
    requires Same(t, u)
    ensures Quiet(t) == Quiet(u)
  {
  }

  /** What a read delivers. */
  lemma ReadAhead(t: Tape, m: nat)
    requires Safe(t) && Foreseen(t)
    ensures var x := Next(t, m);
            && Same(t, x.tape) && (Ready(t) ==> Ready(x.tape))
            && x.got == (if Ahead(t) == [] then NOTHING else Ahead(t)[0])
            && (Ahead(t) != [] ==> Ahead(x.tape) == Ahead(t)[1..] && x.tape.rptr == t.rptr + 1)
            && (Ahead(t) == [] ==> Ahead(x.tape) == [] && x.tape.rptr == t.rptr)
  {
    hide Next, Delivered, Total;
    var a := Ahead(t);
    if a == [] {
      NextNothing(t, m);
    } else {
      assert a == [a[0]] + a[1..];
      NextReads(t, m, a[0], a[1..]);
    }
  }

  lemma PulseTried(s: Rx, r: Remote, ex: nat)
    requires Safe(s.tape) && s.pendings == 0 && Foreseen(s.tape)
    ensures Tried(s, r, Expected(Pulse(ex), s.pendingp), ExpectPulse(s, r, ex))
  {
    hide Next, Whole, Clock, Remote.Expect;
    ReadAhead(s.tape, s.pendingp + ex);
  }

  lemma SpaceTried(s: Rx, r: Remote, ex: nat)
    requires Safe(s.tape) && s.pendingp == 0 && Foreseen(s.tape)
    ensures Tried(s, r, Expected(Space(ex), s.pendings), ExpectSpace(s, r, ex))
  {
    hide Next, Whole, Clock, Remote.Expect;
    ReadAhead(s.tape, s.pendings + ex);
  }

  lemma OwedPulseTried(s: Rx, r: Remote)
    requires Safe(s.tape) && s.pendingp > 0 && s.pendings == 0 && Foreseen(s.tape)
    ensures Tried(s, r, Expected(Pulse(s.pendingp), 0), SyncPulse(s, r))
  {
    hide Next, Whole, Clock, Remote.Expect;
    ReadAhead(s.tape, s.pendingp);
  }

  lemma OwedSpaceTried(s: Rx, r: Remote)
    requires Safe(s.tape) && s.pendings > 0 && s.pendingp == 0 && Foreseen(s.tape)
    ensures Tried(s, r, Expected(Space(s.pendings), 0), SyncSpace(s, r))
  {
    hide Next, Whole, Clock, Remote.Expect;
    ReadAhead(s.tape, s.pendings);
  }

  /** How long `get_gap` waits for a space. */
  function GapWait(r: Remote, gap: nat): nat {
    var slack := gap * r.eps / 100;
    if slack <= gap then gap - slack else 0
  }

  lemma GapSteps(s: Rx, r: Remote, gap: nat)
    requires Ready(s.tape)
    ensures var x := Next(s.tape, GapWait(r, gap));
            var y := s.(tape := x.tape);
            GetGap(s, r, gap)
            == if x.got == NOTHING then Step(y, true)
               else if x.got.Pulse? then Step(y, false)
               else Step(Unget(y, 1), r.ExpectAtLeast(x.got.len, gap))
  {
    hide NextInternal, Remote.ExpectAtLeast;
  }

  /** Looking for the gap: the clock stands still. */
  lemma GapTried(s: Rx, r: Remote, gap: nat)
    requires Ready(s.tape) && Foreseen(s.tape)
    ensures var x := GetGap(s, r, gap);
            && x.ok == GapFits(r, gap, Ahead(s.tape)) && Same(s.tape, x.s.tape)
            && (x.ok ==> x.s.tape.sum == s.tape.sum)
            && (x.ok && Ahead(s.tape) != [] && Ahead(s.tape)[0] != NOTHING ==>
                  Ahead(x.s.tape) == Ahead(s.tape) && x.s.tape.rptr < |x.s.tape.buf|)
            && (Ahead(s.tape) == [] ==> Ahead(x.s.tape) == [])
  {
    hide Next, Whole, Total, GetGap, Remote.ExpectAtLeast;
    var m := GapWait(r, gap);
    GapSteps(s, r, gap);
    ReadAhead(s.tape, m);
    var x, a := Next(s.tape, m), Ahead(s.tape);
    if a != [] {
      assert a == [a[0]] + a[1..];
      TotalOne(a[0], a[1..]);
      NextReads(s.tape, m, a[0], a[1..]);
      if x.got.Space? && x.got != NOTHING { BackReads(s.tape, a[0], x.tape); }
    }
  }

  // ----- one step after the other -----

  /** The steps from `s` to `x` accepted just what agrees with the pattern `p`. */
  predicate Matched(s: Rx, r: Remote, p: seq<Expected>, x: Step)
    requires Safe(s.tape)
  {
    && Same(s.tape, x.s.tape) && (Ready(s.tape) ==> Ready(x.s.tape))
    && x.ok == Agrees(r, p, Ahead(s.tape))
    && (x.ok ==> Ahead(x.s.tape) == Ahead(s.tape)[|p|..])
  }

  lemma NothingMatched(s: Rx, r: Remote)
    requires Safe(s.tape)
    ensures Matched(s, r, [], Step(s, true))
  {
  }

  lemma MatchedOn(s: Rx, r: Remote, p: seq<Expected>, x: Step, u: Rx, e: Expected, z: Step)
    requires Safe(s.tape) && Matched(s, r, p, x) && x.ok && u.tape == x.s.tape && Tried(u, r, e, z)
    ensures Matched(s, r, p + [e], z)
  {
    hide Whole, Clock, Accepts;
    var a, q := Ahead(s.tape), p + [e];
    assert a[|p|..] == Ahead(u.tape);
    if z.ok {
      assert a[|p|..][1..] == a[|p| + 1..];
      forall i | 0 <= i < |q| ensures Accepts(r, q[i], a[i]) { if i == |p| { assert a[|p|..][0] == a[i]; } }
    }
  }

  lemma MatchFails(s: Rx, r: Remote, p: seq<Expected>, q: seq<Expected>, x: Step)
    requires Safe(s.tape) && Matched(s, r, p, x) && !x.ok
    ensures Matched(s, r, p + q, x)
  {
    hide Whole, Clock, Accepts;
    if Agrees(r, p + q, Ahead(s.tape)) {
      forall i | 0 <= i < |p| ensures Accepts(r, p[i], Ahead(s.tape)[i]) { assert (p + q)[i] == p[i]; }
    }
  }

  lemma StillForeseen(s: Rx, r: Remote, p: seq<Expected>, q: seq<Expected>, x: Step)
    requires Safe(s.tape) && Matched(s, r, p, x) && x.ok && Known(r, p + q, Ahead(s.tape), Quiet(s.tape))
    ensures Foreseen(x.s.tape)
  {
    hide Whole, Clock, Accepts;
    assert forall i :: 0 <= i < |p| ==> (p + q)[i] == p[i];
  }
}
