/** Repeat codes: the short frame that a remote may send while a button is held, and what tells it
    from a frame with a code. */
module RepeatCodes {
  import opened Options
  import opened Words
  import opened Signals
  import opened Remotes
  import opened RecBuffers
  import opened Receive
  import opened RoundTrip
  import opened Patterns
  import opened FrameRoundTrip

  function OwedPattern(h: nat): seq<Expected> {
    if h > 0 then [Expected(Space(h), 0)] else []
  }

  function TrailPattern(r: Remote): seq<Expected> {
    if r.ptrail > 0 then [Expected(Pulse(r.ptrail), 0)] else []
  }

  /** What `get_repeat` reads, a space of length `h` owing; a biphase remote is asked for the space
      before the pulse. */
  function RepeatPattern(r: Remote, h: nat): seq<Expected> {
    if !r.IsBiphase() then
      OwedPattern(h) + [Expected(Pulse(r.prepeat), r.plead)]
        + (if r.ptrail > 0 then [Expected(Space(r.srepeat), 0)] + TrailPattern(r) else [])
    else if r.plead > 0 then
      OwedPattern(h) + [Expected(Pulse(r.plead), 0)] + [Expected(Space(r.srepeat), 0)]
        + [Expected(Pulse(r.prepeat), 0)] + TrailPattern(r)
    else
      [Expected(Space(r.srepeat), h)] + [Expected(Pulse(r.prepeat), 0)] + TrailPattern(r)
  }

  /** All of `get_repeat` but the gap. */
  function RepeatToGap(s: Rx, r: Remote): (x: Step)
    requires Ready(s.tape)
    ensures Ready(x.s.tape)
  {
    var lead := GetLead(s, r);
    if !lead.ok then lead
    else
      var x := GetRepeatMark(lead.s, r);
      if !x.ok then x else GetTrail(x.s, r)
  }

  /** The space owed at the beginning is read. */
  lemma OwedMatched(s: Rx, r: Remote, p: seq<Expected>)
    requires Ready(s.tape) && s.pendingp == 0 && Known(r, OwedPattern(s.pendings) + p, Ahead(s.tape), Quiet(s.tape))
    ensures var y := SyncSpace(s, r);
            && Matched(s, r, OwedPattern(s.pendings), y)
            && (y.ok ==> y.s.pendingp == 0 && y.s.pendings == 0 && Foreseen(y.s.tape))
  {
    hide Whole, Clock, Known, SyncSpace;
    NothingMatched(s, r);
    if s.pendings > 0 {
      StillForeseen(s, r, [], OwedPattern(s.pendings) + p, Step(s, true)) by { Prefixed(OwedPattern(s.pendings) + p); }
      OwedSpaceTried(s, r);
      MatchedOn(s, r, [], Step(s, true), s, Expected(Space(s.pendings), 0), SyncSpace(s, r));
      Prefixed(OwedPattern(s.pendings));
    } else {
      NothingOwed(s, r);
    }
    if SyncSpace(s, r).ok { StillForeseen(s, r, OwedPattern(s.pendings), p, SyncSpace(s, r)); }
  }

  lemma NothingOwed(s: Rx, r: Remote)
    requires Safe(s.tape) && s.pendings == 0
    ensures SyncSpace(s, r) == Step(s, true)
  {
  }

  lemma Prefixed(p: seq<Expected>)
    ensures [] + p == p
  {
  }

  /** After the pattern `p`, `x` is followed by a pulse that is asked for. */
  lemma PulseNext(s: Rx, r: Remote, p: seq<Expected>, q: seq<Expected>, x: Step, u: Rx, ex: nat)
    requires Ready(s.tape) && Matched(s, r, p, x) && x.ok && u.tape == x.s.tape && u.pendings == 0
    requires Known(r, p + ([Expected(Pulse(ex), u.pendingp)] + q), Ahead(s.tape), Quiet(s.tape))
    ensures var z := ExpectPulse(u, r, ex);
            && Matched(s, r, p + [Expected(Pulse(ex), u.pendingp)], z)
            && (z.ok ==> z.s.pendingp == 0 && z.s.pendings == 0)
  {
    hide Whole, Clock, Known, ExpectPulse;
    var e := Expected(Pulse(ex), u.pendingp);
    StillForeseen(s, r, p, [e] + q, x);
    PulseTried(u, r, ex);
    MatchedOn(s, r, p, x, u, e, ExpectPulse(u, r, ex));
  }

  lemma SpaceNext(s: Rx, r: Remote, p: seq<Expected>, q: seq<Expected>, x: Step, u: Rx, ex: nat)
    requires Ready(s.tape) && Matched(s, r, p, x) && x.ok && u.tape == x.s.tape && u.pendingp == 0
    requires Known(r, p + ([Expected(Space(ex), u.pendings)] + q), Ahead(s.tape), Quiet(s.tape))
    ensures var z := ExpectSpace(u, r, ex);
            && Matched(s, r, p + [Expected(Space(ex), u.pendings)], z)
            && (z.ok ==> z.s.pendingp == 0 && z.s.pendings == 0)
  {
    hide Whole, Clock, Known, ExpectSpace;
    var e := Expected(Space(ex), u.pendings);
    StillForeseen(s, r, p, [e] + q, x);
    SpaceTried(u, r, ex);
    MatchedOn(s, r, p, x, u, e, ExpectSpace(u, r, ex));
  }

  lemma OwedSpaceNext(s: Rx, r: Remote, p: seq<Expected>, q: seq<Expected>, x: Step, u: Rx)
    requires Ready(s.tape) && Matched(s, r, p, x) && x.ok && u.tape == x.s.tape && u.pendingp == 0 && u.pendings > 0
    requires Known(r, p + ([Expected(Space(u.pendings), 0)] + q), Ahead(s.tape), Quiet(s.tape))
    ensures var z := SyncSpace(u, r);
            && Matched(s, r, p + [Expected(Space(u.pendings), 0)], z)
            && (z.ok ==> z.s.pendingp == 0 && z.s.pendings == 0)
  {
    hide Whole, Clock, Known, SyncSpace;
    var e := Expected(Space(u.pendings), 0);
    StillForeseen(s, r, p, [e] + q, x);
    OwedSpaceTried(u, r);
    MatchedOn(s, r, p, x, u, e, SyncSpace(u, r));
  }

  lemma OwedPulseNext(s: Rx, r: Remote, p: seq<Expected>, q: seq<Expected>, x: Step, u: Rx)
    requires Ready(s.tape) && Matched(s, r, p, x) && x.ok && u.tape == x.s.tape && u.pendingp > 0 && u.pendings == 0
    requires Known(r, p + ([Expected(Pulse(u.pendingp), 0)] + q), Ahead(s.tape), Quiet(s.tape))
    ensures var z := SyncPulse(u, r);
            && Matched(s, r, p + [Expected(Pulse(u.pendingp), 0)], z)
            && (z.ok ==> z.s.pendingp == 0 && z.s.pendings == 0)
  {
    hide Whole, Clock, Known, SyncPulse;
    var e := Expected(Pulse(u.pendingp), 0);
    StillForeseen(s, r, p, [e] + q, x);
    OwedPulseTried(u, r);
    MatchedOn(s, r, p, x, u, e, SyncPulse(u, r));
  }

  // ----- pulse first -----

  lemma PulseSteps(s: Rx, r: Remote)
    requires Ready(s.tape) && !r.IsBiphase() && s.pendingp == 0
    ensures var y := SyncSpace(s, r);
            && y.s.pendingp == 0
            && RepeatToGap(s, r)
               == if !y.ok then y
                  else
                    var m := ExpectPulse(y.s.(pendingp := r.plead), r, r.prepeat);
                    if !m.ok then m else GetTrail(m.s.(pendings := r.srepeat), r)
  {
    hide ExpectPulse, GetTrail;
    ExpectAfterSync(s, r, r.prepeat);
    SyncFails(s, r, r.prepeat);
  }

  lemma SyncFails(s: Rx, r: Remote, ex: nat)
    requires Safe(s.tape)
    ensures !SyncSpace(s, r).ok ==> ExpectPulse(s, r, ex) == SyncSpace(s, r)
    ensures !SyncPulse(s, r).ok ==> ExpectSpace(s, r, ex) == SyncPulse(s, r)
    ensures SyncSpace(s, r).s.pendingp == s.pendingp && SyncPulse(s, r).s.pendings == s.pendings
  {
  }

  lemma TrailSteps(v: Rx, r: Remote)
    requires Ready(v.tape) && v.pendingp == 0
    ensures r.ptrail == 0 ==> GetTrail(v, r) == Step(v, true)
    ensures r.ptrail > 0 ==>
              var z := SyncSpace(v, r);
              && (!z.ok ==> GetTrail(v, r) == z)
              && (z.ok ==>
                    var x := ExpectPulse(z.s, r, r.ptrail);
                    (!x.ok || x.s.pendingp == 0) ==> GetTrail(v, r) == x)
  {
    hide ExpectPulse, SyncSpace;
    ExpectAfterSync(v, r, r.ptrail);
    SyncFails(v, r, r.ptrail);
  }

  lemma PulseTrail(s: Rx, r: Remote, p: seq<Expected>, x: Step, v: Rx)
    requires Ready(s.tape) && Matched(s, r, p, x) && x.ok && v.tape == x.s.tape && v.pendingp == 0
    requires v.pendings == r.srepeat > 0
    requires var w := p + (if r.ptrail > 0 then [Expected(Space(r.srepeat), 0)] + TrailPattern(r) else []);
             Known(r, w, Ahead(s.tape), Quiet(s.tape))
    ensures Matched(s, r, p + (if r.ptrail > 0 then [Expected(Space(r.srepeat), 0)] + TrailPattern(r) else []),
                    GetTrail(v, r))
  {
    hide Whole, Clock, Known, ExpectPulse, SyncSpace, GetTrail, Matched;
    MatchedReady(s, r, p, x);
    TrailSteps(v, r);
    if r.ptrail > 0 {
      var e, q := Expected(Space(r.srepeat), 0), TrailPattern(r);
      OwedSpaceNext(s, r, p, q, x, v);
      var z := SyncSpace(v, r);
      assert p + [e] + q == p + ([e] + q);
      if z.ok {
        assert q == q + [];
        PulseNext(s, r, p + [e], [], z, z.s, r.ptrail);
      } else {
        MatchFails(s, r, p + [e], q, z);
      }
    } else {
      assert p + [] == p;
      MatchedTape(s, r, p, x, Step(v, true));
    }
  }

  lemma MatchedReady(s: Rx, r: Remote, p: seq<Expected>, x: Step)
    requires Ready(s.tape) && Matched(s, r, p, x)
    ensures Ready(x.s.tape)
  {
  }

  lemma MatchedTape(s: Rx, r: Remote, p: seq<Expected>, x: Step, z: Step)
    requires Ready(s.tape) && Matched(s, r, p, x) && z.ok == x.ok && z.s.tape == x.s.tape
    ensures Matched(s, r, p, z)
  {
  }

  lemma PulseMatched(s: Rx, r: Remote)
    requires Ready(s.tape) && !r.IsBiphase() && s.pendingp == 0 && r.srepeat > 0
    requires Known(r, RepeatPattern(r, s.pendings), Ahead(s.tape), Quiet(s.tape))
    ensures Matched(s, r, RepeatPattern(r, s.pendings), RepeatToGap(s, r))
  {
    hide Whole, Clock, Known, ExpectPulse, SyncSpace, GetTrail, RepeatToGap, Matched;
    var p, e := OwedPattern(s.pendings), [Expected(Pulse(r.prepeat), r.plead)];
    var q := if r.ptrail > 0 then [Expected(Space(r.srepeat), 0)] + TrailPattern(r) else [];
    assert RepeatPattern(r, s.pendings) == p + (e + q) == p + e + q;
    OwedMatched(s, r, e + q);
    PulseSteps(s, r);
    var y := SyncSpace(s, r);
    if y.ok {
      var u := y.s.(pendingp := r.plead);
      PulseNext(s, r, p, q, y, u, r.prepeat);
      var m := ExpectPulse(u, r, r.prepeat);
      if m.ok {
        PulseTrail(s, r, p + e, m, m.s.(pendings := r.srepeat));
      } else {
        MatchFails(s, r, p + e, q, m);
      }
    } else {
      MatchFails(s, r, p, e + q, y);
    }
  }

  // ----- space first -----

  /** From the space of a biphase repeat code on. */
  function SpaceToTrail(u: Rx, r: Remote): (x: Step)
    requires Ready(u.tape)
    ensures Ready(x.s.tape)
  {
    var y := ExpectSpace(u, r, r.srepeat);
    if !y.ok then y
    else
      var m := ExpectPulse(y.s, r, r.prepeat);
      if !m.ok then m else GetTrail(m.s, r)
  }

  lemma BiphaseSteps(s: Rx, r: Remote)
    requires Ready(s.tape) && r.IsBiphase() && s.pendingp == 0
    ensures r.plead == 0 ==> RepeatToGap(s, r) == SpaceToTrail(s, r)
    ensures r.plead > 0 ==>
              var y := SyncSpace(s, r);
              && y.s.pendingp == 0
              && (!y.ok ==> RepeatToGap(s, r) == y)
              && (y.ok ==>
                    var u := y.s.(pendingp := r.plead);
                    var z := SyncPulse(u, r);
                    && y.s.pendings == 0 && z.s.pendings == 0
                    && RepeatToGap(s, r) == (if !z.ok then z else SpaceToTrail(z.s, r)))
  {
    hide ExpectPulse, ExpectSpace, GetTrail;
    if r.plead > 0 {
      var u := SyncSpace(s, r).s.(pendingp := r.plead);
      ExpectAfterSync(u, r, r.srepeat);
      SyncFails(u, r, r.srepeat);
      SyncFails(s, r, r.srepeat);
    }
  }

  /** The pattern of that part, `h` of the space being owed. */
  function SpacePattern(r: Remote, h: nat): seq<Expected> {
    [Expected(Space(r.srepeat), h)] + ([Expected(Pulse(r.prepeat), 0)] + TrailPattern(r))
  }

  lemma SpaceMatched(s: Rx, r: Remote, p: seq<Expected>, x: Step, u: Rx)
    requires Ready(s.tape) && Matched(s, r, p, x) && x.ok && u.tape == x.s.tape && u.pendingp == 0
    requires Known(r, p + SpacePattern(r, u.pendings), Ahead(s.tape), Quiet(s.tape))
    ensures Ready(u.tape) && Matched(s, r, p + SpacePattern(r, u.pendings), SpaceToTrail(u, r))
  {
    hide Whole, Clock, Known, ExpectPulse, ExpectSpace, GetTrail, Matched;
    MatchedReady(s, r, p, x);
    var e, f, q := [Expected(Space(r.srepeat), u.pendings)], [Expected(Pulse(r.prepeat), 0)], TrailPattern(r);
    assert p + e + (f + q) == p + (e + (f + q)) && p + e + f + q == p + e + (f + q);
    SpaceNext(s, r, p, f + q, x, u, r.srepeat);
    var y := ExpectSpace(u, r, r.srepeat);
    if y.ok {
      PulseNext(s, r, p + e, q, y, y.s, r.prepeat);
      var m := ExpectPulse(y.s, r, r.prepeat);
      if m.ok {
        TrailMatched(s, r, p + e + f, m);
      } else {
        MatchFails(s, r, p + e + f, q, m);
      }
    } else {
      MatchFails(s, r, p + e, f + q, y);
    }
  }

  lemma TrailMatched(s: Rx, r: Remote, p: seq<Expected>, x: Step)
    requires Ready(s.tape) && Matched(s, r, p, x) && x.ok && x.s.pendingp == 0 && x.s.pendings == 0
    requires Known(r, p + TrailPattern(r), Ahead(s.tape), Quiet(s.tape))
    ensures Ready(x.s.tape) && Matched(s, r, p + TrailPattern(r), GetTrail(x.s, r))
  {
    hide Whole, Clock, Known, ExpectPulse, SyncSpace, GetTrail, Matched;
    MatchedReady(s, r, p, x);
    TrailSteps(x.s, r);
    NothingOwed(x.s, r);
    if r.ptrail > 0 {
      assert TrailPattern(r) + [] == TrailPattern(r);
      PulseNext(s, r, p, [], x, x.s, r.ptrail);
    } else {
      assert p + [] == p;
      MatchedTape(s, r, p, x, Step(x.s, true));
    }
  }

  lemma BiphaseMatched(s: Rx, r: Remote)
    requires Ready(s.tape) && r.IsBiphase() && s.pendingp == 0
    requires Known(r, RepeatPattern(r, s.pendings), Ahead(s.tape), Quiet(s.tape))
    ensures Matched(s, r, RepeatPattern(r, s.pendings), RepeatToGap(s, r))
  {
    hide Whole, Clock, Known, SyncPulse, SyncSpace, SpaceToTrail, RepeatToGap, Matched;
    BiphaseSteps(s, r);
    if r.plead == 0 {
      assert RepeatPattern(r, s.pendings) == [] + SpacePattern(r, s.pendings);
      NothingMatched(s, r);
      SpaceMatched(s, r, [], Step(s, true), s);
    } else {
      var p, e, q := OwedPattern(s.pendings), [Expected(Pulse(r.plead), 0)], SpacePattern(r, 0);
      assert RepeatPattern(r, s.pendings) == p + (e + q) == p + e + q;
      OwedMatched(s, r, e + q);
      var y := SyncSpace(s, r);
      if y.ok {
        var u := y.s.(pendingp := r.plead);
        OwedPulseNext(s, r, p, q, y, u);
        var z := SyncPulse(u, r);
        if z.ok {
          SpaceMatched(s, r, p + e, z, z.s);
        } else {
          MatchFails(s, r, p + e, q, z);
        }
      } else {
        MatchFails(s, r, p, e + q, y);
      }
    }
  }

  // ----- the decision -----

  /** The signals `a` begin like a repeat code and a gap that is long enough, `end` being the time at
      their end. */
  predicate Resembles(r: Remote, h: nat, a: seq<Sig>, end: int) {
    var p := RepeatPattern(r, h);
    Agrees(r, p, a) && GapFits(r, RepeatGapOf(r, r.MinGap(), end - Total(a[|p|..])), a[|p|..])
  }

  /** `get_repeat` accepts just what resembles a repeat code; what it refuses can be read again. */
  lemma RepeatDecides(s: Rx, r: Remote)
    requires Ready(s.tape) && s.pendingp == 0 && r.HasRepeat()
    requires Known(r, RepeatPattern(r, s.pendings), Ahead(s.tape), Quiet(s.tape))
    ensures var x := GetRepeat(s, r);
            var a, p := Ahead(s.tape), RepeatPattern(r, s.pendings);
            && x.ok == Resembles(r, s.pendings, a, Clock(s.tape)) && Same(s.tape, x.s.tape)
            && (x.ok ==>
                  && x.s.tape.sum == Clock(s.tape) - Total(a[|p|..])
                  && (a[|p|..] == [] || a[|p|..][0] != NOTHING ==> Leaves(s, x.s, a[|p|..])))
  {
    hide Whole, Known, RepeatToGap, GetGap, GetRepeat, RepeatGapOf, RepeatPattern, Agrees, Total, GapFits, Leaves;
    var a, p := Ahead(s.tape), RepeatPattern(r, s.pendings);
    var t := RepeatToGap(s, r);
    if r.IsBiphase() { BiphaseMatched(s, r); } else { PulseMatched(s, r); }
    RepeatSplits(s, r);
    if t.ok {
      assert p + [] == p;
      StillForeseen(s, r, p, [], t);
      GapTried(t.s, r, RepeatGapOf(r, r.MinGap(), t.s.tape.sum));
      LeavesAfter(s, t.s, GetRepeat(s, r).s, Ahead(t.s.tape));
    }
  }

  lemma LeavesAfter(s: Rx, t: Rx, x: Rx, rest: seq<Sig>)
    requires Same(s.tape, t.tape) && Same(t.tape, x.tape) && Ahead(t.tape) == rest
    ensures (rest == [] ==> Ahead(x.tape) == []) && (rest != [] && rest[0] != NOTHING ==>
              Ahead(x.tape) == rest && x.tape.rptr < |x.tape.buf|)
            ==> (rest == [] || rest[0] != NOTHING ==> Leaves(s, x, rest))
  {
  }

  lemma RepeatSplits(s: Rx, r: Remote)
    requires Ready(s.tape)
    ensures var t := RepeatToGap(s, r);
            GetRepeat(s, r) == if t.ok then GetGap(t.s, r, RepeatGapOf(r, r.MinGap(), t.s.tape.sum)) else t
  {
    hide GetLead, GetRepeatMark, GetTrail, GetGap, RepeatGapOf;
  }

  predicate HeaderRepeated(r: Remote) {
    r.repeatHeader && r.HasHeader()
  }

  /** The space of the header that is still owed where the repeat code is looked for. */
  function HeaderOwed(r: Remote): nat {
    if HeaderRepeated(r) && !HeaderAtOnce(r) then r.shead else 0
  }

  /** Where the header is repeated, the signals `f` begin with it, and it can be decided on. */
  predicate HeaderLeads(r: Remote, f: seq<Sig>) {
    HeaderRepeated(r) ==>
      && |f| >= 2 && f == [Pulse(r.phead)] + ([Space(r.shead)] + f[2..])
      && (HeaderAtOnce(r) ==> StartsPulse(f[2..]))
  }

  lemma LeadsAs(r: Remote, f: seq<Sig>, rest: seq<Sig>)
    requires f == [Pulse(r.phead), Space(r.shead)] + rest && (HeaderAtOnce(r) ==> StartsPulse(rest))
    ensures HeaderLeads(r, f)
  {
    assert f[2..] == rest && f == [Pulse(r.phead)] + ([Space(r.shead)] + rest);
  }

  /** What is ahead where the repeat code is looked for, `f` being sent and `tail` following it. */
  function RepeatAhead(r: Remote, f: seq<Sig>, tail: seq<Sig>): seq<Sig> {
    var owed := if HeaderOwed(r) > 0 then [Space(HeaderOwed(r))] else [];
    Air(owed + (if HeaderRepeated(r) && |f| >= 2 then f[2..] else f)) + tail
  }

  /** The signals `f` and what follows pass for a repeat code and the gap after it. */
  predicate TakenForRepeat(r: Remote, f: seq<Sig>, tail: seq<Sig>) {
    Resembles(r, HeaderOwed(r), RepeatAhead(r, f, tail), Total(Air(f)) + Total(tail))
  }

  /** They are enough to decide that. */
  predicate RepeatKnown(r: Remote, f: seq<Sig>, tail: seq<Sig>) {
    Known(r, RepeatPattern(r, HeaderOwed(r)), RepeatAhead(r, f, tail), tail == [])
  }

  /** The time from the beginning of `f` to the end of what is taken for a repeat code. */
  function RepeatLength(r: Remote, f: seq<Sig>, tail: seq<Sig>): int
    requires |RepeatPattern(r, HeaderOwed(r))| <= |RepeatAhead(r, f, tail)|
  {
    Total(Air(f)) + Total(tail) - Total(RepeatAhead(r, f, tail)[|RepeatPattern(r, HeaderOwed(r))|..])
  }

  /** What a repeat code is decoded to: the last code once more, if there is one. */
  function RepeatFrame(r: Remote, last: Option<Word>, length: int): Option<Frame> {
    if last.None? then None
    else Some(Frame(r.preData, last.value, r.postData, true, RepeatGapOf(r, r.MinGap(), length),
                    RepeatGapOf(r, r.MaxGap(), length)))
  }

  /** The header, where it is repeated, is read first. */
  lemma HeaderRead(s: Rx, r: Remote, f: seq<Sig>, tail: seq<Sig>)
    requires Sees(s, f, tail) && Owed(s) == [] && HeaderLeads(r, f)
    ensures var head := if HeaderRepeated(r) then GetHeader(s, r) else Step(s, true);
            && head.ok && head.s.pendingp == 0 && head.s.pendings == HeaderOwed(r) && Same(s.tape, head.s.tape)
            && Ready(head.s.tape) && Ahead(head.s.tape) == RepeatAhead(r, f, tail)
            && (tail == [] ==> Quiet(head.s.tape))
  {
    hide Air, GetHeader, Whole, Clock;
    if HeaderRepeated(r) { HeaderSeen(s, r, f[2..], tail); }
  }

  lemma OwnSteps(s: Rx, r: Remote, c: Context, y: Length, head: Step, x: Step)
    requires Safe(s.tape) && Decodable(r) && r.HasRepeat() && c.own
    requires y == SyncBuffer(Rewind(s), r, c.last) && y.len != 0
    requires head == (if HeaderRepeated(r) then GetHeader(y.s, r) else Step(y.s, true)) && head.ok
    requires x == GetRepeat(head.s, r)
    ensures if x.ok then ReceiveDecode(s, r, c) == Decoded(x.s, RepeatFrame(r, c.lastCode, x.s.tape.sum))
            else ReceiveDecode(s, r, c) == GetFrame(SyncBuffer(Rewind(x.s), r, c.last).s, r, c, y.len)
  {
    hide SyncBuffer, GetHeader, GetRepeat, GetFrame, RepeatGapOf, Rewind;
  }

  lemma KnownAhead(s: Rx, r: Remote, f: seq<Sig>, tail: seq<Sig>)
    requires Ready(s.tape) && RepeatKnown(r, f, tail) && s.pendings == HeaderOwed(r)
    requires Ahead(s.tape) == RepeatAhead(r, f, tail) && (tail == [] ==> Quiet(s.tape))
    ensures Known(r, RepeatPattern(r, s.pendings), Ahead(s.tape), Quiet(s.tape))
  {
    hide Whole, RepeatPattern, RepeatAhead;
  }

  /** After a frame of the same remote a repeat code is looked for first. What is taken for one is
      decoded to the last code; everything else is read again from the beginning, as a frame. */
  lemma OwnDecides(s: Rx, r: Remote, c: Context, gap: nat, f: seq<Sig>, tail: seq<Sig>) returns (y: Rx)
    requires Delivers(s, gap, Air(f), tail) && Synchronises(r, c, gap) && Decodable(r)
    requires r.HasRepeat() && c.own && HeaderLeads(r, f) && RepeatKnown(r, f, tail)
    ensures TakenForRepeat(r, f, tail) ==>
              && |RepeatPattern(r, HeaderOwed(r))| <= |RepeatAhead(r, f, tail)|
              && ReceiveDecode(s, r, c).frame == RepeatFrame(r, c.lastCode, RepeatLength(r, f, tail))
              && var rest := RepeatAhead(r, f, tail)[|RepeatPattern(r, HeaderOwed(r))|..];
                 rest == [] || rest[0] != NOTHING ==> Leaves(Rewind(s), ReceiveDecode(s, r, c).s, rest)
    ensures !TakenForRepeat(r, f, tail) ==>
              && Sees(y, f, tail) && Owed(y) == [] && Clock(y.tape) == Total(Air(f)) + Total(tail)
              && SameInput(Rewind(s), y)
              && ReceiveDecode(s, r, c) == GetFrame(y, r, c, gap)
  {
    hide Air, SyncBuffer, GetHeader, GetRepeat, ReceiveDecode, GetFrame, RepeatFrame, RepeatPattern, RepeatAhead,
         Total, Whole, Synchronises, HeaderLeads, Known, RepeatKnown, StartsPulse;
    SyncSeen(s, r, c, gap, f, tail);
    var sync := SyncBuffer(Rewind(s), r, c.last);
    HeaderRead(sync.s, r, f, tail);
    var head := if HeaderRepeated(r) then GetHeader(sync.s, r) else Step(sync.s, true);
    KnownAhead(head.s, r, f, tail);
    RepeatDecides(head.s, r);
    var x := GetRepeat(head.s, r);
    OwnSteps(s, r, c, sync, head, x);
    y := sync.s;
    if !x.ok {
      WholeRewound(s, x.s);
      SyncSeen(x.s, r, c, gap, f, tail);
      y := SyncBuffer(Rewind(x.s), r, c.last).s;
    }
  }

  lemma WholeRewound(s: Rx, x: Rx)
    requires Safe(s.tape) && SameInput(Rewind(s), x)
    ensures SameInput(Rewind(s), Rewind(x))
  {
  }
}
