/** Repetitions sent without their foot: the decoder asks for the foot of every frame, so that it has
    to find one in what follows. */
module MissingFoot {
  import opened Words
  import opened Signals
  import opened Remotes
  import opened Transmit
  import opened RecBuffers
  import opened Receive
  import opened RoundTrip
  import opened Patterns
  import opened FrameRoundTrip
  import opened RepeatCodes
  import opened DecodeRoundTrip
  import opened Repetitions

  /** What follows the signals `f` passes for the foot and the gap after it. */
  predicate FootInTail(r: Remote, f: seq<Sig>, tail: seq<Sig>) {
    && |tail| >= 2
    && Accepts(r, Expected(Space(r.sfoot), EndSpace(f)), tail[0])
    && Accepts(r, Expected(Pulse(r.pfoot), 0), tail[1])
    && GapFits(r, GapAfter(r, Total(Air(f)) + tail[0].len + tail[1].len), tail[2..])
  }

  /** The foot is looked for in what follows. */
  lemma FootTried(v: Rx, r: Remote, tail: seq<Sig>)
    requires Sees(v, [], tail) && v.pendingp == 0 && r.HasFoot() && (Quiet(v.tape) || |tail| >= 2)
    ensures var x := GetFoot(v, r);
            && x.ok == (|tail| >= 2 && Accepts(r, Expected(Space(r.sfoot), v.pendings), tail[0])
                        && Accepts(r, Expected(Pulse(r.pfoot), 0), tail[1]))
            && Same(v.tape, x.s.tape)
            && (x.ok ==> Ahead(x.s.tape) == tail[2..] && x.s.pendingp == 0)
  {
    hide Air, Whole, Clock, ExpectSpace, ExpectPulse, Accepts;
    AirOfOwed(v);
    assert Ahead(v.tape) == tail;
    SpaceTried(v, r, r.sfoot);
    var x := ExpectSpace(v, r, r.sfoot);
    if x.ok {
      SameQuiet(v.tape, x.s.tape);
      PulseTried(x.s, r, r.pfoot);
      assert |tail| >= 2 ==> tail[1..][0] == tail[1] && tail[1..][1..] == tail[2..];
    }
  }

  lemma OwedSpaceIs(k: nat, d: nat, g: nat, p: nat, rest: seq<Sig>)
    requires Air((if k > 0 then [Space(k)] else []) + [Space(d), Pulse(p)]) + rest == [Space(g), Pulse(p)] + rest
    ensures k + d == g
  {
    var a := Air((if k > 0 then [Space(k)] else []) + [Space(d), Pulse(p)]);
    AirOwedSpace(k, d, [Pulse(p)]);
    assert [Space(d), Pulse(p)] == [Space(d)] + ([Pulse(p)]);
    assert (a + rest)[0] == ([Space(g), Pulse(p)] + rest)[0];
  }

  lemma BodyGrows(r: Remote, t: Toggles, code: Word, foot: seq<Sig>)
    requires r.BitCount() <= 64
    ensures AfterHeader(r, t, code, foot) == AfterHeader(r, t, code, []) + foot
  {
    hide LeadSignals, PreSignals, DataSignals, PostSignals, TrailSignals;
  }

  /** What comes next, a space and a pulse, may be seen as the foot. */
  lemma SeesMore(h: Rx, c: seq<Sig>, d: nat, tail: seq<Sig>)
    requires Sees(h, c, tail) && |tail| >= 2 && !StartsPulse(tail[2..]) && (tail[2..] == [] ==> Quiet(h.tape))
    requires tail[0] == Space(EndSpace(Owed(h) + c) + d) && tail[1].Pulse?
    ensures Sees(h, c + [Space(d), Pulse(tail[1].len)], tail[2..])
  {
    hide Air, EndSpace, Whole, Ahead;
    var e := Owed(h) + c;
    var foot := [Space(d), Pulse(tail[1].len)];
    AirSplit(e, d, [Pulse(tail[1].len)]);
    OneOnAir(Pulse(tail[1].len));
    assert [Space(d)] + [Pulse(tail[1].len)] == foot;
    assert Owed(h) + (c + foot) == e + foot;
    assert Air(e) + tail == Air(e) + [tail[0], tail[1]] + tail[2..];
  }

  /** The space that is owed at the end of a frame is the one it ends in. */
  lemma OwedAtEnd(h: Rx, r: Remote, t: Toggles, code: Word, tail: seq<Sig>)
    requires Sound(r) && h.pendingp == 0 && Sees(h, AfterHeader(r, t, code, []), tail)
    requires |tail| >= 2 && tail[0].Space? && tail[1].Pulse? && !StartsPulse(tail[2..])
    requires tail[2..] == [] ==> Quiet(h.tape)
    requires tail[0].len >= EndSpace(Owed(h) + AfterHeader(r, t, code, []))
    ensures r.BitCount() <= 64 && AfterTrail(h, r).pendings == EndSpace(Owed(h) + AfterHeader(r, t, code, []))
  {
    hide Sound, AfterHeader, EndSpace, AfterTrail, Sees;
    SoundSplits(r);
    var c := AfterHeader(r, t, code, []);
    var d, p := tail[0].len - EndSpace(Owed(h) + c), tail[1].len;
    var foot := [Space(d), Pulse(p)];
    BodyGrows(r, t, code, foot);
    SeesMore(h, c, d, tail);
    var v := BodyToTrail(h, r, t, code, foot, tail[2..]);
    var w := BodyToTrail(h, r, t, code, [], tail);
    OwedIs(v, d, p, tail);
  }

  lemma OwedIs(v: Rx, d: nat, p: nat, tail: seq<Sig>)
    requires |tail| >= 2 && tail[0].Space? && tail[1] == Pulse(p) && v.pendingp == 0
    requires Sees(v, [], tail) && Sees(v, [Space(d), Pulse(p)], tail[2..])
    ensures v.pendings + d == tail[0].len
  {
    hide Air, Whole;
    AirOfOwed(v);
    assert [] + tail == tail == [tail[0], tail[1]] + tail[2..];
    OwedSpaceIs(v.pendings, d, tail[0].len, p, tail[2..]);
  }

  /** A frame in terms of its body and the gap. */
  lemma FrameOutcome(s: Rx, r: Remote, c: Context, sync: nat, head: Step, b: Body, g: Step)
    requires Ready(s.tape) && Decodable(r) && (head.ok ==> !r.noHeadRep || !r.constLength)
    requires head == (if r.HasHeader() then GetHeader(s, r) else Step(s, false))
    requires r.HasHeader() && !head.ok ==> r.noHeadRep && r.ExpectAtMost(sync, r.MaxGap())
    requires b == GetBody(head.s, r) && g == GetGap(b.s, r, GapAfter(r, b.s.tape.sum))
    ensures var f := GetFrame(s, r, c, sync).frame;
            && (f.Some? <==> b.ok && g.ok)
            && (f.Some? ==>
                  && f.value.pre == b.pre && f.value.code == b.code && f.value.post == b.post
                  && f.value.minRemaining
                     == (if r.constLength then Remaining(r.MinGap(), g.s.tape.sum) else r.MinGap())
                  && f.value.maxRemaining
                     == (if r.constLength then Remaining(r.MaxGap(), g.s.tape.sum) else r.MaxGap()))
  {
    hide GetHeader, GetBody, GetGap, Remote.ExpectAtMost;
  }

  /** What is seen after the header of a repetition, whether it is there or not. */
  lemma RepetitionHead(y: Rx, r: Remote, t: Toggles, code: Word, gap: nat, tail: seq<Sig>)
    requires r.BitCount() <= 64 && !WithFoot(r) && Repeatable(r, t, code, gap, tail)
    requires r.HasHeader() && !r.noHeadRep && HeaderAtOnce(r) ==> StartsPulse(AfterHeader(r, t, code, []))
    requires Sees(y, FrameSignals(r, t, code, true), tail) && Owed(y) == []
    ensures var rest, f := AfterHeader(r, t, code, []), FrameSignals(r, t, code, true);
            var head := if r.HasHeader() then GetHeader(y, r) else Step(y, false);
            && Sees(head.s, rest, tail) && Same(y.tape, head.s.tape) && head.s.pendingp == 0
            && EndSpace(Owed(head.s) + rest) == EndSpace(f)
            && (head.ok ==> !r.noHeadRep)
            && (r.HasHeader() && !head.ok ==> r.noHeadRep && r.ExpectAtMost(gap, r.MaxGap()))
  {
    hide Air, FrameSignals, AfterHeader, GetHeader, EndSpace, NoHeader, Sees, Remote.ExpectAtMost;
    RepetitionNested(r, t, code);
    var rest, f := AfterHeader(r, t, code, []), FrameSignals(r, t, code, true);
    OwedNothing(rest);
    if r.HasHeader() && r.noHeadRep {
      HeaderRefused(y, r, rest, tail);
    } else {
      NoHeaderSignals(r);
      MaybeHeaderSeen(y, r, rest, tail);
      if r.HasHeader() {
        var back := [Space(r.shead)] + rest;
        assert f == [Pulse(r.phead)] + back;
        EndSpaceAfter(Pulse(r.phead), back);
        if HeaderAtOnce(r) { EndSpaceAfter(Space(r.shead), rest); }
      }
    }
  }

  lemma NoHeaderSignals(r: Remote)
    ensures !r.HasHeader() ==> HeaderSignals(r) == []
  {
  }

  lemma FootLevels(r: Remote, k: nat, a: seq<Sig>)
    requires |a| >= 2 && Accepts(r, Expected(Space(r.sfoot), k), a[0]) && Accepts(r, Expected(Pulse(r.pfoot), 0), a[1])
    ensures a[0].Space? && a[1].Pulse?
  {
  }

  lemma PulseIsNoGap(r: Remote, gap: nat, a: seq<Sig>)
    requires StartsPulse(a)
    ensures !GapFits(r, gap, a)
  {
  }

  /** What passes for the foot, of which `k` is owed, and for the gap, `end` being the time at the end
      of all. */
  predicate FootFound(r: Remote, k: nat, tail: seq<Sig>, end: int) {
    && |tail| >= 2
    && Accepts(r, Expected(Space(r.sfoot), k), tail[0]) && Accepts(r, Expected(Pulse(r.pfoot), 0), tail[1])
    && GapFits(r, GapAfter(r, end - Total(tail[2..])), tail[2..])
  }

  /** From the state before the foot. */
  lemma FootAndGap(v: Rx, r: Remote, tail: seq<Sig>)
    requires Sees(v, [], tail) && v.pendingp == 0 && r.HasFoot() && (Quiet(v.tape) || |tail| >= 3)
    ensures var x := GetFoot(v, r);
            var g := GetGap(x.s, r, GapAfter(r, x.s.tape.sum));
            && (x.ok && g.ok <==> FootFound(r, v.pendings, tail, Clock(v.tape)))
            && (x.ok && g.ok ==> g.s.tape.sum == Clock(v.tape) - Total(tail[2..]))
  {
    hide Air, Total, Whole, GapAfter, GetFoot, GetGap, Accepts, GapFits;
    FootTried(v, r, tail);
    SeesIsReady(v, [], tail);
    var x := GetFoot(v, r);
    if x.ok {
      SameQuiet(v.tape, x.s.tape);
      GapTried(x.s, r, GapAfter(r, x.s.tape.sum));
    }
  }

  /** From the state after the header. */
  lemma BodyWithoutFoot(h: Rx, r: Remote, t: Toggles, code: Word, tail: seq<Sig>)
    requires Sound(r) && r.HasFoot() && h.pendingp == 0 && Sees(h, AfterHeader(r, t, code, []), tail)
    requires Quiet(h.tape) || |tail| >= 3
    requires tail != [] ==> tail[0].len >= EndSpace(Owed(h) + AfterHeader(r, t, code, []))
    ensures r.BitCount() <= 64
    ensures var b := GetBody(h, r);
            var g := GetGap(b.s, r, GapAfter(r, b.s.tape.sum));
            && (b.ok && g.ok
                <==> FootFound(r, EndSpace(Owed(h) + AfterHeader(r, t, code, [])), tail, Clock(h.tape)))
            && (b.ok && g.ok ==>
                  && b.pre == PreWord(r, t) && b.post == PostWord(r, t)
                  && b.code == AirWord(r, t, code, r.bits, r.preDataBits)
                  && g.s.tape.sum == Clock(h.tape) - Total(tail[2..]))
  {
    hide Sound, Air, AfterHeader, EndSpace, Total, Whole, GapAfter, GetFoot, GetBody, GetGap, Accepts, GapFits,
         AfterTrail, AirWord, PreWord, PostWord;
    SoundSplits(r);
    var e := EndSpace(Owed(h) + AfterHeader(r, t, code, []));
    var v := BodyToTrail(h, r, t, code, [], tail);
    SameQuiet(h.tape, v.tape);
    FootAndGap(v, r, tail);
    if FootFound(r, v.pendings, tail, Clock(h.tape)) || FootFound(r, e, tail, Clock(h.tape)) {
      FootLevels(r, if FootFound(r, e, tail, Clock(h.tape)) then e else v.pendings, tail);
      if StartsPulse(tail[2..]) { PulseIsNoGap(r, GapAfter(r, Clock(h.tape) - Total(tail[2..])), tail[2..]); }
      OwedAtEnd(h, r, t, code, tail);
    }
  }

  /** The decoder asks for the foot of every frame: a repetition that is sent without it is decoded
      just if what follows passes for the foot and the gap after it, and is lost otherwise. */
  lemma RepetitionWithoutFoot(s: Rx, r: Remote, t: Toggles, code: Word, c: Context, gap: nat, tail: seq<Sig>)
    requires Sound(r) && !WithFoot(r) && Repeatable(r, t, code, gap, tail) && Synchronises(r, c, gap)
    requires r.HasHeader() && !r.noHeadRep && HeaderAtOnce(r) ==> StartsPulse(AfterHeader(r, t, code, []))
    requires ToldRepetition(r, t, code, c, tail) && Delivers(s, gap, Air(FrameSignals(r, t, code, true)), tail)
    requires tail != [] ==> tail[0].len >= EndSpace(FrameSignals(r, t, code, true))
    requires Quiet(Rewind(s).tape) || |tail| >= 3
    ensures var d, f := ReceiveDecode(s, r, c), FrameSignals(r, t, code, true);
            && (d.frame.Some? <==> FootInTail(r, f, tail))
            && (d.frame.Some? ==> Gives(d, r, t, code, Total(Air(f)) + tail[0].len + tail[1].len))
  {
    hide GetFrame, ReceiveDecode, FrameSignals, Air, Sound, AfterHeader, GetHeader, GetBody, GetGap, NoHeader,
         EndSpace, Told, HeaderLeads, Total, Whole, Remaining, GapAfter, GapFits, Accepts, AirWord, PreWord, PostWord,
         Synchronises, Remote.ExpectAtMost, Sees;
    SoundSplits(r);
    var f := FrameSignals(r, t, code, true);
    if r.HasRepeat() && c.own { RepetitionLeads(r, t, code); }
    var y := ReadAsFrame(s, r, c, gap, f, tail);
    SeesIsReady(y, f, tail);
    RepetitionHead(y, r, t, code, gap, tail);
    var head := if r.HasHeader() then GetHeader(y, r) else Step(y, false);
    SeesIsReady(head.s, AfterHeader(r, t, code, []), tail);
    SameQuiet(y.tape, head.s.tape);
    BodyWithoutFoot(head.s, r, t, code, tail);
    var b := GetBody(head.s, r);
    FrameOutcome(y, r, c, gap, head, b, GetGap(b.s, r, GapAfter(r, b.s.tape.sum)));
    if |tail| >= 2 { TailTotal(tail); }
  }
}
