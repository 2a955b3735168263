/** Frames of a repetition: what is decoded of them when their header or foot is left out. */
module Repetitions {
  import opened Words
  import opened Signals
  import opened Remotes
  import opened Transmit
  import opened RecBuffers
  import opened Receive
  import opened RoundTrip
  import opened FrameRoundTrip
  import opened RepeatCodes
  import opened DecodeRoundTrip

  /** The foot of a repetition. */
  function RepeatFoot(r: Remote): seq<Sig> {
    if r.noFootRep then [] else FootSignals(r)
  }

  lemma RepetitionNested(r: Remote, t: Toggles, code: Word)
    requires r.BitCount() <= 64
    ensures FrameSignals(r, t, code, true)
         == (if r.noHeadRep then [] else HeaderSignals(r)) + AfterHeader(r, t, code, RepeatFoot(r))
    ensures AfterHeader(r, t, code, RepeatFoot(r)) == [] + AfterHeader(r, t, code, RepeatFoot(r))
  {
    hide HeaderSignals, LeadSignals, PreSignals, DataSignals, PostSignals, TrailSignals, FootSignals;
  }

  /** The header is there, or the remote has none. */
  predicate WithHeader(r: Remote) {
    r.noHeadRep ==> !r.HasHeader()
  }

  predicate WithFoot(r: Remote) {
    r.noFootRep ==> !r.HasFoot()
  }

  /** The signals `a` do not begin with anything that passes for the header. */
  predicate NoHeader(r: Remote, a: seq<Sig>) {
    && a != [] && a[0].Pulse? && a[0].len > 0
    && if r.protocol.Rcmm? then
         |a| >= 2 && a[1].Space? && a[1].len > 0 && !r.Expect(a[0].len + a[1].len, r.phead + r.shead)
       else
         !r.Expect(a[0].len, r.phead)
         || (|a| >= 2 && a[1].Space? && a[1].len > 0 && !r.Expect(r.shead, a[1].len))
  }

  /** Two signals ahead are read one after the other. */
  lemma TwoReads(t: Tape, m: nat, n: nat)
    requires Ready(t) && |Ahead(t)| >= 2 && Ahead(t)[0].len > 0 && Ahead(t)[1].len > 0
    ensures var x := Next(t, m);
            var y := Next(x.tape, n);
            && x.got == Ahead(t)[0] && Reads(t, x.got, x.tape) && Ready(x.tape)
            && y.got == Ahead(t)[1] && Reads(x.tape, y.got, y.tape) && Ready(y.tape)
  {
    var a := Ahead(t);
    assert a == [a[0]] + a[1..] && a[1..] == [a[1]] + a[2..];
    NextReads(t, m, a[0], a[1..]);
    NextReads(Next(t, m).tape, n, a[1], a[2..]);
  }

  lemma OneRead(t: Tape, m: nat)
    requires Ready(t) && Ahead(t) != [] && Ahead(t)[0].len > 0
    ensures var x := Next(t, m); x.got == Ahead(t)[0] && Reads(t, x.got, x.tape) && Ready(x.tape)
  {
    var a := Ahead(t);
    assert a == [a[0]] + a[1..];
    NextReads(t, m, a[0], a[1..]);
  }

  /** `u` is where `s` is. */
  predicate Unmoved(s: Rx, u: Rx) {
    && Same(s.tape, u.tape) && Ahead(u.tape) == Ahead(s.tape) && Ready(u.tape)
    && u.pendingp == 0 && u.pendings == 0
  }

  lemma SymbolHeaderRefused(s: Rx, r: Remote)
    requires Ready(s.tape) && Owed(s) == []
    requires r.protocol.Rcmm? && NoHeader(r, Ahead(s.tape))
    ensures !GetHeader(s, r).ok && Unmoved(s, GetHeader(s, r).s)
  {
    hide Whole, Clock, NextInternal;
    TwoReads(s.tape, r.phead, r.shead);
    var x := Next(s.tape, r.phead);
    var y := Next(x.tape, r.shead);
    BackTwice(s.tape, x.got, x.tape, y.got, y.tape);
  }

  lemma PulseHeaderRefused(s: Rx, r: Remote)
    requires Ready(s.tape) && Owed(s) == [] && r.shead > 0 && r.noHeadRep
    requires !r.protocol.Rcmm? && NoHeader(r, Ahead(s.tape))
    ensures !GetHeader(s, r).ok && Unmoved(s, GetHeader(s, r).s)
  {
    hide Whole, Clock, NextInternal, ExpectPulse;
    var d := Ahead(s.tape)[0].len;
    OneRead(s.tape, r.phead);
    var u := Next(s.tape, r.phead).tape;
    ExpectPulseReading(s, r, r.phead, d, u);
    if r.Expect(d, r.phead) {
      TwoReads(s.tape, r.phead, r.shead);
      var y := Next(u, r.shead);
      BackTwice(s.tape, Pulse(d), u, y.got, y.tape);
    } else {
      BackReads(s.tape, Pulse(d), u);
    }
  }

  /** A header that is not there is refused, and everything read for it is put back. */
  lemma HeaderRefused(s: Rx, r: Remote, c: seq<Sig>, tail: seq<Sig>)
    requires Sees(s, c, tail) && Owed(s) == [] && r.HasHeader() && r.noHeadRep && NoHeader(r, Air(c) + tail)
    ensures !GetHeader(s, r).ok && GetHeader(s, r).s.pendingp == 0 && GetHeader(s, r).s.pendings == 0
    ensures Sees(GetHeader(s, r).s, c, tail) && Same(s.tape, GetHeader(s, r).s.tape)
  {
    hide GetHeader, Air;
    OwedNothing(c);
    if r.protocol.Rcmm? { SymbolHeaderRefused(s, r); } else { PulseHeaderRefused(s, r); }
  }

  lemma HeaderlessSteps(s: Rx, r: Remote, c: Context, sync: nat, head: Step, b: Body, g: Step)
    requires Ready(s.tape) && Decodable(r) && r.HasHeader() && r.noHeadRep && r.ExpectAtMost(sync, r.MaxGap())
    requires head == GetHeader(s, r) && !head.ok && b == GetBody(head.s, r) && b.ok
    requires g == GetGap(b.s, r, GapAfter(r, b.s.tape.sum)) && g.ok
    ensures var f := GetFrame(s, r, c, sync);
            && f.frame.Some? && f.s == g.s
            && f.frame.value.pre == b.pre && f.frame.value.code == b.code && f.frame.value.post == b.post
            && f.frame.value.minRemaining
               == (if r.constLength then Remaining(r.MinGap(), g.s.tape.sum) else r.MinGap())
            && f.frame.value.maxRemaining
               == (if r.constLength then Remaining(r.MaxGap(), g.s.tape.sum) else r.MaxGap())
  {
    hide GetHeader, GetBody, GetGap;
  }

  /** Without its header a frame is decoded as well, as long as the gap before it is not too long. */
  lemma HeaderlessFrameSeen(s: Rx, r: Remote, t: Toggles, code: Word, c: Context, sync: nat, tail: seq<Sig>)
    requires Sound(r) && Sees(s, AfterHeader(r, t, code, FootSignals(r)), tail) && Owed(s) == []
    requires r.HasHeader() && r.noHeadRep && r.ExpectAtMost(sync, r.MaxGap())
    requires NoHeader(r, Air(AfterHeader(r, t, code, FootSignals(r))) + tail)
    requires Ends(r, Clock(s.tape) - Total(tail), tail)
    ensures Gives(GetFrame(s, r, c, sync), r, t, code, Clock(s.tape) - Total(tail))
    ensures Leaves(s, GetFrame(s, r, c, sync).s, tail)
  {
    hide Leaves, SameInput, GetHeader, GetBody, GetGap, GetFrame, Air, Sound, AfterHeader, AirWord, PreWord,
         PostWord, Remaining, GapAfter, Total, Whole, Ahead, StartsPulse, NoHeader;
    SoundSplits(r);
    HeaderRefused(s, r, AfterHeader(r, t, code, FootSignals(r)), tail);
    var head := GetHeader(s, r);
    BodySeen(head.s, r, t, code, tail);
    var b := GetBody(head.s, r);
    EndOfFrame(b.s, tail);
    var gap := GapAfter(r, b.s.tape.sum);
    GapSeen(b.s, r, gap, tail);
    HeaderlessSteps(s, r, c, sync, head, b, GetGap(b.s, r, gap));
    SameIsInput(s, head.s);
    SameIsInput(head.s, b.s);
    LeavesFrom(head.s, b.s, GetGap(b.s, r, gap).s, tail);
    LeavesFrom(s, head.s, GetGap(b.s, r, gap).s, tail);
  }

  /** A repetition with the header and the foot there are is a frame like the first. */
  lemma WholeRepetition(r: Remote, t: Toggles, code: Word)
    requires r.BitCount() <= 64 && WithHeader(r) && WithFoot(r)
    ensures FrameSignals(r, t, code, true) == FrameSignals(r, t, code, false)
  {
    hide LeadSignals, PreSignals, DataSignals, PostSignals, TrailSignals;
  }

  /** The conditions on the frames of a repetition. */
  predicate Repeatable(r: Remote, t: Toggles, code: Word, gap: nat, tail: seq<Sig>)
    requires r.BitCount() <= 64
  {
    && StartsPulse(FrameSignals(r, t, code, true))
    && if WithHeader(r) then
         r.HasHeader() && HeaderAtOnce(r) ==> StartsPulse(AfterHeader(r, t, code, FootSignals(r)))
       else
         r.ExpectAtMost(gap, r.MaxGap()) && NoHeader(r, Air(FrameSignals(r, t, code, true)) + tail)
  }

  /** Where a repeat code is looked for first, the frame of a repetition is told from one, and has
      its header if one is asked for. (The frames themselves are only repeated by remotes without
      a repeat code.) */
  predicate ToldRepetition(r: Remote, t: Toggles, code: Word, c: Context, tail: seq<Sig>)
    requires r.BitCount() <= 64
  {
    && Told(r, c, FrameSignals(r, t, code, true), tail)
    && (r.HasRepeat() && c.own && HeaderRepeated(r) ==> !r.noHeadRep)
  }

  lemma RepetitionLeads(r: Remote, t: Toggles, code: Word)
    requires r.BitCount() <= 64 && (HeaderRepeated(r) ==> !r.noHeadRep)
    requires HeaderAtOnce(r) && HeaderRepeated(r) ==> StartsPulse(AfterHeader(r, t, code, RepeatFoot(r)))
    ensures HeaderLeads(r, FrameSignals(r, t, code, true))
  {
    hide AfterHeader, FrameSignals, HeaderLeads;
    RepetitionNested(r, t, code);
    if HeaderRepeated(r) {
      LeadsAs(r, FrameSignals(r, t, code, true), AfterHeader(r, t, code, RepeatFoot(r)));
    } else {
      NoneLeads(r, FrameSignals(r, t, code, true));
    }
  }

  /** Decoding undoes the sending of a repetition that has its foot, with its header or without. */
  lemma DecodeUndoesRepetition(s: Rx, r: Remote, t: Toggles, code: Word, c: Context, gap: nat, tail: seq<Sig>)
    requires Sound(r) && WithFoot(r) && Repeatable(r, t, code, gap, tail) && Synchronises(r, c, gap)
    requires ToldRepetition(r, t, code, c, tail) && Delivers(s, gap, Air(FrameSignals(r, t, code, true)), tail)
    requires Ends(r, Total(Air(FrameSignals(r, t, code, true))), tail)
    ensures Gives(ReceiveDecode(s, r, c), r, t, code, Total(Air(FrameSignals(r, t, code, true))))
    ensures Leaves(Rewind(s), ReceiveDecode(s, r, c).s, tail)
  {
    hide Leaves, SameInput, GetFrame, ReceiveDecode, FrameSignals, Air, Sound, Gives, AfterHeader, Sees, NoHeader,
         Told, HeaderLeads;
    SoundSplits(r);
    if WithHeader(r) {
      WholeRepetition(r, t, code);
      DecodeUndoesSend(s, r, t, code, c, gap, tail);
    } else {
      RepetitionNested(r, t, code);
      SameFoot(r);
      if r.HasRepeat() && c.own { RepetitionLeads(r, t, code); }
      var y := ReadAsFrame(s, r, c, gap, FrameSignals(r, t, code, true), tail);
      HeaderlessFrameSeen(y, r, t, code, c, gap, tail);
      LeavesFrom(Rewind(s), y, ReceiveDecode(s, r, c).s, tail);
    }
  }

  lemma SameFoot(r: Remote)
    requires WithFoot(r)
    ensures RepeatFoot(r) == FootSignals(r)
  {
  }

  // ----- the repeat flag -----

  /** The decoder takes a frame that follows a gap of length `sync` for a repetition. */
  predicate IsRepeat(r: Remote, c: Context, sync: nat) {
    (!r.HasRepeat() || c.reps < r.minCodeRepeat) && r.ExpectAtMost(sync, c.maxRemainingGap)
  }

  lemma FrameFlag(s: Rx, r: Remote, c: Context, sync: nat)
    requires Ready(s.tape) && Decodable(r)
    ensures var d := GetFrame(s, r, c, sync); d.frame.Some? ==> d.frame.value.repeatFlag == IsRepeat(r, c, sync)
  {
    hide GetHeader, GetBody, GetGap;
  }

  lemma DecodeFlag(s: Rx, r: Remote, c: Context, gap: nat, frame: seq<Sig>, tail: seq<Sig>)
    requires Delivers(s, gap, Air(frame), tail) && Synchronises(r, c, gap) && Decodable(r)
    requires Told(r, c, frame, tail) && (r.HasRepeat() && c.own ==> HeaderLeads(r, frame))
    ensures var d := ReceiveDecode(s, r, c); d.frame.Some? ==> d.frame.value.repeatFlag == IsRepeat(r, c, gap)
  {
    hide GetFrame, ReceiveDecode, Air, Sees, Told, HeaderLeads;
    var y := ReadAsFrame(s, r, c, gap, frame, tail);
    SeesIsReady(y, frame, tail);
    FrameFlag(y, r, c, gap);
  }

  lemma SeesIsReady(s: Rx, c: seq<Sig>, tail: seq<Sig>)
    requires Sees(s, c, tail)
    ensures Ready(s.tape)
  {
  }
}
