/** What was sent is decoded: a frame to its words, a repeat code to the last code, in any state of
    the receiver. */
module DecodeRoundTrip {
  import opened Words
  import opened Signals
  import opened SendBuffers
  import opened Remotes
  import opened Transmit
  import opened RecBuffers
  import opened Receive
  import opened RoundTrip
  import opened Patterns
  import opened FrameRoundTrip
  import opened RepeatCodes

  // ----- frames -----

  /** Where a repeat code is looked for first, the signals `f` and what follows are told from one. */
  predicate Told(r: Remote, c: Context, f: seq<Sig>, tail: seq<Sig>) {
    r.HasRepeat() && c.own ==> RepeatKnown(r, f, tail) && !TakenForRepeat(r, f, tail)
  }

  /** Signals that are told from a repeat code are read as a frame. */
  lemma ReadAsFrame(s: Rx, r: Remote, c: Context, gap: nat, f: seq<Sig>, tail: seq<Sig>) returns (y: Rx)
    requires Delivers(s, gap, Air(f), tail) && Synchronises(r, c, gap) && Decodable(r)
    requires Told(r, c, f, tail) && (r.HasRepeat() && c.own ==> HeaderLeads(r, f))
    ensures Sees(y, f, tail) && Owed(y) == [] && Clock(y.tape) == Total(Air(f)) + Total(tail)
    ensures SameInput(Rewind(s), y)
    ensures ReceiveDecode(s, r, c) == GetFrame(y, r, c, gap)
  {
    hide Air, SyncBuffer, GetHeader, GetRepeat, GetFrame, TakenForRepeat, RepeatKnown, Total, Synchronises, Sees;
    SyncSeen(s, r, c, gap, f, tail);
    if r.HasRepeat() && c.own {
      y := OwnDecides(s, r, c, gap, f, tail);
    } else {
      y := SyncBuffer(Rewind(s), r, c.last).s;
    }
  }

  lemma NoneLeads(r: Remote, f: seq<Sig>)
    requires !HeaderRepeated(r)
    ensures HeaderLeads(r, f)
  {
  }

  lemma FrameLeads(r: Remote, t: Toggles, code: Word)
    requires r.BitCount() <= 64 && Transmissible(r, t, code)
    ensures HeaderLeads(r, FrameSignals(r, t, code, false))
  {
    hide AfterHeader, FrameSignals, HeaderLeads;
    FrameNested(r, t, code);
    if HeaderRepeated(r) {
      LeadsAs(r, FrameSignals(r, t, code, false), AfterHeader(r, t, code, FootSignals(r)));
    } else {
      NoneLeads(r, FrameSignals(r, t, code, false));
    }
  }

  /** Decoding undoes sending: from a frame as it is on the air, the receiver gets the very words
      that were sent, and computes how long the gap after it is. */
  lemma DecodeUndoesSend(s: Rx, r: Remote, t: Toggles, code: Word, c: Context, gap: nat, tail: seq<Sig>)
    requires Sound(r) && Transmissible(r, t, code) && Synchronises(r, c, gap)
    requires Told(r, c, FrameSignals(r, t, code, false), tail) && Delivers(s, gap, OnAir(r, t, code), tail)
    requires Ends(r, Total(OnAir(r, t, code)) - Discount(r), tail)
    ensures Gives(ReceiveDecode(s, r, c), r, t, code, Total(OnAir(r, t, code)) - Discount(r))
    ensures Leaves(Rewind(s), ReceiveDecode(s, r, c).s, tail)
  {
    hide Leaves, SameInput, GetFrame, ReceiveDecode, FrameSignals, Air, Sound, Gives, AfterHeader, Sees, Told,
         HeaderLeads;
    SoundSplits(r);
    FrameLeads(r, t, code);
    var y := ReadAsFrame(s, r, c, gap, FrameSignals(r, t, code, false), tail);
    FrameSeen(y, r, t, code, c, gap, tail);
    LeavesFrom(Rewind(s), y, ReceiveDecode(s, r, c).s, tail);
  }

  /** The other side of the condition: a frame of the remote decoded last that passes for a repeat
      code is decoded to the last code instead of its own. */
  lemma FrameTakenForRepeat(s: Rx, r: Remote, t: Toggles, code: Word, c: Context, gap: nat, tail: seq<Sig>)
    requires Sound(r) && Transmissible(r, t, code) && Synchronises(r, c, gap) && r.HasRepeat() && c.own
    requires Delivers(s, gap, OnAir(r, t, code), tail)
    requires var f := FrameSignals(r, t, code, false); RepeatKnown(r, f, tail) && TakenForRepeat(r, f, tail)
    ensures var f := FrameSignals(r, t, code, false);
            && |RepeatPattern(r, HeaderOwed(r))| <= |RepeatAhead(r, f, tail)|
            && ReceiveDecode(s, r, c).frame == RepeatFrame(r, c.lastCode, RepeatLength(r, f, tail))
  {
    hide Sound, FrameSignals, Air, ReceiveDecode, HeaderLeads, TakenForRepeat, RepeatKnown;
    SoundSplits(r);
    FrameLeads(r, t, code);
    var y := OwnDecides(s, r, c, gap, FrameSignals(r, t, code, false), tail);
  }

  /** Whatever follows, the signals `f` differ from a repeat code. */
  predicate Unlike(r: Remote, f: seq<Sig>) {
    var p, a := RepeatPattern(r, HeaderOwed(r)), RepeatAhead(r, f, []);
    exists i :: 0 <= i < |p| && i < |a| && !Accepts(r, p[i], a[i])
  }

  lemma UnlikeIsTold(r: Remote, c: Context, f: seq<Sig>, tail: seq<Sig>)
    requires Unlike(r, f)
    ensures Told(r, c, f, tail)
  {
    hide Accepts, RepeatPattern, Air;
    var p, a, b := RepeatPattern(r, HeaderOwed(r)), RepeatAhead(r, f, []), RepeatAhead(r, f, tail);
    assert b == a + tail;
    var i :| 0 <= i < |p| && i < |a| && !Accepts(r, p[i], a[i]);
    assert b[i] == a[i];
  }

  // ----- what comes after the gap -----

  /** A frame and the gap after it are decoded whatever the device does then: further signals,
      timeouts, values of length 0, or more than there is room for. */
  lemma WhateverFollows(s: Rx, r: Remote, t: Toggles, code: Word, c: Context, gap: nat, after: nat, x: seq<Event>)
    requires Sound(r) && Transmissible(r, t, code) && Synchronises(r, c, gap)
    requires Positive(FrameSignals(r, t, code, false))
    requires |OnAir(r, t, code)| + 2 <= RBUF_SIZE
    requires Told(r, c, FrameSignals(r, t, code, false),
                  [Space(after)] + Delivered(x, RBUF_SIZE - |OnAir(r, t, code)| - 2))
    requires var f := OnAir(r, t, code);
             && s.tape.buf == [] && s.tape.rptr == 0
             && s.tape.feed == Marks([Space(gap)] + (f + [Space(after)])) + x
             && gap > 0 && after > 0 && after >= GapAfter(r, Total(f) - Discount(r))
    ensures Gives(ReceiveDecode(s, r, c), r, t, code, Total(OnAir(r, t, code)) - Discount(r))
  {
    hide Air, Sound, FrameSignals, ReceiveDecode, Gives, AfterHeader, Delivered, Marks, Transmissible, Synchronises,
         Told;
    SoundSplits(r);
    var f := OnAir(r, t, code);
    var tail := [Space(after)] + Delivered(x, RBUF_SIZE - |f| - 2);
    AirPositive(FrameSignals(r, t, code, false));
    DeliveredMarks([Space(gap)] + (f + [Space(after)]), x, RBUF_SIZE);
    assert Whole(Rewind(s).tape) == [Space(gap)] + (f + tail);
    DecodeUndoesSend(s, r, t, code, c, gap, tail);
  }

  /** The same, from the contents of the transmit buffer. */
  lemma DecodeUndoesSendBuffer(s: Rx, r: Remote, t: Toggles, code: Word, c: Context, gap: nat, tail: seq<Sig>, u: Tx)
    requires Sound(r) && Transmissible(r, t, code) && Synchronises(r, c, gap)
    requires Told(r, c, FrameSignals(r, t, code, false), tail)
    requires Positive(FrameSignals(r, t, code, false)) && Sent(r, t, code, u)
    requires Delivers(s, gap, Levels(u.buf), tail) && Ends(r, u.sum - Discount(r), tail)
    ensures Gives(ReceiveDecode(s, r, c), r, t, code, u.sum - Discount(r))
  {
    hide Air, Sound, FrameSignals, ReceiveDecode, Gives, AfterHeader;
    SoundSplits(r);
    SentFrame(FrameSignals(r, t, code, false));
    DecodeUndoesSend(s, r, t, code, c, gap, tail);
  }

  // ----- repeat codes -----

  lemma RepeatParts(r: Remote)
    requires r.HasRepeat()
    ensures StartsPulse(RepeatSignals(r)) && Positive(RepeatSignals(r))
  {
  }

  /** The signals of a repeat code after its lead pulse has been joined. */
  function RepeatOnAir(r: Remote): seq<Sig> {
    [Pulse(r.plead + r.prepeat)] + if r.ptrail > 0 then [Space(r.srepeat), Pulse(r.ptrail)] else []
  }

  /** The signals of a repeat code but the header. */
  function RepeatRest(r: Remote): seq<Sig> {
    LeadSignals(r) + [Pulse(r.prepeat), Space(r.srepeat)] + TrailSignals(r)
  }

  lemma RepeatLeads(r: Remote)
    requires r.HasRepeat()
    ensures HeaderLeads(r, RepeatSignals(r)) && StartsPulse(RepeatRest(r))
    ensures RepeatSignals(r) == (if HeaderRepeated(r) then [Pulse(r.phead), Space(r.shead)] else []) + RepeatRest(r)
  {
    var f := RepeatSignals(r);
    if HeaderRepeated(r) {
      assert f == [Pulse(r.phead)] + ([Space(r.shead)] + RepeatRest(r)) && f[2..] == RepeatRest(r);
    } else {
      assert f == RepeatRest(r);
    }
  }

  lemma RestOnAir(r: Remote)
    requires r.HasRepeat()
    ensures Air(RepeatRest(r)) == RepeatOnAir(r)
  {
    hide Air;
    var end := TrailSignals(r);
    var back := [Space(r.srepeat)] + end;
    AirEnd(r.ptrail, r.srepeat);
    AirPulse(r.plead, r.prepeat, back);
    if r.plead > 0 {
      assert RepeatRest(r) == [Pulse(r.plead)] + ([Pulse(r.prepeat)] + back);
    } else {
      assert RepeatRest(r) == [Pulse(r.prepeat)] + back;
    }
  }

  lemma AirEnd(p: nat, d: nat)
    ensures Air([Space(d)] + (if p != 0 then [Pulse(p)] else [])) == (if p > 0 then [Space(d), Pulse(p)] else [])
  {
    var e := [Space(d)] + (if p != 0 then [Pulse(p)] else []);
    if p > 0 { assert e[1..] == [Pulse(p)]; }
  }

  /** What is ahead where a repeat code that was sent is looked for. */
  lemma RepeatIsAhead(r: Remote, tail: seq<Sig>)
    requires r.HasRepeat()
    ensures RepeatAhead(r, RepeatSignals(r), tail)
         == (if HeaderOwed(r) > 0 then [Space(HeaderOwed(r))] else []) + RepeatOnAir(r) + tail
  {
    hide Air, RepeatSignals, RepeatRest, RepeatOnAir;
    RepeatLeads(r);
    RestOnAir(r);
    var f := RepeatSignals(r);
    if HeaderRepeated(r) { assert f[2..] == RepeatRest(r); }
    OwedNothing(f);
    OwedNothing(RepeatRest(r));
    AirSpace(0, HeaderOwed(r), RepeatRest(r));
  }

  /** The gap after a repeat code. */
  predicate RepeatEnds(r: Remote, length: int, tail: seq<Sig>) {
    tail == [] || (tail[0].Space? && tail[0].len > 0 && tail[0].len >= RepeatGapOf(r, r.MinGap(), length))
  }

  /** What a remote that sends the pulse first sends as a repeat code is taken for one. */
  lemma RepeatResembles(r: Remote, tail: seq<Sig>)
    requires r.HasRepeat() && !r.IsBiphase() && RepeatEnds(r, Total(Air(RepeatSignals(r))), tail)
    ensures var f := RepeatSignals(r);
            && RepeatKnown(r, f, tail) && TakenForRepeat(r, f, tail)
            && RepeatAhead(r, f, tail)[|RepeatPattern(r, HeaderOwed(r))|..] == tail
            && RepeatLength(r, f, tail) == Total(Air(f))
  {
    hide Air, Total, RepeatSignals, RepeatAhead, Remote.Expect, Remote.ExpectAtLeast, RepeatGapOf;
    var f := RepeatSignals(r);
    RepeatIsAhead(r, tail);
    var p, a := RepeatPattern(r, HeaderOwed(r)), RepeatAhead(r, f, tail);
    ExpectExact(r, HeaderOwed(r));
    ExpectExact(r, r.prepeat);
    ExpectExact(r, r.srepeat);
    ExpectExact(r, r.ptrail);
    assert a[|p|..] == tail;
    if tail != [] { ExpectAtLeastMore(r, tail[0].len, RepeatGapOf(r, r.MinGap(), Total(Air(f)))); }
  }

  /** A repeat code makes the receiver decode the last code once more. */
  lemma RepeatCodeIsReceived(s: Rx, r: Remote, c: Context, gap: nat, tail: seq<Sig>)
    requires Decodable(r) && r.HasRepeat() && !r.IsBiphase() && c.own && Synchronises(r, c, gap)
    requires Delivers(s, gap, Air(RepeatSignals(r)), tail) && RepeatEnds(r, Total(Air(RepeatSignals(r))), tail)
    ensures ReceiveDecode(s, r, c).frame == RepeatFrame(r, c.lastCode, Total(Air(RepeatSignals(r))))
    ensures Leaves(Rewind(s), ReceiveDecode(s, r, c).s, tail)
  {
    hide Leaves, Air, RepeatSignals, ReceiveDecode, HeaderLeads, TakenForRepeat, RepeatKnown, RepeatFrame, RepeatLength;
    RepeatLeads(r);
    RepeatResembles(r, tail);
    var y := OwnDecides(s, r, c, gap, RepeatSignals(r), tail);
  }

  /** The transmit buffer after `send_repeat` and synchronisation, nothing lost. */
  predicate RepeatSent(r: Remote, u: Tx) {
    u == Sync(SendAll(CLEARED, RepeatSignals(r))) && !Bad(u)
  }

  /** The same, from the contents of the transmit buffer. */
  lemma RepeatBufferIsReceived(s: Rx, r: Remote, c: Context, gap: nat, tail: seq<Sig>, u: Tx)
    requires Decodable(r) && r.HasRepeat() && !r.IsBiphase() && c.own && Synchronises(r, c, gap)
    requires RepeatSent(r, u) && Delivers(s, gap, Levels(u.buf), tail) && RepeatEnds(r, u.sum, tail)
    ensures ReceiveDecode(s, r, c).frame == RepeatFrame(r, c.lastCode, u.sum)
  {
    hide Air, RepeatSignals, ReceiveDecode, RepeatEnds, RepeatFrame;
    RepeatParts(r);
    SentFrame(RepeatSignals(r));
    RepeatCodeIsReceived(s, r, c, gap, tail);
  }

  // ----- repeat codes of biphase remotes -----

  /** When a biphase remote's repeat code passes for one, although it is sent pulse first and read
      space first. */
  predicate BiphaseFits(r: Remote, tail: seq<Sig>) {
    var length := Total(Air(RepeatSignals(r)));
    && r.ptrail == 0
    && if r.plead > 0 then
         && r.Expect(r.plead + r.prepeat, r.plead)
         && |tail| >= 2 && Accepts(r, Expected(Space(r.srepeat), 0), tail[0])
         && Accepts(r, Expected(Pulse(r.prepeat), 0), tail[1])
         && GapFits(r, RepeatGapOf(r, r.MinGap(), length + tail[0].len + tail[1].len), tail[2..])
       else
         && HeaderOwed(r) > 0 && r.Expect(0, r.srepeat)
         && GapFits(r, RepeatGapOf(r, r.MinGap(), length), tail)
  }

  lemma TailTotal(tail: seq<Sig>)
    requires |tail| >= 2
    ensures Total(tail) == tail[0].len + tail[1].len + Total(tail[2..])
  {
    assert tail[1..][1..] == tail[2..];
  }

  /** With a trail pulse the repeat code goes on where it should have ended. */
  lemma BiphaseTrailed(r: Remote, tail: seq<Sig>)
    requires r.HasRepeat() && r.IsBiphase() && !StartsPulse(tail) && r.ptrail > 0
    ensures !TakenForRepeat(r, RepeatSignals(r), tail) && RepeatKnown(r, RepeatSignals(r), tail)
  {
    hide Air, Total, RepeatSignals, RepeatAhead, Remote.Expect, GapFits;
    RepeatIsAhead(r, tail);
    var p, a := RepeatPattern(r, HeaderOwed(r)), RepeatAhead(r, RepeatSignals(r), tail);
    var o := |OwedPattern(HeaderOwed(r))|;
    if r.plead > 0 {
      assert p[o + 3] == Expected(Pulse(r.ptrail), 0);
      if tail != [] { assert a[o + 3] == tail[0]; }
    } else if o == 0 {
      assert p[0].sig.Space? && a[0].Pulse?;
    } else {
      assert p[2].sig.Pulse? && a[2].Space?;
    }
  }

  lemma BiphaseLead(r: Remote, tail: seq<Sig>)
    requires r.HasRepeat() && r.IsBiphase() && r.ptrail == 0 && r.plead > 0
    ensures TakenForRepeat(r, RepeatSignals(r), tail) <==> BiphaseFits(r, tail)
  {
    hide Air, Total, RepeatSignals, RepeatAhead, Remote.Expect, GapFits, RepeatGapOf;
    RepeatIsAhead(r, tail);
    var p, a := RepeatPattern(r, HeaderOwed(r)), RepeatAhead(r, RepeatSignals(r), tail);
    var o := |OwedPattern(HeaderOwed(r))|;
    ExpectExact(r, HeaderOwed(r));
    assert |p| == o + 3 && |a| == o + 1 + |tail|;
    assert p[o] == Expected(Pulse(r.plead), 0) && a[o] == Pulse(r.plead + r.prepeat);
    assert p[o + 1] == Expected(Space(r.srepeat), 0) && p[o + 2] == Expected(Pulse(r.prepeat), 0);
    if |tail| >= 2 {
      TailTotal(tail);
      assert a[o + 1] == tail[0] && a[o + 2] == tail[1] && a[|p|..] == tail[2..];
    }
  }

  lemma BiphaseNoLead(r: Remote, tail: seq<Sig>)
    requires r.HasRepeat() && r.IsBiphase() && r.ptrail == 0 && r.plead == 0
    ensures TakenForRepeat(r, RepeatSignals(r), tail) <==> BiphaseFits(r, tail)
    ensures HeaderOwed(r) == 0 ==> RepeatKnown(r, RepeatSignals(r), tail)
  {
    hide Air, Total, RepeatSignals, RepeatAhead, Remote.Expect, GapFits, RepeatGapOf;
    RepeatIsAhead(r, tail);
    var h := HeaderOwed(r);
    var p, a := RepeatPattern(r, h), RepeatAhead(r, RepeatSignals(r), tail);
    assert p[0] == Expected(Space(r.srepeat), h) && p[1] == Expected(Pulse(r.prepeat), 0);
    ExpectExact(r, r.prepeat);
    if h == 0 {
      assert a[0].Pulse?;
    } else {
      assert a[0] == Space(h) && a[1] == Pulse(r.prepeat) && a[|p|..] == tail;
    }
  }

  lemma BiphaseTaken(r: Remote, tail: seq<Sig>)
    requires r.HasRepeat() && r.IsBiphase() && !StartsPulse(tail)
    ensures TakenForRepeat(r, RepeatSignals(r), tail) <==> BiphaseFits(r, tail)
    ensures r.ptrail > 0 || (r.plead == 0 && HeaderOwed(r) == 0) ==> RepeatKnown(r, RepeatSignals(r), tail)
  {
    hide TakenForRepeat, RepeatKnown;
    if r.ptrail > 0 { BiphaseTrailed(r, tail); }
    else if r.plead > 0 { BiphaseLead(r, tail); }
    else { BiphaseNoLead(r, tail); }
  }

  /** The finding: a biphase remote's repeat code is hardly ever received as one, and never if there
      is a trail pulse. */
  lemma BiphaseRepeat(s: Rx, r: Remote, c: Context, gap: nat, tail: seq<Sig>) returns (y: Rx)
    requires Decodable(r) && r.HasRepeat() && r.IsBiphase() && c.own && Synchronises(r, c, gap)
    requires Delivers(s, gap, Air(RepeatSignals(r)), tail) && RepeatKnown(r, RepeatSignals(r), tail)
    ensures if BiphaseFits(r, tail) then
              && |RepeatPattern(r, HeaderOwed(r))| <= |RepeatAhead(r, RepeatSignals(r), tail)|
              && ReceiveDecode(s, r, c).frame
                 == RepeatFrame(r, c.lastCode, RepeatLength(r, RepeatSignals(r), tail))
            else Sees(y, RepeatSignals(r), tail) && ReceiveDecode(s, r, c) == GetFrame(y, r, c, gap)
  {
    hide Air, RepeatSignals, ReceiveDecode, HeaderLeads, TakenForRepeat, RepeatKnown, RepeatFrame, BiphaseFits, Sees,
         GetFrame;
    RepeatLeads(r);
    BiphaseTaken(r, tail);
    y := OwnDecides(s, r, c, gap, RepeatSignals(r), tail);
    SeenReady(y, RepeatSignals(r), tail);
  }

  lemma SeenReady(s: Rx, c: seq<Sig>, tail: seq<Sig>)
    ensures Sees(s, c, tail) ==> Ready(s.tape)
  {
  }
}
