/** The two ends of a frame that the decoder asks for: its header, and the gap after it. */
module FrameEnds {
  import opened Words
  import opened Signals
  import opened Remotes
  import opened Transmit
  import opened RecBuffers
  import opened Receive
  import opened RoundTrip
  import opened Patterns
  import opened FrameRoundTrip
  import opened RepeatCodes
  import opened DecodeRoundTrip
  import opened Repetitions
  import opened Tolerance

  /** The signals `a` begin with what passes for the header. Its space is looked at only where a
      header may be left out. */
  predicate HeaderAhead(r: Remote, a: seq<Sig>) {
    if r.protocol.Rcmm? then
      |a| >= 2 && IsPulse(a[0]) && IsSpace(a[1]) && Near(r, a[0].len + a[1].len, r.phead + r.shead)
    else
      && a != [] && IsPulse(a[0]) && Near(r, a[0].len, r.phead)
      && (r.noHeadRep && |a| >= 2 && IsSpace(a[1]) ==> Near(r, r.shead, a[1].len))
  }

  predicate IsPulse(x: Sig) {
    x.Pulse? && x.len > 0
  }

  predicate IsSpace(x: Sig) {
    x.Space? && x.len > 0
  }

  /** The next two signals are known. */
  predicate TwoKnown(t: Tape)
    requires Safe(t)
  {
    |Ahead(t)| >= 2 || Quiet(t)
  }

  /** The decoder accepts the header just if it is there. */
  lemma HeaderDecides(s: Rx, r: Remote)
    requires Ready(s.tape) && s.pendingp == 0 && s.pendings == 0 && r.HasHeader() && TwoKnown(s.tape)
    ensures GetHeader(s, r).ok <==> HeaderAhead(r, Ahead(s.tape))
  {
    hide Whole, Clock, Next, Near, Remote.Expect;
    var a := Ahead(s.tape);
    if r.protocol.Rcmm? {
      ReadAhead(s.tape, r.phead);
      var x := Next(s.tape, r.phead);
      if a != [] {
        ReadAhead(x.tape, r.shead);
        if |a| >= 2 { ExpectIsNear(r, a[0].len + a[1].len, r.phead + r.shead); }
      }
    } else {
      PlainHeaderDecides(s, r);
    }
  }

  lemma PlainHeaderDecides(s: Rx, r: Remote)
    requires Ready(s.tape) && s.pendingp == 0 && s.pendings == 0 && r.HasHeader() && TwoKnown(s.tape)
    requires !r.protocol.Rcmm?
    ensures GetHeader(s, r).ok <==> HeaderAhead(r, Ahead(s.tape))
  {
    hide Whole, Clock, Next, Near, ExpectPulse, Remote.Expect;
    var a := Ahead(s.tape);
    PulseTried(s, r, r.phead);
    if a != [] { ExpectIsNear(r, a[0].len, r.phead); }
    var x := ExpectPulse(s, r, r.phead);
    if x.ok {
      SameQuiet(s.tape, x.s.tape);
      ReadAhead(x.s.tape, r.shead);
      if |a| >= 2 { ExpectIsNear(r, r.shead, a[1].len); }
    }
  }

  /** Where the header is asked for, a frame without it is refused. */
  lemma NoFrameWithoutHeader(s: Rx, r: Remote, c: Context, sync: nat)
    requires Ready(s.tape) && Decodable(r) && r.HasHeader() && !GetHeader(s, r).ok
    requires !(r.noHeadRep && r.ExpectAtMost(sync, r.MaxGap()))
    ensures GetFrame(s, r, c, sync).frame.None?
  {
    hide GetHeader, GetBody, GetGap;
  }

  /** Where a repeat code is looked for after a header, there is none without it. */
  lemma NoRepeatWithoutHeader(s: Rx, r: Remote, c: Context, y: Length)
    requires Safe(s.tape) && Decodable(r) && r.HasRepeat() && c.own && HeaderRepeated(r)
    requires y == SyncBuffer(Rewind(s), r, c.last) && y.len != 0 && !GetHeader(y.s, r).ok
    ensures ReceiveDecode(s, r, c).frame.None?
  {
    hide SyncBuffer, GetHeader, GetRepeat, GetFrame, Rewind;
  }

  /** The header may be left out: under NO_HEAD_REP, after a gap that is not longer than the greatest
      gap, as far as the tolerance for that goes, and not where it leads a repeat code. */
  predicate MayLack(r: Remote, c: Context, gap: nat) {
    && r.noHeadRep && (gap <= r.MaxGap() || Near(r, gap, r.MaxGap()))
    && !(r.HasRepeat() && c.own && r.repeatHeader)
  }

  lemma SeenIsKnown(s: Rx, f: seq<Sig>, tail: seq<Sig>)
    requires Sees(s, f, tail) && Owed(s) == [] && (|Air(f) + tail| >= 2 || tail == [])
    ensures Ready(s.tape) && s.pendingp == 0 && s.pendings == 0
    ensures TwoKnown(s.tape) && Ahead(s.tape) == Air(f) + tail
  {
    hide Air;
    OwedNothing(f);
  }

  /** Signals that begin with nothing that passes for the header are refused, unless it may be left
      out. */
  lemma HeaderIsAskedFor(s: Rx, r: Remote, c: Context, gap: nat, f: seq<Sig>, tail: seq<Sig>)
    requires Decodable(r) && r.HasHeader() && Delivers(s, gap, Air(f), tail) && Synchronises(r, c, gap)
    requires !HeaderAhead(r, Air(f) + tail) && (|Air(f) + tail| >= 2 || tail == []) && !MayLack(r, c, gap)
    requires Told(r, c, f, tail)
    ensures ReceiveDecode(s, r, c).frame.None?
  {
    hide Air, Sees, Told, GetFrame, ReceiveDecode, GetHeader, HeaderAhead, Synchronises, TwoKnown, Delivers, SyncBuffer,
         Near, Remote.ExpectAtMost, SameInput;
    if r.HasRepeat() && c.own && HeaderRepeated(r) {
      DeliversGap(s, gap, Air(f), tail);
      SyncSeen(s, r, c, gap, f, tail);
      var y := SyncBuffer(Rewind(s), r, c.last);
      SeenIsKnown(y.s, f, tail);
      HeaderDecides(y.s, r);
      NoRepeatWithoutHeader(s, r, c, y);
    } else {
      if r.HasRepeat() && c.own { NoneLeads(r, f); }
      var y := ReadAsFrame(s, r, c, gap, f, tail);
      SeenIsKnown(y, f, tail);
      HeaderDecides(y, r);
      ExpectAtMostIsNear(r, gap, r.MaxGap());
      NoFrameWithoutHeader(y, r, c, gap);
    }
  }

  lemma DeliversGap(s: Rx, gap: nat, f: seq<Sig>, tail: seq<Sig>)
    requires Delivers(s, gap, f, tail)
    ensures Safe(s.tape) && gap > 0
  {
  }

  lemma NoHeaderIsAhead(r: Remote, a: seq<Sig>)
    requires r.noHeadRep && |a| >= 2 && IsPulse(a[0]) && IsSpace(a[1]) && !HeaderAhead(r, a)
    ensures NoHeader(r, a)
  {
    hide Near, Remote.Expect;
    ExpectIsNear(r, a[0].len + a[1].len, r.phead + r.shead);
    ExpectIsNear(r, a[0].len, r.phead);
    ExpectIsNear(r, r.shead, a[1].len);
  }

  /** A frame that is sent without its header is decoded if and only if the header may be left out. */
  lemma HeaderlessExactly(s: Rx, r: Remote, t: Toggles, code: Word, c: Context, gap: nat, tail: seq<Sig>)
    requires Sound(r) && r.BitCount() <= 64 && r.HasHeader() && Synchronises(r, c, gap)
    requires var f := AfterHeader(r, t, code, FootSignals(r));
             var a := Air(f) + tail;
             && Delivers(s, gap, Air(f), tail) && Told(r, c, f, tail) && Ends(r, Total(Air(f)), tail)
             && |a| >= 2 && IsPulse(a[0]) && IsSpace(a[1]) && !HeaderAhead(r, a)
    ensures var d, f := ReceiveDecode(s, r, c), AfterHeader(r, t, code, FootSignals(r));
            && (d.frame.Some? <==> MayLack(r, c, gap))
            && (d.frame.Some? ==> Gives(d, r, t, code, Total(Air(f))))
  {
    hide Air, Sees, Told, GetFrame, ReceiveDecode, GetHeader, HeaderAhead, Synchronises, Delivers, Sound, AfterHeader,
         Gives, Total, NoHeader, Near, Remote.ExpectAtMost, SameInput, FootSignals, Leaves, GapAfter;
    var f := AfterHeader(r, t, code, FootSignals(r));
    SoundSplits(r);
    if MayLack(r, c, gap) {
      NoHeaderIsAhead(r, Air(f) + tail);
      ExpectAtMostIsNear(r, gap, r.MaxGap());
      if r.HasRepeat() && c.own { NoneLeads(r, f); }
      var y := ReadAsFrame(s, r, c, gap, f, tail);
      SeenIsKnown(y, f, tail);
      HeaderlessFrameSeen(y, r, t, code, c, gap, tail);
      SomeGives(GetFrame(y, r, c, gap), r, t, code, Total(Air(f)));
    } else {
      HeaderIsAskedFor(s, r, c, gap, f, tail);
    }
  }

  lemma SomeGives(d: Decoded, r: Remote, t: Toggles, code: Word, length: int)
    requires r.BitCount() <= 64 && Gives(d, r, t, code, length)
    ensures d.frame.Some?
  {
  }

  // ----- the gap -----

  /** How long the decoder wants it to be silent after a frame of this length. */
  function AskedGap(r: Remote, length: int): nat {
    if r.protocol.Rcmm? then 1000
    else if !r.constLength then r.MinGap()
    else if r.MinGap() > length then r.MinGap() - length
    else 0
  }

  /** There is silence after a frame, as a device may also say with a 0, or a space as long as that, or
      off by no more than the tolerance. */
  predicate IsGap(r: Remote, length: int, tail: seq<Sig>) {
    tail == [] || tail[0].len == 0 || tail[0].len >= AskedGap(r, length) || Near(r, tail[0].len, AskedGap(r, length))
  }

  /** A frame is decoded, to its words, if and only if such a gap or silence follows it. */
  lemma GapIsAskedFor(s: Rx, r: Remote, t: Toggles, code: Word, c: Context, gap: nat, tail: seq<Sig>)
    requires Sound(r) && r.BitCount() <= 64 && Transmissible(r, t, code) && Synchronises(r, c, gap)
    requires Told(r, c, FrameSignals(r, t, code, false), tail) && Delivers(s, gap, OnAir(r, t, code), tail)
    ensures var d, length := ReceiveDecode(s, r, c), Total(OnAir(r, t, code)) - Discount(r);
            && (d.frame.Some? <==> IsGap(r, length, tail))
            && (d.frame.Some? ==> Gives(d, r, t, code, length))
  {
    hide SameInput, GetFrame, ReceiveDecode, FrameSignals, Air, Sound, Gives, AfterHeader, Told, HeaderLeads, Near,
         Remote.ExpectAtLeast, Total, Synchronises, Leaves;
    SoundSplits(r);
    FrameLeads(r, t, code);
    var y := ReadAsFrame(s, r, c, gap, FrameSignals(r, t, code, false), tail);
    var g := FrameToGap(y, r, t, code, c, gap, tail);
    var length := Total(OnAir(r, t, code)) - Discount(r);
    if tail != [] { ExpectAtLeastIsNear(r, tail[0].len, AskedGap(r, length)); }
  }

  /** With two gaps configured, the shorter one is the least and the longer one the greatest gap. */
  lemma GapsAreExtremes(r: Remote)
    ensures r.MinGap() <= r.gap <= r.MaxGap()
    ensures r.gap2 == 0 ==> r.MinGap() == r.gap == r.MaxGap()
    ensures r.gap2 > 0 ==> {r.MinGap(), r.MaxGap()} == {r.gap, r.gap2}
    ensures r.gap2 > 0 ==> r.MinGap() <= r.gap2 <= r.MaxGap()
  {
  }
}
