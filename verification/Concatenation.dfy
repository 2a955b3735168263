/** A buffer into which `init_send` put several frames, received: its frames are decoded one after
    the other, each after the gap that the one before it asked for. */
module Concatenation {
  import opened Signals
  import opened SendBuffers
  import opened Remotes
  import opened Transmit
  import opened RecBuffers
  import opened Receive
  import opened RoundTrip
  import opened FrameRoundTrip
  import opened RepeatCodes
  import opened DecodeRoundTrip
  import opened Repetitions
  import opened Passes
  import opened InitSend

  // ----- the buffer, from its first frame on -----

  ghost predicate Placed(b: Button, passes: seq<Pass>) {
    forall i :: 0 <= i < |passes| ==> InSequence(b, passes[i].turn)
  }

  lemma {:induction false} WithGapsFront(r: Remote, b: Button, passes: seq<Pass>)
    requires r.BitCount() <= 64 && Placed(b, passes) && passes != []
    ensures WithGaps(r, b, passes)
         == PassSignals(r, b, passes[0].turn) + ([Space(passes[0].gap)] + WithGaps(r, b, passes[1..]))
    decreases |passes|
  {
    hide PassSignals;
    var n := |passes| - 1;
    if n == 0 {
      assert WithGaps(r, b, []) == [];
    } else {
      WithGapsFront(r, b, passes[..n]);
      assert passes[..n][1..] == passes[1..][..n - 1];
    }
  }

  /** The first frame, its gap, and the frames after it. */
  lemma JoinedFront(r: Remote, b: Button, passes: seq<Pass>)
    requires r.BitCount() <= 64 && Placed(b, passes) && |passes| >= 2
    ensures Joined(r, b, passes)
         == PassSignals(r, b, passes[0].turn) + ([Space(passes[0].gap)] + Joined(r, b, passes[1..]))
  {
    hide PassSignals, WithGaps;
    var n := |passes| - 1;
    WithGapsFront(r, b, passes[..n]);
    assert passes[..n][1..] == passes[1..][..n - 1];
  }

  lemma JoinedOne(r: Remote, b: Button, passes: seq<Pass>)
    requires r.BitCount() <= 64 && Placed(b, passes) && |passes| == 1
    ensures Joined(r, b, passes) == PassSignals(r, b, passes[0].turn)
  {
    hide PassSignals;
    assert WithGaps(r, b, passes[..0]) == [];
  }

  lemma JoinedStarts(r: Remote, b: Button, passes: seq<Pass>)
    requires r.BitCount() <= 64 && Placed(b, passes) && passes != [] && AllProper(r, b, passes)
    ensures StartsPulse(Joined(r, b, passes))
  {
    hide PassSignals, Joined, AllProper;
    PassIsPositive(r, b, passes, 0);
    if |passes| == 1 { JoinedOne(r, b, passes); } else { JoinedFront(r, b, passes); }
  }

  /** The space on the air after a frame: the gap, and the space that the frame ends in. */
  function SpaceAfter(r: Remote, b: Button, p: Pass): nat
    requires r.BitCount() <= 64 && InSequence(b, p.turn)
  {
    EndSpace(PassSignals(r, b, p.turn)) + p.gap
  }

  function PassOnAir(r: Remote, b: Button, p: Pass): seq<Sig>
    requires r.BitCount() <= 64 && InSequence(b, p.turn)
  {
    Air(PassSignals(r, b, p.turn))
  }

  /** On the air the frames stay apart. */
  lemma JoinedOnAir(r: Remote, b: Button, passes: seq<Pass>)
    requires r.BitCount() <= 64 && Placed(b, passes) && |passes| >= 2 && AllProper(r, b, passes)
    ensures Air(Joined(r, b, passes))
         == PassOnAir(r, b, passes[0]) + ([Space(SpaceAfter(r, b, passes[0]))] + Air(Joined(r, b, passes[1..])))
  {
    hide PassSignals, Joined, Air, AllProper, EndSpace;
    JoinedFront(r, b, passes);
    RestProper(r, b, passes);
    JoinedStarts(r, b, passes[1..]);
    AirSplit(PassSignals(r, b, passes[0].turn), passes[0].gap, Joined(r, b, passes[1..]));
  }

  lemma RestProper(r: Remote, b: Button, passes: seq<Pass>)
    requires r.BitCount() <= 64 && AllProper(r, b, passes) && passes != []
    ensures AllProper(r, b, passes[1..])
  {
    hide ProperPass;
    assert forall p :: p in passes[1..] ==> p in passes;
  }

  // ----- the receiver, from frame to frame -----

  /** The device is about to deliver a space, the signals `a`, and after them at least `tail`. */
  predicate Arriving(s: Rx, gap: nat, a: seq<Sig>, tail: seq<Sig>) {
    && Safe(s.tape) && gap > 0 && !StartsPulse(tail)
    && [Space(gap)] + a + tail <= Whole(Rewind(s).tape)
    && (tail == [] ==> Quiet(Rewind(s).tape) && |Whole(Rewind(s).tape)| == 1 + |a|)
  }

  /** What follows the frame `f`. */
  function TailAfter(s: Rx, f: seq<Sig>): seq<Sig>
    requires Safe(s.tape)
  {
    var w := Whole(Rewind(s).tape);
    if 1 + |f| <= |w| then w[1 + |f|..] else []
  }

  lemma SplitAfter(gap: nat, f: seq<Sig>, more: seq<Sig>, w: seq<Sig>)
    requires [Space(gap)] + f + more <= w
    ensures 1 + |f| <= |w| && w == [Space(gap)] + (f + w[1 + |f|..]) && more <= w[1 + |f|..]
    ensures |w| == 1 + |f| + |more| ==> w[1 + |f|..] == more
  {
    var a := [Space(gap)] + f;
    assert w[..|a|] == a && w == w[..|a|] + w[|a|..];
    assert more == w[|a|..][..|more|];
  }

  lemma LastArrives(s: Rx, gap: nat, f: seq<Sig>, tail: seq<Sig>)
    requires Arriving(s, gap, f, tail)
    ensures Delivers(s, gap, f, TailAfter(s, f)) && tail <= TailAfter(s, f)
    ensures tail == [] ==> TailAfter(s, f) == []
  {
    hide Whole, Quiet;
    SplitAfter(gap, f, tail, Whole(Rewind(s).tape));
  }

  lemma Regroup(gap: nat, f: seq<Sig>, h: nat, a: seq<Sig>, tail: seq<Sig>)
    ensures [Space(gap)] + (f + ([Space(h)] + a)) + tail == [Space(gap)] + f + ([Space(h)] + a + tail)
    ensures tail == [] ==> [Space(h)] + a + tail == [Space(h)] + a
  {
  }

  lemma FirstArrives(s: Rx, gap: nat, f: seq<Sig>, h: nat, a: seq<Sig>, tail: seq<Sig>)
    requires Arriving(s, gap, f + ([Space(h)] + a), tail)
    ensures Delivers(s, gap, f, TailAfter(s, f)) && [Space(h)] + a + tail <= TailAfter(s, f)
    ensures tail == [] ==> Quiet(Rewind(s).tape) && TailAfter(s, f) == [Space(h)] + a
  {
    hide Whole, Quiet;
    Regroup(gap, f, h, a, tail);
    SplitAfter(gap, f, [Space(h)] + a + tail, Whole(Rewind(s).tape));
    SpaceFirst(h, a, tail, TailAfter(s, f));
  }

  lemma {:induction false} MoreRoom(feed: seq<Event>, m: nat, n: nat)
    requires m <= n
    ensures Delivered(feed, m) <= Delivered(feed, n)
    ensures |Delivered(feed, m)| == |feed| ==> Delivered(feed, n) == Delivered(feed, m)
  {
    if m > 0 && feed != [] && feed[0].Mark? && feed[0].sig.len > 0 { MoreRoom(feed[1..], m - 1, n - 1); }
  }

  /** Once a frame is dropped from the buffer, the gap after it comes first. */
  lemma Cleared(s: Rx, f: seq<Sig>, d: Rx)
    requires Safe(s.tape) && 1 + |f| < |Whole(Rewind(s).tape)| && Leaves(Rewind(s), d, TailAfter(s, f))
    ensures Safe(d.tape)
    ensures var y := ClearBuffer(d);
            && TailAfter(s, f) <= Whole(Rewind(y).tape)
            && (Quiet(Rewind(s).tape) ==> Quiet(Rewind(y).tape) && Whole(Rewind(y).tape) == TailAfter(s, f))
  {
    hide Delivered;
    var t := d.tape;
    var w := Whole(t);
    assert w[t.rptr..] == w[1 + |f|..];
    assert t.rptr == 1 + |f| by { assert |w[t.rptr..]| == |w| - t.rptr && |w[1 + |f|..]| == |w| - 1 - |f|; }
    var room := RBUF_SIZE - |t.buf|;
    MoreRoom(t.feed, room, room + t.rptr);
    assert w[t.rptr..] == t.buf[t.rptr..] + Delivered(t.feed, room);
  }

  /** The next frame is about to be delivered whole. */
  lemma NextArrives(s: Rx, gap: nat, f: seq<Sig>, h: nat, a: seq<Sig>, tail: seq<Sig>, d: Rx)
    requires Arriving(s, gap, f + ([Space(h)] + a), tail) && h > 0 && Leaves(Rewind(s), d, TailAfter(s, f))
    ensures Arriving(ClearBuffer(d), h, a, tail)
  {
    hide Whole, Quiet, Leaves, Delivers;
    FirstArrives(s, gap, f, h, a, tail);
    Cleared(s, f, d);
    PrefixOfPrefix([Space(h)] + a + tail, TailAfter(s, f), Whole(Rewind(ClearBuffer(d)).tape));
  }

  lemma PrefixOfPrefix(a: seq<Sig>, b: seq<Sig>, c: seq<Sig>)
    requires a <= b <= c
    ensures a <= c
  {
  }

  // ----- the gaps -----

  /** The gap that the decoder looks for after a pass. */
  function Needed(r: Remote, b: Button, t: Turn): nat
    requires r.BitCount() <= 64 && InSequence(b, t)
  {
    var length := Total(Air(PassSignals(r, b, t)));
    if !SendsCode(r, t) then RepeatGapOf(r, r.MinGap(), length)
    else GapAfter(r, if t.repeat then length else length - Discount(r))
  }

  /** Where both sides do not go by the same gap, what is sent is enough: RC-MM frames are ended by
      1 ms, and a repeat_gap counts for the sender even if the length is constant. */
  predicate GapsSuit(r: Remote, b: Button, p: Pass)
    requires r.BitCount() <= 64 && InSequence(b, p.turn)
  {
    (if SendsCode(r, p.turn) then r.protocol.Rcmm? else r.constLength && r.HasRepeatGap())
    ==> SpaceAfter(r, b, p) >= Needed(r, b, p.turn)
  }

  /** The gap that was sent is the gap that is looked for, or more. */
  lemma GapIsEnough(r: Remote, b: Button, p: Pass)
    requires r.BitCount() <= 64 && GapRight(r, b, p) && GapsSuit(r, b, p)
    ensures SpaceAfter(r, b, p) >= Needed(r, b, p.turn)
  {
    hide PassSignals, Air, Total, EndSpace;
  }

  // ----- one frame -----

  /** What one frame finds: the receive buffer and the rest of the decoder's state. */
  datatype Listening = Listening(s: Rx, c: Context)

  /** The frame of a pass can be received, whatever was decoded before: a repeat code is sent pulse
      first, a repetition has its foot. */
  predicate Receivable(r: Remote, b: Button, t: Turn, gap: nat, tail: seq<Sig>)
    requires r.BitCount() <= 64 && InSequence(b, t)
  {
    if !SendsCode(r, t) then !r.IsBiphase()
    else if !t.repeat then Transmissible(r, t.toggles, CodeOf(b, t))
    else WithFoot(r) && Repeatable(r, t.toggles, CodeOf(b, t), gap, tail)
  }

  /** The decoder is at the end of a gap and takes the frame for what it is: it knows the last code
      that a repeat code stands for, and it tells other frames from a repeat code. */
  predicate Expects(r: Remote, b: Button, t: Turn, c: Context, gap: nat, tail: seq<Sig>)
    requires r.BitCount() <= 64 && InSequence(b, t)
  {
    && Synchronises(r, c, gap)
    && if !SendsCode(r, t) then c.own && c.lastCode.Some?
       else if !t.repeat then Told(r, c, FrameSignals(r, t.toggles, CodeOf(b, t), false), tail)
       else ToldRepetition(r, t.toggles, CodeOf(b, t), c, tail)
  }

  /** What is decoded: the words of the frame, or for a repeat code the last code. */
  predicate DecodedAs(r: Remote, b: Button, t: Turn, c: Context, d: Decoded)
    requires r.BitCount() <= 64 && InSequence(b, t)
  {
    var length := Total(Air(PassSignals(r, b, t)));
    if !SendsCode(r, t) then d.frame == RepeatFrame(r, c.lastCode, length)
    else Gives(d, r, t.toggles, CodeOf(b, t), if t.repeat then length else length - Discount(r))
  }

  /** The signals that follow are a gap that is long enough. */
  predicate LongEnough(r: Remote, b: Button, t: Turn, tail: seq<Sig>)
    requires r.BitCount() <= 64 && InSequence(b, t)
  {
    tail == [] || (tail[0].Space? && tail[0].len > 0 && tail[0].len >= Needed(r, b, t))
  }

  lemma PassDecoded(r: Remote, b: Button, t: Turn, x: Listening, gap: nat, tail: seq<Sig>)
    requires Sound(r) && r.BitCount() <= 64 && Decodable(r) && InSequence(b, t)
    requires Delivers(x.s, gap, Air(PassSignals(r, b, t)), tail) && LongEnough(r, b, t, tail)
    requires Receivable(r, b, t, gap, tail) && Expects(r, b, t, x.c, gap, tail)
    ensures var d := ReceiveDecode(x.s, r, x.c);
            DecodedAs(r, b, t, x.c, d) && Leaves(Rewind(x.s), d.s, tail)
  {
    hide Sound, Air, Total, FrameSignals, RepeatSignals, ReceiveDecode, Gives, Leaves, Told, Transmissible,
         Repeatable, ToldRepetition, Synchronises, Delivers;
    if !SendsCode(r, t) {
      RepeatCodeIsReceived(x.s, r, x.c, gap, tail);
    } else if !t.repeat {
      DecodeUndoesSend(x.s, r, t.toggles, CodeOf(b, t), x.c, gap, tail);
    } else {
      DecodeUndoesRepetition(x.s, r, t.toggles, CodeOf(b, t), x.c, gap, tail);
    }
  }

  /** The gap that the decoder will accept before the next frame. */
  lemma GapExpected(r: Remote, b: Button, t: Turn, c: Context, d: Decoded)
    requires r.BitCount() <= 64 && InSequence(b, t) && DecodedAs(r, b, t, c, d)
    requires !SendsCode(r, t) ==> c.lastCode.Some?
    ensures d.frame.Some?
    ensures !r.protocol.Rcmm? ==> d.frame.value.minRemaining <= Needed(r, b, t)
  {
    hide PassSignals, Air, Total;
  }

  // ----- all frames -----

  /** The receiver drops the frame it has decoded from its buffer, and remembers the remote, its
      code, and the gap to expect. */
  predicate Linked(r: Remote, x: Listening, y: Listening)
    requires Decodable(r) && Safe(x.s.tape)
  {
    var d := ReceiveDecode(x.s, r, x.c);
    && y.s == ClearBuffer(d.s)
    && (d.frame.Some? ==>
          && y.c.own && (r.HasRepeat() ==> y.c.lastCode.Some?)
          && y.c.last == Last(r, d.frame.value.minRemaining, d.frame.value.maxRemaining))
  }

  /** The space before a pass. */
  function SpaceBefore(r: Remote, b: Button, passes: seq<Pass>, gap: nat, i: nat): nat
    requires r.BitCount() <= 64 && i < |passes| && (i > 0 ==> InSequence(b, passes[i - 1].turn))
  {
    if i == 0 then gap else SpaceAfter(r, b, passes[i - 1])
  }

  /** The receiver at one of the frames, the first of which comes after the space `gap`. */
  ghost predicate HeardAt(r: Remote, b: Button, passes: seq<Pass>, heard: seq<Listening>, gap: nat, i: nat)
    requires r.BitCount() <= 64 && Decodable(r) && i < |passes| == |heard|
  {
    && Placed(b, passes) && Safe(heard[i].s.tape)
    && Receivable(r, b, passes[i].turn, SpaceBefore(r, b, passes, gap, i),
                  TailAfter(heard[i].s, PassOnAir(r, b, passes[i])))
    && (i + 1 < |passes| ==> GapsSuit(r, b, passes[i]) && Linked(r, heard[i], heard[i + 1]))
  }

  /** The receiver over all frames of a buffer: each can be received, and the decoder expects the
      first one. */
  ghost predicate Heard(r: Remote, b: Button, passes: seq<Pass>, heard: seq<Listening>, gap: nat, tail: seq<Sig>)
    requires r.BitCount() <= 64 && Decodable(r)
  {
    && |heard| == |passes| > 0 && Placed(b, passes) && Safe(heard[0].s.tape)
    && (forall i :: 0 <= i < |passes| ==> HeardAt(r, b, passes, heard, gap, i))
    && Expects(r, b, passes[0].turn, heard[0].c, gap, TailAfter(heard[0].s, PassOnAir(r, b, passes[0])))
    && LongEnough(r, b, passes[|passes| - 1].turn, tail)
  }

  /** What was sent, as `init_send` leaves it. */
  ghost predicate Buffered(r: Remote, b: Button, passes: seq<Pass>)
    requires r.BitCount() <= 64
  {
    passes != [] && Chained(r, b, passes) && AllProper(r, b, passes) && GapsRight(r, b, passes)
  }

  lemma {:induction false} ProperFrom(r: Remote, b: Button, passes: seq<Pass>, i: nat)
    requires r.BitCount() <= 64 && i < |passes| && Buffered(r, b, passes)
    ensures Placed(b, passes[i..]) && AllProper(r, b, passes[i..]) && GapRight(r, b, passes[i])
    ensures InSequence(b, passes[i].turn) && passes[i].gap > 0 && (i > 0 ==> passes[i].turn.repeat)
    ensures SpaceAfter(r, b, passes[i]) > 0
  {
    hide ProperPass, GapRight, PassSignals;
    assert forall p :: p in passes[i..] ==> p in passes;
    assert passes[i] in passes;
    PassIsPositive(r, b, passes, i);
    LaterTurns(r, b, passes, i);
  }

  /** A frame whose turn it is, and the gap after it. */
  lemma FrameAtItsTurn(r: Remote, b: Button, passes: seq<Pass>, heard: seq<Listening>, gap: nat, tail: seq<Sig>, i: nat)
    requires Sound(r) && r.BitCount() <= 64 && Decodable(r) && i < |passes| && Buffered(r, b, passes)
    requires Heard(r, b, passes, heard, gap, tail) && InSequence(b, passes[i].turn) && Placed(b, passes[i..])
    requires i > 0 ==> InSequence(b, passes[i - 1].turn)
    requires Arriving(heard[i].s, SpaceBefore(r, b, passes, gap, i), Air(Joined(r, b, passes[i..])), tail)
    requires Expects(r, b, passes[i].turn, heard[i].c, SpaceBefore(r, b, passes, gap, i),
                     TailAfter(heard[i].s, PassOnAir(r, b, passes[i])))
    ensures var d := ReceiveDecode(heard[i].s, r, heard[i].c);
            && DecodedAs(r, b, passes[i].turn, heard[i].c, d)
            && Leaves(Rewind(heard[i].s), d.s, TailAfter(heard[i].s, PassOnAir(r, b, passes[i])))
  {
    hide Sound, Air, ReceiveDecode, Leaves, Arriving, PassSignals, Joined, TailAfter, Expects, Receivable, Linked,
         Chained, AllProper, GapsRight, GapRight, GapsSuit, Needed, DecodedAs, EndSpace, Delivers;
    ProperFrom(r, b, passes, i);
    var x, p, rest := heard[i], passes[i], passes[i..];
    var f := PassOnAir(r, b, p);
    var space := SpaceBefore(r, b, passes, gap, i);
    assert HeardAt(r, b, passes, heard, gap, i);
    if i + 1 == |passes| {
      JoinedOne(r, b, rest);
      LastArrives(x.s, space, f, tail);
      LongerTail(r, b, p.turn, tail, TailAfter(x.s, f));
    } else {
      JoinedOnAir(r, b, rest);
      ProperFrom(r, b, passes, i + 1);
      assert rest[1..] == passes[i + 1..];
      var a := Air(Joined(r, b, rest[1..]));
      FirstArrives(x.s, space, f, SpaceAfter(r, b, p), a, tail);
      GapIsEnough(r, b, p);
      SpaceFirst(SpaceAfter(r, b, p), a, tail, TailAfter(x.s, f));
    }
    PassDecoded(r, b, p.turn, x, space, TailAfter(x.s, f));
  }

  lemma LongerTail(r: Remote, b: Button, t: Turn, tail: seq<Sig>, more: seq<Sig>)
    requires r.BitCount() <= 64 && InSequence(b, t) && LongEnough(r, b, t, tail)
    requires tail <= more && (tail == [] ==> more == [])
    ensures LongEnough(r, b, t, more)
  {
    hide Needed;
  }

  lemma SpaceFirst(h: nat, a: seq<Sig>, tail: seq<Sig>, more: seq<Sig>)
    requires [Space(h)] + a + tail <= more
    ensures more != [] && more[0] == Space(h)
  {
    assert ([Space(h)] + a + tail)[0] == Space(h);
  }

  /** Each frame has its turn: it is delivered whole after the gap before it, and the decoder
      expects it. */
  lemma {:induction false} TurnComes(r: Remote, b: Button, passes: seq<Pass>, heard: seq<Listening>, gap: nat,
                                     tail: seq<Sig>, i: nat)
    requires Sound(r) && r.BitCount() <= 64 && Decodable(r) && i < |passes| && Buffered(r, b, passes)
    requires Heard(r, b, passes, heard, gap, tail) && Placed(b, passes)
    requires Arriving(heard[0].s, gap, Air(Joined(r, b, passes)), tail)
    ensures InSequence(b, passes[i].turn) && Placed(b, passes[i..]) && (i > 0 ==> InSequence(b, passes[i - 1].turn))
    ensures Arriving(heard[i].s, SpaceBefore(r, b, passes, gap, i), Air(Joined(r, b, passes[i..])), tail)
    ensures Expects(r, b, passes[i].turn, heard[i].c, SpaceBefore(r, b, passes, gap, i),
                    TailAfter(heard[i].s, PassOnAir(r, b, passes[i])))
    decreases i
  {
    hide Sound, Air, ReceiveDecode, Leaves, Arriving, PassSignals, Joined, TailAfter, Expects, Receivable, Linked,
         Chained, AllProper, GapsRight, GapRight, GapsSuit, Needed, DecodedAs, EndSpace, Delivers;
    ProperFrom(r, b, passes, i);
    if i == 0 {
      assert passes[0..] == passes;
    } else {
      assert HeardAt(r, b, passes, heard, gap, i - 1) && HeardAt(r, b, passes, heard, gap, i);
      TurnComes(r, b, passes, heard, gap, tail, i - 1);
      FrameAtItsTurn(r, b, passes, heard, gap, tail, i - 1);
      ProperFrom(r, b, passes, i - 1);
      var x, p, rest := heard[i - 1], passes[i - 1], passes[i - 1..];
      assert rest[1..] == passes[i..];
      JoinedOnAir(r, b, rest);
      var d := ReceiveDecode(x.s, r, x.c);
      NextArrives(x.s, SpaceBefore(r, b, passes, gap, i - 1), PassOnAir(r, b, p), SpaceAfter(r, b, p),
                  Air(Joined(r, b, passes[i..])), tail, d.s);
      GapIsEnough(r, b, p);
      CodeKnown(r, b, p.turn, x.c, SpaceBefore(r, b, passes, gap, i - 1), TailAfter(x.s, PassOnAir(r, b, p)));
      NextExpected(r, b, p, passes[i].turn, x, heard[i], TailAfter(heard[i].s, PassOnAir(r, b, passes[i])));
    }
  }

  lemma CodeKnown(r: Remote, b: Button, t: Turn, c: Context, gap: nat, tail: seq<Sig>)
    requires r.BitCount() <= 64 && InSequence(b, t) && Expects(r, b, t, c, gap, tail)
    ensures !SendsCode(r, t) ==> c.lastCode.Some?
  {
    hide FrameSignals;
  }

  lemma NextExpected(r: Remote, b: Button, p: Pass, t: Turn, x: Listening, y: Listening, tail: seq<Sig>)
    requires r.BitCount() <= 64 && Decodable(r) && Safe(x.s.tape) && InSequence(b, p.turn) && InSequence(b, t)
    requires Linked(r, x, y) && DecodedAs(r, b, p.turn, x.c, ReceiveDecode(x.s, r, x.c)) && t.repeat
    requires SpaceAfter(r, b, p) >= Needed(r, b, p.turn) && (!SendsCode(r, p.turn) ==> x.c.lastCode.Some?)
    ensures y.s == ClearBuffer(ReceiveDecode(x.s, r, x.c).s)
    ensures Expects(r, b, t, y.c, SpaceAfter(r, b, p), tail)
  {
    hide PassSignals, ReceiveDecode, DecodedAs, Needed, FrameSignals, EndSpace, Remote.ExpectAtLeast;
    var d := ReceiveDecode(x.s, r, x.c);
    GapExpected(r, b, p.turn, x.c, d);
    if !r.protocol.Rcmm? { ExpectAtLeastMore(r, SpaceAfter(r, b, p), d.frame.value.minRemaining); }
  }

  /** What one transmission puts into the buffer, in frame after frame and with the gaps between
      them, a receiver decodes frame after frame: dropping from its own buffer what it has decoded,
      it finds each frame whole at its turn, takes the space before it for the gap it expects, and
      gets the words of that frame, or for a repeat code the last code. */
  lemma BufferIsDecoded(r: Remote, b: Button, first: Turn, passes: seq<Pass>, u: Tx, heard: seq<Listening>, gap: nat,
                        tail: seq<Sig>, i: nat)
    requires Sound(r) && r.BitCount() <= 64 && Decodable(r)
    requires Result(r, b, first, passes, u) && AllProper(r, b, passes) && i < |passes|
    requires Heard(r, b, passes, heard, gap, tail) && Arriving(heard[0].s, gap, Levels(u.buf), tail)
    ensures InSequence(b, passes[i].turn) && Safe(heard[i].s.tape)
    ensures DecodedAs(r, b, passes[i].turn, heard[i].c, ReceiveDecode(heard[i].s, r, heard[i].c))
  {
    hide Sound, Air, ReceiveDecode, Leaves, Arriving, PassSignals, Joined, TailAfter, Expects, Receivable, Linked,
         Chained, AllProper, GapsRight, GapRight, GapsSuit, Needed, DecodedAs, EndSpace, Delivers, Levels;
    assert HeardAt(r, b, passes, heard, gap, i);
    ProperFrom(r, b, passes, 0);
    assert passes[0..] == passes;
    TurnComes(r, b, passes, heard, gap, tail, i);
    FrameAtItsTurn(r, b, passes, heard, gap, tail, i);
  }
}
