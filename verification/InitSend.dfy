/** `init_send`: frames whose gap is too short for a timer are put into one buffer, each followed
    by its gap. The loop ends, what it leaves in the buffer is the frames and gaps in order, and
    for remotes of constant length every frame and its gap take the same time. */
module InitSend {
  import opened Options
  import opened Words
  import opened Signals
  import opened SendBuffers
  import opened Remotes
  import opened Transmit
  import opened RecBuffers
  import opened Receive
  import opened FrameRoundTrip
  import opened DecodeRoundTrip
  import opened CodeSurvives
  import opened Passes
  import opened FrameShapes
  import opened PassBuffers
  import opened LoopEnds

  datatype Outcome = Prepared | BufferTooSmall | GapTooShort | Unusable

  ghost predicate ProperPass(r: Remote, b: Button, p: Pass)
    requires r.BitCount() <= 64
  {
    InSequence(b, p.turn) && Proper(PassSignals(r, b, p.turn)) && p.gap > 0
  }

  ghost predicate AllProper(r: Remote, b: Button, passes: seq<Pass>)
    requires r.BitCount() <= 64
  {
    forall p :: p in passes ==> ProperPass(r, b, p)
  }

  /** Each frame is followed by the gap that its length on the air asks for. */
  ghost predicate GapRight(r: Remote, b: Button, p: Pass)
    requires r.BitCount() <= 64
  {
    && InSequence(b, p.turn)
    && GapOf(r, p.turn.repeat, Total(Air(PassSignals(r, b, p.turn))) - PassDiscount(r, p.turn)) == Some(p.gap)
  }

  ghost predicate GapsRight(r: Remote, b: Button, passes: seq<Pass>)
    requires r.BitCount() <= 64
  {
    forall p :: p in passes ==> GapRight(r, b, p)
  }

  /** The passes done so far lead to `t`. */
  ghost predicate LeadTo(r: Remote, b: Button, first: Turn, passes: seq<Pass>, t: Turn) {
    && Chained(r, b, passes) && InSequence(b, t)
    && if passes == [] then t == first
       else passes[0].turn == first && Follows(r, b, passes[|passes| - 1], Pass(t, 0))
  }

  lemma LeadOn(r: Remote, b: Button, first: Turn, passes: seq<Pass>, t: Turn, gap: nat)
    requires LeadTo(r, b, first, passes, t)
    ensures Chained(r, b, passes + [Pass(t, gap)]) && (passes + [Pass(t, gap)])[0].turn == first
    ensures GoesOn(Advance(r, b, t), gap) ==>
              LeadTo(r, b, first, passes + [Pass(t, gap)], NextTurn(b, Advance(r, b, t)))
  {
    var q := passes + [Pass(t, gap)];
    forall i, j | 0 <= i && j == i + 1 && j < |q|
      ensures Follows(r, b, q[i], q[j])
    {
      if j == |passes| { assert Follows(r, b, passes[|passes| - 1], Pass(t, 0)); }
    }
  }

  lemma JoinedLast(r: Remote, b: Button, passes: seq<Pass>, p: Pass)
    requires r.BitCount() <= 64 && InSequence(b, p.turn)
    requires forall i :: 0 <= i < |passes| ==> InSequence(b, passes[i].turn)
    ensures Joined(r, b, passes + [p]) == WithGaps(r, b, passes) + PassSignals(r, b, p.turn)
    ensures WithGaps(r, b, passes + [p]) == WithGaps(r, b, passes) + PassSignals(r, b, p.turn) + [Space(p.gap)]
  {
    assert (passes + [p])[..|passes|] == passes;
  }

  lemma GapPositive(r: Remote, repeat: bool, sum: int)
    requires r.MinGap() > 0
    ensures GapOf(r, repeat, sum).Some? ==> GapOf(r, repeat, sum).value > 0
  {
  }

  ghost predicate GapsPositive(r: Remote, passes: seq<Pass>) {
    r.MinGap() > 0 ==> forall i :: 0 <= i < |passes| ==> passes[i].gap > 0
  }

  /** One pass and the gap after it, for the buffer. */
  ghost predicate Filled(r: Remote, b: Button, passes: seq<Pass>, h: Tx, v: Tx)
    requires r.BitCount() <= 64
  {
    && (forall i :: 0 <= i < |passes| ==> InSequence(b, passes[i].turn))
    && GapsPositive(r, passes)
    && (AllProper(r, b, passes) && !h.tooLong ==> AtHead(h, v, WithGaps(r, b, passes)))
    && (AllProper(r, b, passes) ==> GapsRight(r, b, passes))
  }

  lemma AllProperLast(r: Remote, b: Button, passes: seq<Pass>, p: Pass)
    requires r.BitCount() <= 64
    ensures AllProper(r, b, passes + [p]) <==> AllProper(r, b, passes) && ProperPass(r, b, p)
    ensures AllProper(r, b, passes + [p]) ==> Proper(PassSignals(r, b, p.turn)) && p.gap > 0
    ensures GapsRight(r, b, passes + [p]) <==> GapsRight(r, b, passes) && GapRight(r, b, p)
  {
    hide Proper, PassSignals, GapRight;
    var q := passes + [p];
    assert q[|passes|] == p && p in q;
    assert forall x :: x in passes ==> x in q;
  }

  /** The buffer after the frame `f` of a pass that follows the signals `c`, and after its gap. */
  lemma PassFills(h: Tx, v: Tx, c: seq<Sig>, f: seq<Sig>, discount: nat, gap: nat, y: Tx)
    requires !h.tooLong ==> AtHead(h, v, c)
    requires Proper(f) && gap > 0
    requires var x := SendAll(h, f);
             y == Sync(x.(sum := x.sum - discount)) && !Bad(y)
    ensures Levels(y.buf) == Air(c + f)
    ensures y.sum == Total(Air(f)) - discount
    ensures !h.tooLong && |h.buf| <= WBUF_SIZE
    ensures var z := SendSpace(y, gap);
            var g := Flush(z).(sum := 0);
            !g.tooLong ==> AtHead(g, z, c + f + [Space(gap)]) && |g.buf| > |h.buf|
  {
    hide Air, Levels, Runs, Represents, Total, SendAll, Flush, SendSpace, AtHead, Sync, Positive;
    var x := SendAll(h, f);
    SyncSumFree(x, x.sum - discount);
    if h.tooLong { SendAllKeepsTooLong(h, f); SyncKeepsTooLong(x); }
    HeadFits(h, v, c);
    FramePass(h, v, c, f);
    assert c + f != [];
    GapPass(x, c + f, y.sum, gap);
  }

  lemma HeadFits(h: Tx, v: Tx, c: seq<Sig>)
    requires AtHead(h, v, c)
    ensures !h.tooLong && |h.buf| <= WBUF_SIZE
  {
  }

  lemma SyncSumFree(x: Tx, sum: int)
    ensures Sync(x.(sum := sum)) == Sync(x).(sum := Sync(x).sum - x.sum + sum)
    ensures Bad(Sync(x.(sum := sum))) == Bad(Sync(x))
  {
  }

  /** The passes of a successful run, and what they leave in the buffer. */
  ghost predicate Result(r: Remote, b: Button, first: Turn, passes: seq<Pass>, t: Tx)
    requires r.BitCount() <= 64
  {
    && passes != [] && Chained(r, b, passes) && passes[0].turn == first
    && InSequence(b, passes[|passes| - 1].turn)
    && !GoesOn(Advance(r, b, passes[|passes| - 1].turn), passes[|passes| - 1].gap)
    && GapsPositive(r, passes)
    && (AllProper(r, b, passes) ==> Levels(t.buf) == Air(Joined(r, b, passes)) && GapsRight(r, b, passes))
  }

  class Sender {
    const buffer: SendBuffer
    var countdown: int
    var toggles: Toggles
    var transmit: Option<nat>
    var minRemainingGap: nat
    var maxRemainingGap: int
    ghost var passes: seq<Pass>

    ghost predicate Valid()
      reads this, buffer
    {
      buffer.Valid()
    }

    constructor (toggles: Toggles)
      ensures Valid() && transmit == None && this.toggles == toggles
    {
      buffer := new SendBuffer();
      countdown, transmit, minRemainingGap, maxRemainingGap, passes := 0, None, 0, 0, [];
      this.toggles := toggles;
    }

    /** One frame, or the repeat code, into the buffer. */
    method SendPass(r: Remote, b: Button, repeat: bool)
      requires Valid() && r.BitCount() <= 64
      requires InSequence(b, Turn(countdown, toggles, transmit, repeat))
      modifies this`toggles, buffer, buffer.data
      ensures Valid()
      ensures var t := old(Turn(countdown, toggles, transmit, repeat));
              var x := SendAll(old(buffer.View()), PassSignals(r, b, t));
              && buffer.View() == Sync(x.(sum := x.sum - PassDiscount(r, t)))
              && toggles == Advance(r, b, t).toggles
    {
      hide FrameSignals, RepeatSignals, SendAll, Sync;
      if repeat && r.HasRepeat() {
        SendRepeat(buffer, r);
      } else {
        SendCode(buffer, r, toggles, if transmit.None? then b.code else b.next[transmit.value], repeat);
        if r.HasToggleMask() {
          var step := toggles.maskState + 1;
          toggles := toggles.(maskState := if step == 4 then 2 else step);
        }
      }
      buffer.Synchronise();
    }

    /** The gap that has to follow the frame in the buffer. */
    method ComputeGap(r: Remote, repeat: bool) returns (ok: bool)
      requires Valid()
      modifies this`minRemainingGap, this`maxRemainingGap
      ensures var g := GapOf(r, repeat, buffer.View().sum);
              ok == g.Some? && (ok ==> minRemainingGap == g.value)
      ensures if ok then maxRemainingGap == MaxGapOf(r, repeat, buffer.View().sum)
              else minRemainingGap == r.MinGap() && maxRemainingGap == r.MaxGap()
    {
      if r.HasRepeatGap() && repeat && r.HasRepeat() {
        minRemainingGap, maxRemainingGap := r.repeatGap, r.repeatGap;
      } else if r.constLength {
        if r.MinGap() > buffer.sum {
          minRemainingGap, maxRemainingGap := r.MinGap() - buffer.sum, r.MaxGap() - buffer.sum;
        } else {
          minRemainingGap, maxRemainingGap := r.MinGap(), r.MaxGap();
          return false;
        }
      } else {
        minRemainingGap, maxRemainingGap := r.MinGap(), r.MaxGap();
      }
      return true;
    }

    method CheckBuffer() returns (ok: bool)
      requires Valid()
      ensures ok <==> buffer.View().buf != [] && 0 !in buffer.View().buf
    {
      if buffer.wptr == 0 {
        return false;
      }
      for i := 0 to buffer.wptr
        invariant 0 !in buffer.data[..i]
      {
        if buffer.data[i] == 0 {
          assert buffer.data[..buffer.wptr][i] == 0;
          return false;
        }
      }
      return true;
    }

    /** After a pass `t`: the next place in the sequence, and if another frame follows in the same
        buffer, the gap before it. */
    method GoOn(r: Remote, b: Button, ghost t: Turn) returns (more: bool, ghost w: Tx)
      requires Valid() && InSequence(b, t)
      requires countdown == t.countdown && transmit == t.transmit && toggles == Advance(r, b, t).toggles
      modifies this`transmit, this`countdown, buffer, buffer.data
      ensures Valid()
      ensures var u := Advance(r, b, t);
              && more == GoesOn(u, minRemainingGap)
              && (more ==> Turn(countdown, toggles, transmit, true) == NextTurn(b, u)
                           && w == SendSpace(old(buffer.View()), minRemainingGap)
                           && buffer.View() == Flush(w).(sum := 0))
              && (!more ==> buffer.View() == old(buffer.View()))
    {
      hide SendSpace, Flush;
      transmit := NextNode(r, b, transmit);
      w := buffer.View();
      more := (countdown > 0 || transmit.Some?) && minRemainingGap < EXACT_GAP_THRESHOLD;
      if more {
        if b.next == [] || transmit.None? {
          countdown := countdown - 1;
        }
        buffer.PushSpace(minRemainingGap);
        w := buffer.View();
        buffer.FlushAll();
        buffer.sum := 0;
      }
    }

    /** One turn of the loop: a frame, its gap, and the decision whether another frame follows in
        the same buffer. */
    method PassOnce(r: Remote, b: Button, repeat: bool, ghost first: Turn, ghost v: Tx)
      returns (failure: Option<Outcome>, more: bool, ghost w: Tx)
      requires Valid() && r.BitCount() <= 64
      requires InSequence(b, Turn(countdown, toggles, transmit, repeat))
      requires LeadTo(r, b, first, passes, Turn(countdown, toggles, transmit, repeat))
      requires Filled(r, b, passes, buffer.View(), v)
      modifies this, buffer, buffer.data
      ensures Valid()
      ensures failure.Some? ==>
                || (failure.value == BufferTooSmall && Bad(buffer.View()))
                || (failure.value == GapTooShort && r.constLength && buffer.View().sum >= r.MinGap())
      ensures failure.None? && more ==> |passes| == |old(passes)| + 1
      ensures failure.None? && more ==>
                var t, u := old(Turn(countdown, toggles, transmit, repeat)), Turn(countdown, toggles, transmit, true);
                && InSequence(b, u) && LeadTo(r, b, first, passes, u) && Filled(r, b, passes, buffer.View(), w)
                && TurnFrom(r, b, old(buffer.View()), t) == Some((buffer.View(), u))
      ensures failure.None? && !more ==>
                && Result(r, b, first, passes, buffer.View())
                && passes != [] && minRemainingGap == passes[|passes| - 1].gap
    {
      hide PassSignals, SendAll, Sync, Flush, SendSpace, Levels, Air, Joined, WithGaps, Follows, Chained,
           AtHead, ProperPass, AllProper, GapsRight, GapOf, LeadTo, Advance, NextTurn, GoesOn, Filled, Result,
           GapsPositive;
      w, more := v, false;
      ghost var t, h := Turn(countdown, toggles, transmit, repeat), buffer.View();
      SendPass(r, b, repeat);
      ghost var y := buffer.View();
      if buffer.tooLong || (buffer.wptr == WBUF_SIZE && buffer.pendingp > 0) {
        return Some(BufferTooSmall), false, w;
      }
      var ok := ComputeGap(r, repeat);
      if !ok {
        NoGap(r, repeat, y.sum);
        return Some(GapTooShort), false, w;
      }
      AfterPass(r, b, passes, t, minRemainingGap, h, v, y);
      LeadOn(r, b, first, passes, t, minRemainingGap);
      passes := passes + [Pass(t, minRemainingGap)];
      failure := None;
      more, w := GoOn(r, b, t);
      if !more {
        w := v;
        LastPass(r, b, first, passes, Advance(r, b, t), y);
      }
    }

    /** Prepares a transmission. `busy` says that a button is already being repeated. It asks for no
        more than that the loop comes to an end. */
    method Prepare(r: Remote, b: Button, busy: bool) returns (outcome: Outcome)
      requires Valid() && r.BitCount() <= 64
      requires transmit.Some? ==> transmit.value < |b.next|
      requires !NeverFills(r, b, Turn(if busy then countdown else r.minRepeat, toggles, transmit, busy))
      modifies this, buffer, buffer.data
      ensures Valid()
      ensures outcome == BufferTooSmall ==> Bad(buffer.View())
      ensures outcome == GapTooShort ==> r.constLength && buffer.View().sum >= r.MinGap()
      ensures outcome == Unusable ==> buffer.View().buf == [] || 0 in buffer.View().buf
      ensures outcome == Prepared ==>
                && Result(r, b, Turn(if busy then old(countdown) else r.minRepeat, old(toggles), old(transmit), busy),
                          passes, buffer.View())
                && buffer.View().buf != [] && 0 !in buffer.View().buf
                && minRemainingGap == passes[|passes| - 1].gap
    {
      hide LeadTo, Filled, Result, TurnFrom, NeverFills;
      buffer.Clear();
      var repeat := busy;
      if !busy {
        countdown := r.minRepeat;
      }
      passes := [];
      ghost var first := Turn(countdown, toggles, transmit, repeat);
      ghost var v := CLEARED;
      StartOfLoop(r, b, first);
      ghost var last := NeverEndsExactly(r, b, first);
      var more := true;
      while more
        invariant Valid()
        invariant more ==> InSequence(b, Turn(countdown, toggles, transmit, repeat))
        invariant more ==> LeadTo(r, b, first, passes, Turn(countdown, toggles, transmit, repeat))
        invariant more ==> Filled(r, b, passes, buffer.View(), v)
        invariant more ==> Turns(r, b, first, |passes|)
                           == Some((buffer.View(), Turn(countdown, toggles, transmit, repeat)))
        invariant more ==> |passes| < last
        invariant !more ==>
          Result(r, b, first, passes, buffer.View()) && passes != [] && minRemainingGap == passes[|passes| - 1].gap
        decreases more, last - |passes|
      {
        var failure: Option<Outcome>;
        failure, more, v := PassOnce(r, b, repeat, first, v);
        if failure.Some? {
          return failure.value;
        }
        repeat := true;
        if more && |passes| >= last { EarlierTurns(r, b, first, last, |passes|); }
      }
      var ok := CheckBuffer();
      outcome := if ok then Prepared else Unusable;
    }
  }

  lemma NoGap(r: Remote, repeat: bool, sum: int)
    requires GapOf(r, repeat, sum).None?
    ensures r.constLength && sum >= r.MinGap()
  {
  }

  lemma LastPass(r: Remote, b: Button, first: Turn, passes: seq<Pass>, u: Turn, y: Tx)
    requires r.BitCount() <= 64 && passes != [] && Chained(r, b, passes) && passes[0].turn == first
    requires InSequence(b, passes[|passes| - 1].turn) && u == Advance(r, b, passes[|passes| - 1].turn)
    requires !GoesOn(u, passes[|passes| - 1].gap) && GapsPositive(r, passes)
    requires AllProper(r, b, passes) ==> Levels(y.buf) == Air(Joined(r, b, passes)) && GapsRight(r, b, passes)
    ensures Result(r, b, first, passes, y)
  {
    hide Chained, AllProper, Joined, Air, Levels, GapsRight, GapsPositive;
  }

  lemma StartOfLoop(r: Remote, b: Button, t: Turn)
    requires r.BitCount() <= 64 && InSequence(b, t)
    ensures LeadTo(r, b, t, [], t) && Filled(r, b, [], CLEARED, CLEARED)
  {
  }

  /** After a pass the buffer holds all frames and gaps so far. */
  lemma AfterPass(r: Remote, b: Button, passes: seq<Pass>, t: Turn, gap: nat, h: Tx, v: Tx, y: Tx)
    requires r.BitCount() <= 64 && InSequence(b, t) && Filled(r, b, passes, h, v)
    requires var x := SendAll(h, PassSignals(r, b, t));
             y == Sync(x.(sum := x.sum - PassDiscount(r, t))) && !Bad(y)
    requires GapOf(r, t.repeat, y.sum) == Some(gap)
    ensures var q := passes + [Pass(t, gap)];
            var z := SendSpace(y, gap);
            var g := Flush(z).(sum := 0);
            && Filled(r, b, q, g, z)
            && GapsPositive(r, q)
            && (AllProper(r, b, q) ==> Levels(y.buf) == Air(Joined(r, b, q)) && GapsRight(r, b, q))
            && TurnFrom(r, b, h, t)
               == (if GoesOn(Advance(r, b, t), gap) then Some((g, NextTurn(b, Advance(r, b, t)))) else None)
  {
    hide PassSignals, SendAll, Sync, Flush, SendSpace, Levels, Air, Joined, WithGaps, AtHead, ProperPass, AllProper,
         GapsRight, PassDiscount, Bad;
    var q, p := passes + [Pass(t, gap)], Pass(t, gap);
    AllProperLast(r, b, passes, p);
    if r.MinGap() > 0 { GapPositive(r, t.repeat, y.sum); }
    if AllProper(r, b, q) {
      PassFills(h, v, WithGaps(r, b, passes), PassSignals(r, b, t), PassDiscount(r, t), gap, y);
      JoinedLast(r, b, passes, p);
    }
  }

  lemma WellformedProper(r: Remote, b: Button, passes: seq<Pass>)
    requires Wellformed(r) && r.BitCount() <= 64
    requires forall i :: 0 <= i < |passes| ==> InSequence(b, passes[i].turn) && passes[i].gap > 0
    ensures AllProper(r, b, passes)
  {
    hide PassSignals, Wellformed;
    forall p | p in passes
      ensures ProperPass(r, b, p)
    {
      PassWellformed(r, b, p.turn);
    }
  }

  // ----- what a prepared transmission is like -----

  /** All passes for a remote whose frames begin with a pulse and have no empty signals are proper:
      the buffer holds its frames and gaps in order. */
  lemma PreparedBuffer(r: Remote, b: Button, first: Turn, passes: seq<Pass>, t: Tx)
    requires Wellformed(r) && r.BitCount() <= 64 && Result(r, b, first, passes, t)
    ensures AllProper(r, b, passes) && Levels(t.buf) == Air(Joined(r, b, passes)) && GapsRight(r, b, passes)
  {
    hide Joined, Air, Levels, GapsRight, AllProper, Sendable;
    WellformedProper(r, b, passes);
  }

  lemma {:induction false} LaterTurns(r: Remote, b: Button, passes: seq<Pass>, i: nat)
    requires Chained(r, b, passes) && i < |passes|
    ensures i > 0 ==> passes[i].turn.repeat
    ensures b.next == [] ==> passes[i].turn.countdown == passes[0].turn.countdown - i
    ensures b.next == [] && i > 0 ==> passes[i].turn.countdown >= 0
    decreases i
  {
    if i == 0 {
    } else {
      LaterTurns(r, b, passes, i - 1);
      assert Follows(r, b, passes[i - 1], passes[i]);
    }
  }

  /** For a remote of constant length every frame takes, with the gap after it, exactly the minimal
      gap and the space that the frame ends in; the first frame may have its header on top of that. */
  lemma ConstantLength(r: Remote, b: Button, first: Turn, passes: seq<Pass>, t: Tx, i: nat)
    requires r.BitCount() <= 64 && r.constLength && !r.HasRepeatGap()
    requires Result(r, b, first, passes, t) && AllProper(r, b, passes) && i < |passes|
    requires InSequence(b, passes[i].turn)
    ensures var f := PassSignals(r, b, passes[i].turn);
            Total(f) + passes[i].gap == r.MinGap() + EndSpace(f) + (if i == 0 then PassDiscount(r, first) else 0)
  {
    hide PassSignals, Levels, Joined, Air, AllProper, EndSpace, Positive;
    assert GapRight(r, b, passes[i]) by { assert passes[i] in passes; }
    LaterTurns(r, b, passes, i);
    PassIsPositive(r, b, passes, i);
    AirTotal(PassSignals(r, b, passes[i].turn));
  }

  lemma PassIsPositive(r: Remote, b: Button, passes: seq<Pass>, i: nat)
    requires r.BitCount() <= 64 && AllProper(r, b, passes) && i < |passes|
    ensures InSequence(b, passes[i].turn) && passes[i].gap > 0
    ensures Proper(PassSignals(r, b, passes[i].turn))
  {
    hide PassSignals;
    assert ProperPass(r, b, passes[i]) by { assert passes[i] in passes; }
  }

  /** A single code is put into the buffer once and then once for each repeat, as long as the gaps
      are short. */
  lemma RepeatsInOneBuffer(r: Remote, b: Button, first: Turn, passes: seq<Pass>, t: Tx)
    requires r.BitCount() <= 64 && b.next == []
    requires Result(r, b, first, passes, t)
    ensures |passes| <= 1 + RepeatsLeft(first)
    ensures passes[|passes| - 1].gap < EXACT_GAP_THRESHOLD ==> |passes| == 1 + RepeatsLeft(first)
  {
    hide PassSignals, Levels, Joined, Air, AllProper;
    LaterTurns(r, b, passes, |passes| - 1);
  }

  /** Receiving one exact frame of a constant-length remote, the receiver computes the same range
      for the gap after it as the sender did, if and only if both or neither take the header off
      the length: a sender also does so for a header that it never sends. */
  lemma GapsAgree(s: Rx, r: Remote, t: Toggles, code: Word, c: Context, sync: nat, tail: seq<Sig>, u: Tx)
    requires Sound(r) && Transmissible(r, t, code) && Synchronises(r, c, sync) && r.constLength
    requires Sent(r, t, code, u) && Delivers(s, sync, Levels(u.buf), tail) && Ends(r, u.sum - Discount(r), tail)
    requires Told(r, c, FrameSignals(r, t, code, false), tail)
    requires r.MinGap() > u.sum - HeaderDiscount(r, false)
    ensures var d := ReceiveDecode(s, r, c);
            var length := u.sum - HeaderDiscount(r, false);
            && d.frame.Some?
            && ((d.frame.value.minRemaining == r.MinGap() - length && d.frame.value.maxRemaining == r.MaxGap() - length)
                <==> r.HasHeader() || !r.noHeadRep || r.phead + r.shead == 0)
  {
    hide Sound, ReceiveDecode, Sent, Delivers, Ends, Transmissible, FrameSignals, AirWord, Told;
    SoundSplits(r);
    FramePositive(r, t, code);
    DecodeUndoesSendBuffer(s, r, t, code, c, sync, tail, u);
  }

  /** After a repeat code the sender puts repeat_gap first and the receiver the constant length:
      they agree on the gap if and only if at most one of both is configured, or the length makes no
      difference. */
  lemma RepeatGapsAgree(s: Rx, r: Remote, c: Context, sync: nat, tail: seq<Sig>, u: Tx)
    requires Decodable(r) && r.HasRepeat() && !r.IsBiphase() && c.own && c.lastCode.Some? && Synchronises(r, c, sync)
    requires RepeatSent(r, u) && Delivers(s, sync, Levels(u.buf), tail) && RepeatEnds(r, u.sum, tail)
    requires r.constLength ==> r.MinGap() > u.sum
    ensures var d, sent := ReceiveDecode(s, r, c), GapOf(r, true, u.sum);
            && d.frame.Some? && sent.Some?
            && ((d.frame.value.minRemaining == sent.value && d.frame.value.maxRemaining == MaxGapOf(r, true, u.sum))
                <==> !r.constLength || !r.HasRepeatGap()
                     || (r.repeatGap == r.MinGap() - u.sum && r.MinGap() == r.MaxGap()))
  {
    hide ReceiveDecode, RepeatSent, Delivers, RepeatEnds;
    RepeatBufferIsReceived(s, r, c, sync, tail, u);
    SentLength(r, u);
  }

  lemma SentLength(r: Remote, u: Tx)
    requires r.HasRepeat() && RepeatSent(r, u)
    ensures u.sum >= 0
  {
    hide Air, RepeatSignals, Sync, SendAll;
    RepeatParts(r);
    SentFrame(RepeatSignals(r));
  }
}
