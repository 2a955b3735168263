/** Whether the loop of `init_send` comes to an end: exactly when the passes of an endless XMP
    sequence make the transmit buffer longer. */
module LoopEnds {
  import opened Options
  import opened Words
  import opened Signals
  import opened SendBuffers
  import opened Remotes
  import opened Transmit
  import opened Passes
  import opened FrameShapes
  import opened Gains

  /** One turn of the loop from the buffer `h`: the buffer and the turn that follow, if the loop
      goes on. */
  function TurnFrom(r: Remote, b: Button, h: Tx, t: Turn): (o: Option<(Tx, Turn)>)
    requires r.BitCount() <= 64 && InSequence(b, t)
    ensures o.Some? ==> InSequence(b, o.value.1)
  {
    var x := SendAll(h, PassSignals(r, b, t));
    var y := Sync(x.(sum := x.sum - PassDiscount(r, t)));
    if Bad(y) then None
    else
      match GapOf(r, t.repeat, y.sum)
      case None => None
      case Some(gap) =>
        var u := Advance(r, b, t);
        if GoesOn(u, gap) then Some((Flush(SendSpace(y, gap)).(sum := 0), NextTurn(b, u))) else None
  }

  /** The buffer and the turn after `n` turns of the loop, if it goes on so long. */
  function Turns(r: Remote, b: Button, t: Turn, n: nat): (o: Option<(Tx, Turn)>)
    requires r.BitCount() <= 64 && InSequence(b, t)
    ensures o.Some? ==> InSequence(b, o.value.1)
  {
    if n == 0 then Some((CLEARED, t))
    else
      var s := Turns(r, b, t, n - 1);
      if s.None? then None else TurnFrom(r, b, s.value.0, s.value.1)
  }

  ghost predicate NeverEnds(r: Remote, b: Button, t: Turn)
    requires r.BitCount() <= 64 && InSequence(b, t)
  {
    forall n: nat :: Turns(r, b, t, n).Some?
  }

  lemma {:induction false} EarlierTurns(r: Remote, b: Button, t: Turn, m: nat, n: nat)
    requires r.BitCount() <= 64 && InSequence(b, t) && m <= n && Turns(r, b, t, n).Some?
    ensures Turns(r, b, t, m).Some?
    decreases n
  {
    hide TurnFrom;
    if m < n { EarlierTurns(r, b, t, m, n - 1); }
  }

  /** A sequence that XMP goes through again and again. */
  predicate Endless(r: Remote, b: Button) {
    r.protocol.Xmp? && b.next != []
  }

  // ----- sequences that come to an end -----

  function NodesLeft(b: Button, t: Turn): nat {
    if t.transmit.None? || t.transmit.value >= |b.next| then |b.next| + 1 else |b.next| - t.transmit.value
  }

  function RepeatsLeft(t: Turn): nat {
    if t.countdown > 0 then t.countdown else 0
  }

  predicate RunsOut(b: Button, t: Turn, u: Turn) {
    || RepeatsLeft(u) < RepeatsLeft(t)
    || (RepeatsLeft(u) == RepeatsLeft(t) && NodesLeft(b, u) < NodesLeft(b, t))
  }

  lemma TurnsRunOut(r: Remote, b: Button, t: Turn, gap: nat)
    requires InSequence(b, t) && !Endless(r, b) && GoesOn(Advance(r, b, t), gap)
    ensures RunsOut(b, t, NextTurn(b, Advance(r, b, t)))
  {
  }

  // ----- the codes of an endless sequence, one after the other -----

  const UNTOGGLED := Toggles(ZERO, 0)

  /** What is sent at place `k` of the sequence. */
  function NodeFrame(r: Remote, b: Button, k: nat): seq<Sig>
    requires r.BitCount() <= 64 && k < |b.next|
  {
    PassSignals(r, b, Turn(0, UNTOGGLED, Some(k), true))
  }

  function NextPlace(b: Button, k: nat): nat {
    if k + 1 < |b.next| then k + 1 else 0
  }

  function PriorPlace(b: Button, k: nat): nat
    requires k < |b.next|
    ensures PriorPlace(b, k) < |b.next|
  {
    if k == 0 then |b.next| - 1 else k - 1
  }

  lemma PriorOfNext(b: Button, k: nat)
    requires k < |b.next|
    ensures NextPlace(b, k) < |b.next| && PriorPlace(b, NextPlace(b, k)) == k
  {
  }

  /** Toggles make no difference to XMP. */
  lemma NodeSignals(r: Remote, b: Button, t: Turn)
    requires r.BitCount() <= 64 && Endless(r, b) && InSequence(b, t) && t.repeat && t.transmit.Some?
    ensures PassSignals(r, b, t) == NodeFrame(r, b, t.transmit.value) && PassDiscount(r, t) == 0
    ensures var u := NextTurn(b, Advance(r, b, t));
            && u.repeat && u.transmit == Some(NextPlace(b, t.transmit.value)) && Advance(r, b, t).transmit.Some?
  {
  }

  /** Past place `k` the buffer may be of odd length: without a gap, and without a space at the end of
      the frame. */
  function OddAfter(r: Remote, b: Button, k: nat): nat
    requires r.BitCount() <= 64 && k < |b.next|
  {
    if r.MinGap() > 0 || LeavesSpace(NodeFrame(r, b, k)) then 0 else 1
  }

  /** What is sent at place `k` adds nothing but what makes an odd length even. */
  predicate Stuck(r: Remote, b: Button, k: nat)
    requires r.BitCount() <= 64 && k < |b.next|
  {
    Gain(NodeFrame(r, b, k)) <= OddAfter(r, b, PriorPlace(b, k))
  }

  ghost predicate AllStuck(r: Remote, b: Button)
    requires r.BitCount() <= 64
  {
    forall k :: 0 <= k < |b.next| ==> Stuck(r, b, k)
  }

  /** The condition under which the loop never ends: a sequence that goes round, gaps that are short,
      and after three turns a buffer that is empty or that no place of the sequence makes longer. */
  ghost predicate NeverFills(r: Remote, b: Button, t: Turn)
    requires r.BitCount() <= 64 && InSequence(b, t)
  {
    && Endless(r, b) && r.MinGap() < EXACT_GAP_THRESHOLD && (r.constLength ==> r.MinGap() > 0)
    && var s := Turns(r, b, t, 3);
       s.Some? && !s.value.0.tooLong && (s.value.0.buf == [] || AllStuck(r, b))
  }

  /** A repeat code always makes the buffer longer. */
  lemma RepeatGains(r: Remote)
    requires r.HasRepeat()
    ensures HasPulse(RepeatSignals(r))
    ensures Gain(RepeatSignals(r)) > 1 || (Gain(RepeatSignals(r)) == 1 && LeavesSpace(RepeatSignals(r)))
  {
    hide Released, Holds;
    var head := (if r.repeatHeader then HeaderSignals(r) else []) + LeadSignals(r);
    var back := [Pulse(r.prepeat), Space(r.srepeat)] + TrailSignals(r);
    assert RepeatSignals(r) == head + back;
    assert back[0] == Pulse(r.prepeat);
    assert HasPulse(back);
    HasPulseConcat(head, back);
    GainConcat(Nothing, head, back);
    BackGains(r, HoldAfter(Nothing, head));
  }

  lemma {:induction false} GainConcat(h: Hold, a: seq<Sig>, c: seq<Sig>)
    ensures GainFrom(h, a + c) >= GainFrom(HoldAfter(h, a), c)
    ensures HoldAfter(h, a + c) == HoldAfter(HoldAfter(h, a), c)
    decreases |a|
  {
    if a == [] {
      assert a + c == c;
    } else {
      assert (a + c)[1..] == a[1..] + c;
      GainConcat(Holds(h, a[0]), a[1..], c);
    }
  }

  lemma BackGains(r: Remote, h: Hold)
    requires r.HasRepeat()
    ensures var back := [Pulse(r.prepeat), Space(r.srepeat)] + TrailSignals(r);
            GainFrom(h, back) > 1 || (GainFrom(h, back) == 1 && HoldAfter(h, back).OfSpace?)
  {
    hide GainFrom, HoldAfter;
    var end := TrailSignals(r);
    assert [Pulse(r.prepeat), Space(r.srepeat)] + end == [Pulse(r.prepeat)] + ([Space(r.srepeat)] + end);
    GainStep(h, Pulse(r.prepeat), [Space(r.srepeat)] + end);
    GainStep(OfPulse, Space(r.srepeat), end);
    GainNothing(OfSpace);
    if r.ptrail > 0 {
      assert end == [Pulse(r.ptrail)] + [];
      GainStep(OfSpace, Pulse(r.ptrail), []);
      GainNothing(OfPulse);
    }
  }

  lemma GainStep(h: Hold, x: Sig, c: seq<Sig>)
    ensures GainFrom(h, [x] + c) == Released(h, x) + GainFrom(Holds(h, x), c)
    ensures HoldAfter(h, [x] + c) == HoldAfter(Holds(h, x), c)
  {
    assert ([x] + c)[1..] == c;
  }

  lemma GainNothing(h: Hold)
    ensures GainFrom(h, []) == (if h.OfPulse? then 1 else 0) && HoldAfter(h, []) == h
  {
  }

  lemma StuckSendsCodes(r: Remote, b: Button, k: nat)
    requires r.BitCount() <= 64 && k < |b.next| && Stuck(r, b, k) && Stuck(r, b, PriorPlace(b, k))
    ensures !r.HasRepeat()
  {
    hide Gain, LeavesSpace;
    if r.HasRepeat() { RepeatGains(r); }
  }

  // ----- the state between two turns -----

  /** Between two turns, the next of which is place `k` of the sequence. */
  predicate Between(r: Remote, b: Button, s: (Tx, Turn), k: nat) {
    && Flushed(s.0) && s.1.repeat && s.1.transmit == Some(k) && k < |b.next|
  }

  /** The length of the buffer is as the turn before has left it. */
  predicate Even(r: Remote, b: Button, s: (Tx, Turn), k: nat)
    requires r.BitCount() <= 64
  {
    && Between(r, b, s, k) && s.0.buf != [] && |s.0.buf| % 2 <= OddAfter(r, b, PriorPlace(b, k))
    && (!r.HasRepeat() ==> |s.0.buf| % 2 == OddAfter(r, b, PriorPlace(b, k)))
  }

  lemma TooLongStops(r: Remote, b: Button, h: Tx, t: Turn)
    requires r.BitCount() <= 64 && InSequence(b, t) && h.tooLong
    ensures TurnFrom(r, b, h, t).None?
  {
    hide PassSignals, SendAll;
    var x := SendAll(h, PassSignals(r, b, t));
    SendAllKeepsTooLong(h, PassSignals(r, b, t));
    SyncTooLong(x.(sum := x.sum - PassDiscount(r, t)));
  }

  /** One turn from a buffer that is not empty. */
  lemma NodeTurn(r: Remote, b: Button, s: (Tx, Turn), k: nat)
    requires r.BitCount() <= 64 && Endless(r, b) && Between(r, b, s, k) && s.0.buf != []
    requires InSequence(b, s.1)
    ensures var f, o := NodeFrame(r, b, k), TurnFrom(r, b, s.0, s.1);
            && (o.Some? && !o.value.0.tooLong ==>
                  && Even(r, b, o.value, NextPlace(b, k))
                  && Rounded(|o.value.0.buf|) == Rounded(|s.0.buf| + Gain(f)))
  {
    hide SendAll, Sync, Flush, SendSpace, Gain, LeavesSpace, PassSignals, NodeFrame, Advance, Bad;
    NodeSignals(r, b, s.1);
    PriorOfNext(b, k);
    var f := NodeFrame(r, b, k);
    var x := SendAll(s.0, f);
    var y := Sync(x.(sum := x.sum - 0));
    if !Bad(y) {
      var gap := GapOf(r, true, y.sum);
      if gap.Some? { TurnLevel(s.0, f, 0, gap.value); }
    }
  }

  // ----- a sequence that is stuck goes round for ever -----

  /** Nothing will change. */
  ghost predicate Idle(r: Remote, b: Button, s: (Tx, Turn), k: nat)
    requires r.BitCount() <= 64
  {
    && Between(r, b, s, k) && !r.HasRepeat()
    && if s.0.buf == [] then forall j :: 0 <= j < |b.next| ==> !HasPulse(NodeFrame(r, b, j))
       else Even(r, b, s, k) && AllStuck(r, b)
  }

  lemma IdleTurn(r: Remote, b: Button, s: (Tx, Turn), k: nat)
    requires r.BitCount() <= 64 && Endless(r, b) && Idle(r, b, s, k) && InSequence(b, s.1)
    requires r.MinGap() < EXACT_GAP_THRESHOLD && (r.constLength ==> r.MinGap() > 0)
    ensures var o := TurnFrom(r, b, s.0, s.1); o.Some? && Idle(r, b, o.value, NextPlace(b, k))
  {
    hide SendAll, Sync, Flush, SendSpace, GainFrom, LeavesSpace, PassSignals, NodeFrame, Advance, Bad, HasPulse;
    NodeSignals(r, b, s.1);
    PriorOfNext(b, k);
    var f := NodeFrame(r, b, k);
    var x := SendAll(s.0, f);
    if s.0.buf == [] {
      TurnFlushes(s.0, f, 0, r.MinGap()) by { NothingBad(s.0, f); }
      NothingBad(s.0, f);
    } else {
      assert Stuck(r, b, k);
      SendAllFits(s.0, f);
      assert x.(sum := x.sum - 0) == x;
      TurnLevel(s.0, f, 0, r.MinGap());
      NodeTurn(r, b, s, k);
    }
  }

  lemma NothingBad(h: Tx, f: seq<Sig>)
    requires Flushed(h) && h.buf == [] && !HasPulse(f)
    ensures var x := SendAll(h, f); !Bad(Sync(x.(sum := x.sum - 0)))
  {
    NothingBegins(h, f);
  }

  // ----- after three turns -----

  lemma PulsesAlike(r: Remote, b: Button, j: nat, k: nat)
    requires r.BitCount() <= 64 && Endless(r, b) && j < |b.next| && k < |b.next|
    ensures HasPulse(NodeFrame(r, b, j)) <==> HasPulse(NodeFrame(r, b, k))
  {
    hide FrameSignals, HasPulse, PulseInFrame;
    if !r.HasRepeat() {
      FramePulse(r, UNTOGGLED, b.next[j], true);
      FramePulse(r, UNTOGGLED, b.next[k], true);
    }
  }

  /** The place after a turn of an endless sequence. */
  lemma PlaceAfter(r: Remote, b: Button, h: Tx, t: Turn) returns (k: nat)
    requires r.BitCount() <= 64 && Endless(r, b) && InSequence(b, t) && Flushed(h)
    requires var o := TurnFrom(r, b, h, t); o.Some? && !o.value.0.tooLong
    ensures Between(r, b, TurnFrom(r, b, h, t).value, k)
  {
    hide SendAll, Sync, Flush, SendSpace, PassSignals, Bad, HasPulse;
    var f, x := PassSignals(r, b, t), SendAll(h, PassSignals(r, b, t));
    var y := Sync(x.(sum := x.sum - PassDiscount(r, t)));
    TurnFlushes(h, f, PassDiscount(r, t), GapOf(r, t.repeat, y.sum).value);
    k := Advance(r, b, t).transmit.value;
  }

  /** From an empty buffer, with nothing to make it longer. */
  lemma EmptyTurn(r: Remote, b: Button, s: (Tx, Turn), k: nat)
    requires r.BitCount() <= 64 && Endless(r, b) && Between(r, b, s, k) && s.0.buf == [] && InSequence(b, s.1)
    requires var o := TurnFrom(r, b, s.0, s.1); o.Some? && o.value.0.buf == [] && !o.value.0.tooLong
    ensures !HasPulse(NodeFrame(r, b, k)) && !r.HasRepeat()
    ensures r.MinGap() < EXACT_GAP_THRESHOLD && (r.constLength ==> r.MinGap() > 0)
  {
    hide SendAll, Sync, Flush, SendSpace, Bad, HasPulse, PassSignals, Advance;
    NodeSignals(r, b, s.1);
    var f, x := NodeFrame(r, b, k), SendAll(s.0, NodeFrame(r, b, k));
    var y := Sync(x.(sum := x.sum - 0));
    TurnFlushes(s.0, f, 0, GapOf(r, true, y.sum).value);
    if r.HasRepeat() { RepeatPulses(r, b, k); }
  }

  lemma RepeatPulses(r: Remote, b: Button, k: nat)
    requires r.BitCount() <= 64 && k < |b.next| && r.HasRepeat()
    ensures HasPulse(NodeFrame(r, b, k))
  {
    RepeatGains(r);
  }

  /** After three turns the buffer is empty and stays so, or its length is settled. */
  lemma AfterThree(r: Remote, b: Button, t: Turn) returns (k: nat)
    requires r.BitCount() <= 64 && Endless(r, b) && InSequence(b, t)
    requires Turns(r, b, t, 3).Some? && !Turns(r, b, t, 3).value.0.tooLong
    ensures var s := Turns(r, b, t, 3).value;
            && Between(r, b, s, k)
            && (s.0.buf != [] ==> Even(r, b, s, k))
            && (s.0.buf == [] ==>
                  && !r.HasRepeat() && r.MinGap() < EXACT_GAP_THRESHOLD && (r.constLength ==> r.MinGap() > 0)
                  && forall j :: 0 <= j < |b.next| ==> !HasPulse(NodeFrame(r, b, j)))
  {
    hide TurnFrom, HasPulse, Even, NodeFrame;
    EarlierTurns(r, b, t, 2, 3);
    EarlierTurns(r, b, t, 1, 3);
    var one, two, three := Turns(r, b, t, 1).value, Turns(r, b, t, 2).value, Turns(r, b, t, 3).value;
    assert Turns(r, b, t, 1) == TurnFrom(r, b, CLEARED, t);
    assert Turns(r, b, t, 2) == TurnFrom(r, b, one.0, one.1);
    assert Turns(r, b, t, 3) == TurnFrom(r, b, two.0, two.1);
    if one.0.tooLong { TooLongStops(r, b, one.0, one.1); }
    if two.0.tooLong { TooLongStops(r, b, two.0, two.1); }
    var i := PlaceAfter(r, b, CLEARED, t);
    var j := PlaceAfter(r, b, one.0, one.1);
    k := PlaceAfter(r, b, two.0, two.1);
    if two.0.buf == [] {
      if one.0.buf == [] { EmptyTurn(r, b, one, i); } else { NodeTurn(r, b, one, i); NeverEmptied(r, b, two); }
      EmptyStays(r, b, two, i, j);
      EmptyTurn(r, b, two, j);
      forall l | 0 <= l < |b.next| ensures !HasPulse(NodeFrame(r, b, l)) { PulsesAlike(r, b, i, l); }
    } else {
      NodeTurn(r, b, two, j);
      SamePlace(r, b, three, k, NextPlace(b, j));
    }
  }

  lemma NeverEmptied(r: Remote, b: Button, s: (Tx, Turn))
    requires r.BitCount() <= 64 && s.0.buf == []
    ensures forall k :: !Even(r, b, s, k)
  {
  }

  lemma SamePlace(r: Remote, b: Button, s: (Tx, Turn), k: nat, l: nat)
    requires r.BitCount() <= 64 && Between(r, b, s, k) && Even(r, b, s, l)
    ensures k == l && s.0.buf != []
  {
  }

  /** If one place of the sequence put nothing into the empty buffer, no other does. */
  lemma EmptyStays(r: Remote, b: Button, s: (Tx, Turn), i: nat, j: nat)
    requires r.BitCount() <= 64 && Endless(r, b) && Between(r, b, s, j) && s.0.buf == [] && InSequence(b, s.1)
    requires i < |b.next| && !HasPulse(NodeFrame(r, b, i))
    ensures var o := TurnFrom(r, b, s.0, s.1); o.Some? ==> o.value.0 == s.0
  {
    hide SendAll, Sync, Flush, SendSpace, Bad, HasPulse, PassSignals, Advance;
    NodeSignals(r, b, s.1);
    PulsesAlike(r, b, i, j);
    var f, x := NodeFrame(r, b, j), SendAll(s.0, NodeFrame(r, b, j));
    var y := Sync(x.(sum := x.sum - 0));
    NothingBad(s.0, f);
    if GapOf(r, true, y.sum).Some? { TurnFlushes(s.0, f, 0, GapOf(r, true, y.sum).value); }
  }

  // ----- the two directions -----

  lemma {:induction false} IdleAt(r: Remote, b: Button, t: Turn, n: nat) returns (k: nat)
    requires r.BitCount() <= 64 && InSequence(b, t) && NeverFills(r, b, t) && n >= 3
    ensures Turns(r, b, t, n).Some? && Idle(r, b, Turns(r, b, t, n).value, k)
    decreases n
  {
    hide TurnFrom, HasPulse, Even, NodeFrame, Stuck;
    if n == 3 {
      k := AfterThree(r, b, t);
      if Turns(r, b, t, 3).value.0.buf != [] {
        assert Stuck(r, b, k) && Stuck(r, b, PriorPlace(b, k));
        StuckSendsCodes(r, b, k);
      }
    } else {
      k := IdleAt(r, b, t, n - 1);
      IdleTurn(r, b, Turns(r, b, t, n - 1).value, k);
      k := NextPlace(b, k);
    }
  }

  /** Places still to pass before place `goal` has been. */
  function Distance(b: Button, k: nat, goal: nat): nat
    requires k < |b.next| && goal < |b.next|
    ensures Distance(b, k, goal) < |b.next|
  {
    if k <= goal then goal - k else |b.next| - k + goal
  }

  /** What is left until the buffer is full: rounds, and places until the one that adds something. */
  function Left(b: Button, h: Tx, k: nat, goal: nat): nat
    requires k < |b.next| && goal < |b.next| && |h.buf| <= WBUF_SIZE
  {
    Times(WBUF_SIZE - Rounded(|h.buf|), |b.next|) + Distance(b, k, goal)
  }

  function Times(a: nat, m: nat): nat {
    a * m
  }

  lemma {:induction false} Multiples(a: nat, c: nat, m: nat)
    requires a >= c
    ensures Times(a, m) >= Times(c, m) && (a > c ==> Times(a, m) >= Times(c, m) + m)
    decreases a
  {
    if a > c {
      Multiples(a - 1, c, m);
      OneMore(a - 1, m);
    }
  }

  lemma OneMore(a: nat, m: nat)
    ensures Times(a + 1, m) == Times(a, m) + m
  {
  }

  /** Every turn comes closer to it. */
  lemma TurnClimbs(r: Remote, b: Button, s: (Tx, Turn), k: nat, goal: nat)
    requires r.BitCount() <= 64 && Endless(r, b) && Even(r, b, s, k) && InSequence(b, s.1)
    requires goal < |b.next| && !Stuck(r, b, goal)
    requires var o := TurnFrom(r, b, s.0, s.1); o.Some? && !o.value.0.tooLong
    ensures var g := TurnFrom(r, b, s.0, s.1).value;
            Even(r, b, g, NextPlace(b, k)) && Left(b, g.0, NextPlace(b, k), goal) < Left(b, s.0, k, goal)
  {
    hide TurnFrom, NodeFrame, Gain, Times;
    NodeTurn(r, b, s, k);
    var g := TurnFrom(r, b, s.0, s.1).value;
    Multiples(WBUF_SIZE - Rounded(|s.0.buf|), WBUF_SIZE - Rounded(|g.0.buf|), |b.next|);
  }

  lemma {:induction false} Climb(r: Remote, b: Button, t: Turn, goal: nat, k: nat, n: nat) returns (j: nat)
    requires r.BitCount() <= 64 && Endless(r, b) && InSequence(b, t) && goal < |b.next| && !Stuck(r, b, goal)
    requires Turns(r, b, t, 3).Some? && Even(r, b, Turns(r, b, t, 3).value, k)
    requires n >= 3 && Turns(r, b, t, n + 1).Some?
    ensures Turns(r, b, t, n).Some? && Even(r, b, Turns(r, b, t, n).value, j)
    ensures Left(b, Turns(r, b, t, n).value.0, j, goal) + (n - 3) <= Left(b, Turns(r, b, t, 3).value.0, k, goal)
    decreases n
  {
    hide TurnFrom, Stuck, Left, NodeFrame;
    EarlierTurns(r, b, t, n, n + 1);
    if n == 3 {
      j := k;
    } else {
      j := Climb(r, b, t, goal, k, n - 1);
      var g := Turns(r, b, t, n).value;
      if g.0.tooLong { TooLongStops(r, b, g.0, g.1); }
      TurnClimbs(r, b, Turns(r, b, t, n - 1).value, j, goal);
      j := NextPlace(b, j);
    }
  }

  /** A sequence that is not stuck fills the buffer. */
  lemma Fills(r: Remote, b: Button, t: Turn, goal: nat, k: nat) returns (n: nat)
    requires r.BitCount() <= 64 && Endless(r, b) && InSequence(b, t) && goal < |b.next| && !Stuck(r, b, goal)
    requires Turns(r, b, t, 3).Some? && Even(r, b, Turns(r, b, t, 3).value, k)
    ensures Turns(r, b, t, n).None?
  {
    hide TurnFrom, Stuck, NodeFrame, Left;
    var m := Left(b, Turns(r, b, t, 3).value.0, k, goal);
    n := m + 5;
    if Turns(r, b, t, n).Some? {
      var j := Climb(r, b, t, goal, k, m + 4);
    }
  }

  /** A stuck sequence only goes on with short gaps. */
  lemma StuckGaps(r: Remote, b: Button, s: (Tx, Turn), k: nat)
    requires r.BitCount() <= 64 && Endless(r, b) && Even(r, b, s, k) && AllStuck(r, b) && InSequence(b, s.1)
    requires TurnFrom(r, b, s.0, s.1).Some?
    ensures r.MinGap() < EXACT_GAP_THRESHOLD && (r.constLength ==> r.MinGap() > 0)
  {
    hide SendAll, Sync, Flush, SendSpace, GainFrom, LeavesSpace, PassSignals, NodeFrame, Advance, Bad;
    NodeSignals(r, b, s.1);
    assert Stuck(r, b, k) && Stuck(r, b, PriorPlace(b, k));
    StuckSendsCodes(r, b, k);
    TurnLevel(s.0, NodeFrame(r, b, k), 0, 0);
  }

  /** How far a loop that is not endless still has to go, as one number. */
  function ToGo(b: Button, t: Turn): nat {
    Times(RepeatsLeft(t), |b.next| + 2) + NodesLeft(b, t)
  }

  lemma RunsDown(b: Button, t: Turn, u: Turn)
    requires RunsOut(b, t, u)
    ensures ToGo(b, u) < ToGo(b, t)
  {
    if RepeatsLeft(u) < RepeatsLeft(t) { Multiples(RepeatsLeft(t), RepeatsLeft(u), |b.next| + 2); }
  }

  lemma {:induction false} EndsInTime(r: Remote, b: Button, t: Turn, n: nat)
    requires r.BitCount() <= 64 && InSequence(b, t) && !Endless(r, b) && Turns(r, b, t, n).Some?
    ensures ToGo(b, Turns(r, b, t, n).value.1) + n <= ToGo(b, t)
    decreases n
  {
    hide SendAll, PassSignals, Sync, Flush, SendSpace, RunsOut, ToGo;
    if n == 0 {
    } else {
      EndsInTime(r, b, t, n - 1);
      var s := Turns(r, b, t, n - 1).value;
      var x := SendAll(s.0, PassSignals(r, b, s.1));
      var y := Sync(x.(sum := x.sum - PassDiscount(r, s.1)));
      var gap := GapOf(r, s.1.repeat, y.sum).value;
      TurnsRunOut(r, b, s.1, gap);
      RunsDown(b, s.1, NextTurn(b, Advance(r, b, s.1)));
    }
  }

  /** The loop runs for ever if and only if the condition holds; otherwise there is a last turn. */
  lemma NeverEndsExactly(r: Remote, b: Button, t: Turn) returns (n: nat)
    requires r.BitCount() <= 64 && InSequence(b, t)
    ensures NeverEnds(r, b, t) <==> NeverFills(r, b, t)
    ensures !NeverFills(r, b, t) ==> Turns(r, b, t, n).None?
  {
    hide TurnFrom, Stuck, Even, NodeFrame, Turns;
    n := 3;
    if NeverFills(r, b, t) {
      forall m: nat ensures Turns(r, b, t, m).Some? {
        if m >= 3 { var k := IdleAt(r, b, t, m); } else { EarlierTurns(r, b, t, m, 3); }
      }
    } else if !Endless(r, b) {
      n := ToGo(b, t) + 1;
      if Turns(r, b, t, n).Some? { EndsInTime(r, b, t, n); }
    } else if Turns(r, b, t, 3).Some? {
      n := LastTurn(r, b, t);
    }
  }

  lemma LastTurn(r: Remote, b: Button, t: Turn) returns (n: nat)
    requires r.BitCount() <= 64 && InSequence(b, t) && Endless(r, b) && !NeverFills(r, b, t)
    requires Turns(r, b, t, 3).Some?
    ensures Turns(r, b, t, n).None?
  {
    hide TurnFrom, Stuck, Even, NodeFrame, HasPulse;
    var s := Turns(r, b, t, 3).value;
    n := 4;
    if s.0.tooLong {
      TooLongStops(r, b, s.0, s.1);
    } else {
      var k := AfterThree(r, b, t);
      if s.0.buf != [] {
        if AllStuck(r, b) {
          if TurnFrom(r, b, s.0, s.1).Some? { StuckGaps(r, b, s, k); }
        } else {
          var goal :| 0 <= goal < |b.next| && !Stuck(r, b, goal);
          n := Fills(r, b, t, goal, k);
        }
      }
    }
  }

  // ----- remotes with a gap -----

  lemma {:induction false} PulseGains(h: Hold, f: seq<Sig>)
    requires HasPulse(f) || h.OfPulse?
    ensures GainFrom(h, f) >= 1
    decreases |f|
  {
    if f != [] && Released(h, f[0]) == 0 {
      if HasPulse(f) && !Holds(h, f[0]).OfPulse? {
        var i :| 0 <= i < |f| && f[i].Pulse? && f[i].len > 0;
        assert f[1..][i - 1] == f[i];
      }
      PulseGains(Holds(h, f[0]), f[1..]);
    }
  }

  lemma StuckAt(r: Remote, b: Button, k: nat)
    requires r.BitCount() <= 64 && AllStuck(r, b) && k < |b.next|
    ensures Stuck(r, b, k)
  {
  }

  /** A repeat code, or a pulse in every repetition, makes the loop end. */
  lemma FillsBufferEnds(r: Remote, b: Button, t: Turn)
    requires r.BitCount() <= 64 && InSequence(b, t) && FillsBuffer(r)
    ensures !NeverFills(r, b, t)
  {
    hide Turns, Even, HasPulse, GainFrom, PulseInFrame, FrameSignals;
    if NeverFills(r, b, t) {
      if r.HasRepeat() { RepeatPulses(r, b, 0); } else { FramePulse(r, UNTOGGLED, b.next[0], true); }
      PulseGains(Nothing, NodeFrame(r, b, 0));
      var k := AfterThree(r, b, t);
      if Turns(r, b, t, 3).value.0.buf != [] { StuckAt(r, b, 0); }
    }
  }

  lemma {:induction false} NoNibbles(r: Remote, bs: seq<bool>)
    requires |bs| < 4
    ensures EncodeNibbles(r, bs) == []
  {
  }

  /** If symbols have a pulse, a repetition without any pulse has no signal at all. */
  lemma PulselessIsEmpty(r: Remote, t: Toggles, code: Word)
    requires r.protocol.Xmp? && r.BitCount() <= 64 && r.pzero > 0 && !PulseInFrame(r, true)
    ensures FrameSignals(r, t, code, true) == []
  {
    hide EncodeNibbles;
    NoNibbles(r, if r.preDataBits < 4 then Low(r.preData, r.preDataBits) else []);
    NoNibbles(r, if r.bits < 4 then Low(code, r.bits) else []);
    NoNibbles(r, if r.postDataBits < 4 then Low(r.postData, r.postDataBits) else []);
  }

  /** A turn that sends nothing. */
  lemma SilentTurn(r: Remote, b: Button, s: (Tx, Turn), k: nat)
    requires r.BitCount() <= 64 && Endless(r, b) && Between(r, b, s, k) && InSequence(b, s.1)
    requires NodeFrame(r, b, k) == [] && !r.HasRepeat() && 0 < r.MinGap() < EXACT_GAP_THRESHOLD
    ensures var o := TurnFrom(r, b, s.0, s.1); o.Some? && Between(r, b, o.value, NextPlace(b, k))
  {
    hide Sync, Flush, SendSpace, PassSignals, NodeFrame, Advance, Bad;
    NodeSignals(r, b, s.1);
    NothingSent(s.0, r.MinGap());
  }

  lemma NothingSent(h: Tx, gap: nat)
    requires Flushed(h) && gap > 0
    ensures var y := Sync(SendAll(h, []));
            var g := Flush(SendSpace(y, gap)).(sum := 0);
            !Bad(y) && y.sum == 0 && Flushed(g) && SendAll(h, []).(sum := 0 - 0) == SendAll(h, [])
  {
  }

  /** For a remote with a gap, whose symbols have a pulse, all that counts is the configuration and
      that the first turn goes on. */
  lemma PulselessExactly(r: Remote, b: Button, t: Turn)
    requires r.BitCount() <= 64 && InSequence(b, t) && r.pzero > 0 && r.MinGap() > 0
    ensures NeverEnds(r, b, t) <==>
            && Endless(r, b) && r.MinGap() < EXACT_GAP_THRESHOLD && !r.HasRepeat() && !PulseInFrame(r, true)
            && Turns(r, b, t, 1).Some? && !Turns(r, b, t, 1).value.0.tooLong
  {
    hide TurnFrom, Even, HasPulse, PulseInFrame, FrameSignals, NeverEnds, GainFrom;
    var n := NeverEndsExactly(r, b, t);
    if NeverFills(r, b, t) {
      EarlierTurns(r, b, t, 1, 3);
      EarlierTurns(r, b, t, 2, 3);
      if Turns(r, b, t, 1).value.0.tooLong { TooLongStops(r, b, Turns(r, b, t, 1).value.0, Turns(r, b, t, 1).value.1); }
      if FillsBuffer(r) { FillsBufferEnds(r, b, t); }
    } else if Endless(r, b) && r.MinGap() < EXACT_GAP_THRESHOLD && !r.HasRepeat() && !PulseInFrame(r, true)
              && Turns(r, b, t, 1).Some? && !Turns(r, b, t, 1).value.0.tooLong {
      forall k | 0 <= k < |b.next| ensures NodeFrame(r, b, k) == [] && Stuck(r, b, k) {
        PulselessIsEmpty(r, UNTOGGLED, b.next[k]);
        GainNothing(Nothing);
      }
      assert Turns(r, b, t, 1) == TurnFrom(r, b, CLEARED, t);
      var k := PlaceAfter(r, b, CLEARED, t);
      SilentTurn(r, b, Turns(r, b, t, 1).value, k);
      SilentTurn(r, b, Turns(r, b, t, 2).value, NextPlace(b, k));
    }
  }
}
