/** How much longer the transmit buffer gets by one frame and the gap after it, empty signals and
    missing pulses included. */
module Gains {
  import opened Signals
  import opened SendBuffers
  import opened FrameShapes

  /** What is held back while a frame is queued. */
  datatype Hold = Nothing | OfPulse | OfSpace

  function HoldOf(t: Tx): Hold {
    if t.pendingp > 0 then OfPulse else if t.pendings > 0 then OfSpace else Nothing
  }

  function Holds(h: Hold, x: Sig): Hold {
    if x.Pulse? then if h.OfPulse? || x.len > 0 then OfPulse else Nothing
    else if h.OfSpace? || x.len > 0 then OfSpace else Nothing
  }

  /** A signal of the other level puts what is held back into the buffer. */
  function Released(h: Hold, x: Sig): nat {
    if (x.Pulse? && h.OfSpace?) || (x.Space? && h.OfPulse?) then 1 else 0
  }

  function HoldAfter(h: Hold, f: seq<Sig>): Hold
    decreases |f|
  {
    if f == [] then h else HoldAfter(Holds(h, f[0]), f[1..])
  }

  /** The entries that the signals `f` add to a buffer that is not empty, a last pulse included. */
  function GainFrom(h: Hold, f: seq<Sig>): nat
    decreases |f|
  {
    if f == [] then if h.OfPulse? then 1 else 0
    else Released(h, f[0]) + GainFrom(Holds(h, f[0]), f[1..])
  }

  function Gain(f: seq<Sig>): nat {
    GainFrom(Nothing, f)
  }

  /** The frame ends in a space, which is held back with the gap. */
  predicate LeavesSpace(f: seq<Sig>) {
    HoldAfter(Nothing, f).OfSpace?
  }

  predicate OneHeld(t: Tx) {
    t.pendingp == 0 || t.pendings == 0
  }

  lemma SendGain(t: Tx, x: Sig)
    requires t.buf != [] && OneHeld(t) && !Send(t, x).tooLong
    ensures |t.buf| <= WBUF_SIZE ==> |Send(t, x).buf| <= WBUF_SIZE
    ensures var u := Send(t, x);
            && |u.buf| == |t.buf| + Released(HoldOf(t), x) && OneHeld(u) && HoldOf(u) == Holds(HoldOf(t), x)
            && u.sum >= t.sum && (Released(HoldOf(t), x) == 0 ==> u.sum == t.sum)
  {
  }

  lemma {:induction false} SendAllGain(t: Tx, f: seq<Sig>)
    requires t.buf != [] && OneHeld(t) && !SendAll(t, f).tooLong
    ensures |t.buf| <= WBUF_SIZE ==> |SendAll(t, f).buf| <= WBUF_SIZE
    ensures var u, h := SendAll(t, f), HoldOf(t);
            && |u.buf| + (if u.pendingp > 0 then 1 else 0) == |t.buf| + GainFrom(h, f) && |u.buf| >= |t.buf|
            && OneHeld(u) && HoldOf(u) == HoldAfter(h, f)
            && u.sum >= t.sum && (GainFrom(h, f) == 0 ==> u.sum == t.sum)
    decreases |f|
  {
    hide Send, HoldOf, Holds, Released;
    if f == [] {
      PulseHeld(t);
    } else {
      var u := Send(t, f[0]);
      if u.tooLong { SendAllKeepsTooLong(u, f[1..]); }
      SendGain(t, f[0]);
      SendAllGain(u, f[1..]);
    }
  }

  lemma PulseHeld(t: Tx)
    ensures HoldOf(t).OfPulse? <==> t.pendingp > 0
  {
  }

  /** Nothing gets into an empty buffer without a pulse. */
  lemma {:induction false} NothingBegins(h: Tx, f: seq<Sig>)
    requires h.buf == [] && h.pendingp == 0 && h.pendings == 0 && !HasPulse(f)
    ensures SendAll(h, f) == h
    decreases |f|
  {
    if f == [] {
    } else {
      assert f[0].Pulse? ==> f[0].len == 0;
      assert forall i :: 0 <= i < |f[1..]| ==> f[1..][i] == f[i + 1];
      NothingBegins(h, f[1..]);
    }
  }

  /** A flushed buffer, as it is between two turns. */
  predicate Flushed(h: Tx) {
    h.pendingp == 0 && h.pendings == 0 && h.sum == 0 && !h.tooLong && |h.buf| <= WBUF_SIZE
  }

  /** An even number, up to one more. */
  function Rounded(n: nat): nat {
    n + n % 2
  }

  /** Synchronisation makes the length odd. */
  lemma SyncLevel(x: Tx, n: nat)
    requires 0 < |x.buf| <= WBUF_SIZE && OneHeld(x) && !Bad(Sync(x))
    requires |x.buf| + (if x.pendingp > 0 then 1 else 0) == n
    ensures var y := Sync(x);
            && |y.buf| == (if n % 2 == 0 then n - 1 else n) && 0 < |y.buf| <= n <= WBUF_SIZE
            && y.pendingp == 0 && y.pendings == x.pendings && !y.tooLong && y.sum == x.sum + x.pendingp
  {
  }

  /** The gap makes it even, unless it and all before it is empty. */
  lemma GapLevel(y: Tx, gap: nat)
    requires y.buf != [] && y.pendingp == 0 && !y.tooLong && |y.buf| <= WBUF_SIZE
    ensures var g := Flush(SendSpace(y, gap)).(sum := 0);
            && (|y.buf| < WBUF_SIZE ==> !g.tooLong)
            && (!g.tooLong ==> Flushed(g) && |g.buf| == |y.buf| + if y.pendings + gap > 0 then 1 else 0)
  {
  }

  /** A turn rounds what it adds up to an even number, or leaves an odd one that a later turn will
      round: what counts is the level. */
  lemma TurnLevel(h: Tx, f: seq<Sig>, discount: nat, gap: nat)
    requires Flushed(h) && h.buf != []
    requires var x := SendAll(h, f); !Bad(Sync(x.(sum := x.sum - discount)))
    ensures var x := SendAll(h, f);
            var y := Sync(x.(sum := x.sum - discount));
            var g := Flush(SendSpace(y, gap)).(sum := 0);
            && y.sum >= 0 - discount && (Gain(f) == 0 ==> y.sum == 0 - discount)
            && (!g.tooLong ==>
                  && Flushed(g) && g.buf != [] && Rounded(|g.buf|) == Rounded(|h.buf| + Gain(f))
                  && |g.buf| % 2 == (if LeavesSpace(f) || gap > 0 then 0 else 1))
            && (Rounded(|h.buf| + Gain(f)) <= WBUF_SIZE ==> !g.tooLong)
  {
    hide SendAll, Sync, Flush, SendSpace, GainFrom, HoldAfter, Bad;
    var x := SendAll(h, f);
    var z := x.(sum := x.sum - discount);
    SyncTooLong(z);
    SendAllGain(h, f);
    SyncLevel(z, |h.buf| + Gain(f));
    GapLevel(Sync(z), gap);
  }

  lemma SyncTooLong(t: Tx)
    ensures t.tooLong ==> Bad(Sync(t))
  {
    SyncKeepsTooLong(t);
  }

  /** With room enough nothing is lost. */
  lemma {:induction false} SendAllFits(t: Tx, f: seq<Sig>)
    requires t.buf != [] && OneHeld(t) && !t.tooLong && |t.buf| + GainFrom(HoldOf(t), f) <= WBUF_SIZE
    ensures !SendAll(t, f).tooLong && !Bad(Sync(SendAll(t, f)))
    decreases |f|
  {
    if f == [] {
    } else {
      SendFits(t, f[0]);
      SendGain(t, f[0]);
      SendAllFits(Send(t, f[0]), f[1..]);
    }
  }

  lemma SendFits(t: Tx, x: Sig)
    requires t.buf != [] && OneHeld(t) && !t.tooLong && |t.buf| + Released(HoldOf(t), x) <= WBUF_SIZE
    ensures !Send(t, x).tooLong
  {
  }

  /** What the transmit buffer is like while a frame is queued. */
  predicate Shaped(t: Tx) {
    OneHeld(t) && |t.buf| <= WBUF_SIZE && (t.buf == [] && t.pendingp == 0 ==> t.pendings == 0)
  }

  lemma {:induction false} SendAllShaped(t: Tx, f: seq<Sig>)
    requires Shaped(t)
    ensures Shaped(SendAll(t, f))
    decreases |f|
  {
    if f == [] {
    } else {
      SendAllShaped(Send(t, f[0]), f[1..]);
    }
  }

  /** Between two turns the buffer is flushed. */
  lemma TurnFlushes(h: Tx, f: seq<Sig>, discount: nat, gap: nat)
    requires Flushed(h)
    requires var x := SendAll(h, f); !Bad(Sync(x.(sum := x.sum - discount)))
    ensures var x := SendAll(h, f);
            var y := Sync(x.(sum := x.sum - discount));
            var g := Flush(SendSpace(y, gap)).(sum := 0);
            && (!g.tooLong ==> Flushed(g))
            && (h.buf == [] && !HasPulse(f) ==> g == h && y.sum == 0 - discount)
            && (h.buf == [] && HasPulse(f) && !g.tooLong ==> g.buf != [])
  {
    hide SendAll, HasPulse, Bad;
    SendAllShaped(h, f);
    var x := SendAll(h, f);
    SyncTooLong(x.(sum := x.sum - discount));
    if h.buf == [] {
      if HasPulse(f) { SendAllEntries(h, f); } else { NothingBegins(h, f); }
    }
  }
}
