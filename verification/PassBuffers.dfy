/** The transmit buffer over one pass: a frame and the gap after it are added to all that came
    before. */
module PassBuffers {
  import opened Signals
  import opened SendBuffers
  import opened RoundTrip
  import opened FrameRoundTrip

  ghost predicate Proper(f: seq<Sig>) {
    StartsPulse(f) && Positive(f)
  }

  /** At the beginning of a pass, `h` is the flushed form of `v`, which represents all of `c`. */
  ghost predicate AtHead(h: Tx, v: Tx, c: seq<Sig>) {
    if c == [] then h == CLEARED && v == CLEARED
    else h == Flush(v).(sum := 0) && !h.tooLong && Represents(v, c) && v.pendings > 0
  }

  lemma {:induction false} SendAllGrows(t: Tx, f: seq<Sig>)
    ensures |SendAll(t, f).buf| >= |t.buf|
    decreases |f|
  {
    if f == [] {
    } else {
      SendAllGrows(Send(t, f[0]), f[1..]);
    }
  }

  lemma FlushIsTransparent(v: Tx, f: seq<Sig>)
    requires v.pendings > 0 && v.pendingp == 0 && StartsPulse(f) && |v.buf| < WBUF_SIZE
    ensures SendAll(Flush(v).(sum := 0), f) == SendAll(v.(sum := 0 - v.pendings), f)
  {
    assert Send(Flush(v).(sum := 0), f[0]) == Send(v.(sum := 0 - v.pendings), f[0]);
  }

  /** What one frame does to the buffer. */
  lemma FramePass(h: Tx, v: Tx, c: seq<Sig>, f: seq<Sig>)
    requires AtHead(h, v, c) && Proper(f) && !Bad(Sync(SendAll(h, f)))
    ensures var x := SendAll(h, f);
            && Represents(x, c + f)
            && Levels(Sync(x).buf) == Air(c + f)
            && Sync(x).sum == Total(Air(f))
            && |x.buf| >= |h.buf|
  {
    hide Air, Runs, Levels, Total, Positive, SendAll, Sync, Represents, DropLeadingSpaces, AtHead, Bad, Held,
         EndSpace;
    var x := SendAll(h, f);
    SendAllGrows(h, f);
    SyncKeepsTooLong(x);
    PulseFirstKept(f);
    var w := HeadUnflushed(h, v, c, f);
    SendAllRefinesRuns(w, c, f);
    SyncGivesAir(x, c + f);
    HeldSpace(x, c + f);
    EndSpaceAtEnd(c, f);
    AirTotal(f);
    SyncSum(x, c + f);
    HeldIs(x);
  }

  lemma AtHeadIs(h: Tx, v: Tx, c: seq<Sig>)
    requires AtHead(h, v, c)
    ensures if c == [] then h == CLEARED else h == Flush(v).(sum := 0) && v.pendings > 0
  {
  }

  lemma NothingHeld()
    ensures CLEARED.sum + Held(CLEARED) == 0
  {
  }

  lemma SpaceHeld(v: Tx)
    requires v.pendingp == 0
    ensures var w := v.(sum := 0 - v.pendings); w.sum + Held(w) == 0
  {
  }

  lemma HeldIs(x: Tx)
    ensures Held(x) == x.pendingp + x.pendings
  {
  }

  /** The buffer as it was before the gap was flushed, which makes no difference to what follows. */
  lemma HeadUnflushed(h: Tx, v: Tx, c: seq<Sig>, f: seq<Sig>) returns (w: Tx)
    requires AtHead(h, v, c) && StartsPulse(f)
    ensures Represents(w, c) && SendAll(h, f) == SendAll(w, f) && w.sum + Held(w) == 0
  {
    hide SendAll, Represents, AtHead, Flush, StartsPulse, Held;
    AtHeadIs(h, v, c);
    if c == [] {
      StartClear();
      NothingHeld();
      w := CLEARED;
    } else {
      HeadHolds(h, v, c);
      FlushIsTransparent(v, f);
      SpaceHeld(v);
      w := v.(sum := 0 - v.pendings);
    }
  }

  lemma HeadHolds(h: Tx, v: Tx, c: seq<Sig>)
    requires AtHead(h, v, c) && c != []
    ensures v.pendingp == 0 && |v.buf| < WBUF_SIZE && Represents(v.(sum := 0 - v.pendings), c)
  {
  }

  lemma SyncSum(x: Tx, c: seq<Sig>)
    requires Represents(x, c) && !Bad(Sync(x))
    ensures Sync(x).sum == x.sum + x.pendingp
  {
  }

  /** The space held back is the one that the signals end in. */
  lemma HeldSpace(x: Tx, c: seq<Sig>)
    requires Represents(x, c) && c != []
    ensures x.pendings == EndSpace(c)
  {
    hide Runs, EndSpace;
    EndSpaceOfRuns(c);
    QueuedSplit(x);
  }

  /** What the gap after a frame does to the buffer. */
  lemma GapPass(x: Tx, c: seq<Sig>, sum: int, gap: nat)
    requires Represents(x, c) && c != [] && gap > 0
    ensures var z := SendSpace(Sync(x).(sum := sum), gap);
            var h := Flush(z).(sum := 0);
            !h.tooLong ==> AtHead(h, z, c + [Space(gap)]) && |h.buf| > |x.buf|
  {
    var z := SendSpace(Sync(x).(sum := sum), gap);
    var h := Flush(z).(sum := 0);
    if !h.tooLong {
      var w := x.(sum := sum - x.pendingp);
      assert z == Send(w, Space(gap));
      SendRefinesRuns(w, c, Space(gap));
    }
  }
}
