/** Decoding what was encoded. The central notion is `Sees`: the unread input of a receiver,
    corrected by the pulse or space it has accounted for in advance, is exactly what the signals
    `c` still to be decoded look like on the air. */
module RoundTrip {
  import opened Signals
  import opened Remotes
  import opened RecBuffers

  /** The signals of positive length that the device delivers without interruption, as many as
      there is room for. */
  function Delivered(feed: seq<Event>, room: nat): (c: seq<Sig>)
    ensures |c| <= |feed|
  {
    if room > 0 && feed != [] && feed[0].Mark? && feed[0].sig.len > 0 then
      [feed[0].sig] + Delivered(feed[1..], room - 1)
    else
      []
  }

  /** All that can be read without interruption, the part already in the buffer included. What the
      device does after that is left open. */
  function Whole(t: Tape): (c: seq<Sig>)
    requires Safe(t)
    ensures t.rptr <= |c| && t.buf <= c
  {
    t.buf + Delivered(t.feed, RBUF_SIZE - |t.buf|)
  }

  /** The device falls silent after that. */
  predicate Quiet(t: Tape)
    requires Safe(t)
  {
    |Whole(t)| == |t.buf| + |t.feed|
  }

  function Ahead(t: Tape): seq<Sig>
    requires Safe(t)
  {
    Whole(t)[t.rptr..]
  }

  /** The time read so far together with the time still ahead. */
  function Clock(t: Tape): int
    requires Safe(t)
  {
    t.sum + Total(Ahead(t))
  }

  /** `u` looks at the same input as `t`, perhaps at another place. */
  predicate Same(t: Tape, u: Tape) {
    && Safe(t) && Safe(u)
    && Whole(t) == Whole(u) && Clock(t) == Clock(u) && |t.buf| + |t.feed| == |u.buf| + |u.feed|
  }

  /** `u` is `t` after reading the signal `x`. */
  predicate Reads(t: Tape, x: Sig, u: Tape) {
    && Same(t, u)
    && u.rptr == t.rptr + 1
    && Ahead(t) == [x] + Ahead(u)
    && Whole(t)[t.rptr] == x
  }

  function Owed(s: Rx): seq<Sig> {
    if s.pendingp > 0 then [Pulse(s.pendingp)]
    else if s.pendings > 0 then [Space(s.pendings)]
    else []
  }

  predicate StartsPulse(c: seq<Sig>) {
    c != [] && c[0].Pulse?
  }

  predicate Sees(s: Rx, c: seq<Sig>, tail: seq<Sig>) {
    && Ready(s.tape)
    && (s.pendingp == 0 || s.pendings == 0)
    && !StartsPulse(tail) && (tail == [] ==> Quiet(s.tape))
    && Ahead(s.tape) == Air(Owed(s) + c) + tail
  }

  // ----- runs on the air -----

  lemma AirPulse(p: nat, d: nat, c: seq<Sig>)
    requires !StartsPulse(c)
    ensures Air([Pulse(d)] + c) == [Pulse(d)] + Air(c)
    ensures Air([Pulse(p)] + ([Pulse(d)] + c)) == [Pulse(p + d)] + Air(c)
  {
    assert ([Pulse(d)] + c)[1..] == c;
    var e := [Pulse(p)] + ([Pulse(d)] + c);
    assert e[0] == Pulse(p) && e[1] == Pulse(d) && e[2..] == c;
    assert ([Pulse(p + d)] + c)[1..] == c;
  }

  lemma AirSpace(p: nat, d: nat, c: seq<Sig>)
    requires StartsPulse(c)
    ensures Air([Space(d)] + c) == [Space(d)] + Air(c)
    ensures Air([Space(p)] + ([Space(d)] + c)) == [Space(p + d)] + Air(c)
  {
    assert ([Space(d)] + c)[1..] == c;
    var e := [Space(p)] + ([Space(d)] + c);
    assert e[0] == Space(p) && e[1] == Space(d) && e[2..] == c;
    assert ([Space(p + d)] + c)[1..] == c;
  }

  lemma AirOwedPulse(p: nat, d: nat, c: seq<Sig>)
    requires !StartsPulse(c)
    ensures Air((if p > 0 then [Pulse(p)] else []) + ([Pulse(d)] + c)) == [Pulse(p + d)] + Air(c)
  {
    hide Air;
    AirPulse(p, d, c);
    OwedNothing([Pulse(d)] + c);
  }

  lemma AirOwedSpace(p: nat, d: nat, c: seq<Sig>)
    requires StartsPulse(c)
    ensures Air((if p > 0 then [Space(p)] else []) + ([Space(d)] + c)) == [Space(p + d)] + Air(c)
  {
    hide Air;
    AirSpace(p, d, c);
    OwedNothing([Space(d)] + c);
  }

  lemma OwedNothing(c: seq<Sig>)
    ensures [] + c == c
  {
  }

  lemma SeqAssoc(x: Sig, a: seq<Sig>, b: seq<Sig>)
    ensures [x] + a + b == [x] + (a + b)
  {
  }

  // ----- reading and putting back -----

  lemma WholeAhead(t: Tape, x: Sig, rest: seq<Sig>)
    requires Safe(t) && Ahead(t) == [x] + rest
    ensures t.rptr < |Whole(t)| && Whole(t)[t.rptr] == x && Whole(t)[t.rptr + 1..] == rest
  {
    assert Whole(t)[t.rptr] == Ahead(t)[0];
    assert Whole(t)[t.rptr..][1..] == Whole(t)[t.rptr + 1..];
  }

  lemma TotalOne(x: Sig, rest: seq<Sig>)
    ensures Total([x] + rest) == x.len + Total(rest)
  {
    assert ([x] + rest)[1..] == rest;
  }

  /** The tape after reading the signal that is ahead. */
  lemma NextTape(t: Tape, m: nat, x: Sig)
    requires Safe(t) && t.rptr < |Whole(t)| && Whole(t)[t.rptr] == x
    ensures var y := Next(t, m);
            && y.got == x && Safe(y.tape) && Whole(y.tape) == Whole(t)
            && |y.tape.buf| + |y.tape.feed| == |t.buf| + |t.feed|
            && y.tape.rptr == t.rptr + 1 && y.tape.sum == t.sum + x.len && (Ready(t) ==> Ready(y.tape))
  {
    if t.rptr >= |t.buf| {
      assert Whole(Next(t, m).tape) == Whole(t);
    }
  }

  lemma NextReads(t: Tape, m: nat, x: Sig, rest: seq<Sig>)
    requires Safe(t) && Ahead(t) == [x] + rest
    ensures var y := Next(t, m);
            y.got == x && Reads(t, x, y.tape) && Ahead(y.tape) == rest
    ensures Ready(t) ==> Ready(Next(t, m).tape)
  {
    hide Total;
    var w, y := Whole(t), Next(t, m);
    WholeAhead(t, x, rest);
    NextTape(t, m, x);
    assert w[t.rptr..][1..] == w[t.rptr + 1..];
    assert Total([x] + rest) == x.len + Total(rest) by { TotalOne(x, rest); }
  }

  lemma NextNothing(t: Tape, m: nat)
    requires Safe(t) && Ahead(t) == [] && Quiet(t)
    ensures var y := Next(t, m);
            y.got == NOTHING && Same(t, y.tape) && y.tape.rptr == t.rptr
  {
  }

  lemma BackReads(t: Tape, x: Sig, u: Tape)
    requires Reads(t, x, u)
    ensures Same(t, Back(u, 1)) && Back(u, 1).rptr == t.rptr && Ahead(Back(u, 1)) == Ahead(t)
  {
    var w := Whole(u);
    assert w[t.rptr..][1..] == w[u.rptr..];
    assert Whole(Back(u, 1)) == w;
  }

  lemma BackAgain(v: Tape)
    requires Safe(v) && v.rptr >= 2
    ensures Back(v, 2) == Back(Back(v, 1), 1)
  {
  }

  lemma BackTwice(t: Tape, x: Sig, u: Tape, y: Sig, v: Tape)
    requires Reads(t, x, u) && Reads(u, y, v)
    ensures Same(t, Back(v, 2)) && Back(v, 2).rptr == t.rptr && Ahead(Back(v, 2)) == Ahead(t)
  {
    hide Delivered, Total;
    BackReads(u, y, v);
    BackReads(t, x, u);
    BackAgain(v);
  }

  // ----- one pulse or space at a time -----

  /** A space owed is found where it is followed by a pulse. */
  lemma SyncSpaceExact(s: Rx, r: Remote, c: seq<Sig>, tail: seq<Sig>)
    requires Sees(s, c, tail) && s.pendings > 0 && StartsPulse(c)
    ensures var x := SyncSpace(s, r);
            x.ok && Reads(s.tape, Space(s.pendings), x.s.tape) && Sees(x.s, c, tail) && Owed(x.s) == []
  {
    AirSpace(0, s.pendings, c);
    var rest := Air(c) + tail;
    assert Ahead(s.tape) == [Space(s.pendings)] + rest;
    NextReads(s.tape, s.pendings, Space(s.pendings), rest);
    ExpectExact(r, s.pendings);
    OwedNothing(c);
  }

  lemma SyncPulseExact(s: Rx, r: Remote, c: seq<Sig>, tail: seq<Sig>)
    requires Sees(s, c, tail) && s.pendingp > 0 && !StartsPulse(c)
    ensures var x := SyncPulse(s, r);
            x.ok && Reads(s.tape, Pulse(s.pendingp), x.s.tape) && Sees(x.s, c, tail) && Owed(x.s) == []
  {
    AirPulse(0, s.pendingp, c);
    var rest := Air(c) + tail;
    assert Ahead(s.tape) == [Pulse(s.pendingp)] + rest;
    NextReads(s.tape, s.pendingp, Pulse(s.pendingp), rest);
    ExpectExact(r, s.pendingp);
    OwedNothing(c);
  }

  /** The expectation functions, when what is read is known. */
  lemma ExpectPulseReading(s: Rx, r: Remote, ex: nat, n: nat, u: Tape)
    requires Safe(s.tape) && s.pendings == 0 && n > 0
    requires Next(s.tape, s.pendingp + ex) == Read(u, Pulse(s.pendingp + n))
    ensures ExpectPulse(s, r, ex) ==
            if r.Expect(n, ex) then Step(Rx(u, 0, 0), true) else Step(Rx(u, s.pendingp, 0), false)
  {
  }

  lemma ExpectSpaceReading(s: Rx, r: Remote, ex: nat, n: nat, u: Tape)
    requires Safe(s.tape) && s.pendingp == 0 && n > 0
    requires Next(s.tape, s.pendings + ex) == Read(u, Space(s.pendings + n))
    ensures ExpectSpace(s, r, ex) ==
            if r.Expect(n, ex) then Step(Rx(u, 0, 0), true) else Step(Rx(u, 0, s.pendings), false)
  {
  }

  lemma PulseIsAhead(s: Rx, d: nat, c: seq<Sig>, tail: seq<Sig>)
    requires Sees(s, [Pulse(d)] + c, tail) && !StartsPulse(c) && s.pendings == 0
    ensures Ahead(s.tape) == [Pulse(s.pendingp + d)] + (Air(c) + tail)
  {
    hide Air, Whole, StartsPulse;
    AirOwedPulse(s.pendingp, d, c);
    SeqAssoc(Pulse(s.pendingp + d), Air(c), tail);
  }

  lemma SpaceIsAhead(s: Rx, d: nat, c: seq<Sig>, tail: seq<Sig>)
    requires Sees(s, [Space(d)] + c, tail) && StartsPulse(c) && s.pendingp == 0
    ensures Ahead(s.tape) == [Space(s.pendings + d)] + (Air(c) + tail)
  {
    hide Air, Whole, StartsPulse;
    AirOwedSpace(s.pendings, d, c);
    SeqAssoc(Space(s.pendings + d), Air(c), tail);
  }

  lemma PulseTryNow(s: Rx, r: Remote, ex: nat, d: nat, c: seq<Sig>, tail: seq<Sig>)
    requires Sees(s, [Pulse(d)] + c, tail) && !StartsPulse(c) && s.pendings == 0 && d > 0
    ensures var x := ExpectPulse(s, r, ex);
            && x.ok == r.Expect(d, ex)
            && Reads(s.tape, Pulse(s.pendingp + d), x.s.tape) && Ready(x.s.tape)
            && (x.ok ==> Sees(x.s, c, tail) && Owed(x.s) == [])
            && (!x.ok ==> x.s.pendingp == s.pendingp && x.s.pendings == 0)
  {
    hide Air, Delivered, Next, Total, ExpectPulse, Remote.Expect;
    PulseIsAhead(s, d, c, tail);
    var rest := Air(c) + tail;
    NextReads(s.tape, s.pendingp + ex, Pulse(s.pendingp + d), rest);
    ExpectPulseReading(s, r, ex, d, Next(s.tape, s.pendingp + ex).tape);
    OwedNothing(c);
  }

  lemma SpaceTryNow(s: Rx, r: Remote, ex: nat, d: nat, c: seq<Sig>, tail: seq<Sig>)
    requires Sees(s, [Space(d)] + c, tail) && StartsPulse(c) && s.pendingp == 0 && d > 0
    ensures var x := ExpectSpace(s, r, ex);
            && x.ok == r.Expect(d, ex)
            && Reads(s.tape, Space(s.pendings + d), x.s.tape) && Ready(x.s.tape)
            && (x.ok ==> Sees(x.s, c, tail) && Owed(x.s) == [])
            && (!x.ok ==> x.s.pendings == s.pendings && x.s.pendingp == 0)
  {
    hide Air, Delivered, Next, Total, ExpectSpace, Remote.Expect;
    SpaceIsAhead(s, d, c, tail);
    var rest := Air(c) + tail;
    NextReads(s.tape, s.pendings + ex, Space(s.pendings + d), rest);
    ExpectSpaceReading(s, r, ex, d, Next(s.tape, s.pendings + ex).tape);
    OwedNothing(c);
  }

  /** Putting back one signal takes the receiver `x` to where it sees `c`, as `s` does. */
  predicate Retry(s: Rx, x: Rx, c: seq<Sig>, tail: seq<Sig>) {
    && Safe(s.tape) && Safe(x.tape) && x.tape.rptr >= 1
    && Sees(Unget(x, 1), c, tail)
    && Same(s.tape, Unget(x, 1).tape)
  }

  lemma Restored(s: Rx, t: Rx, c: seq<Sig>, tail: seq<Sig>, x: Sig, u: Rx)
    requires Same(s.tape, t.tape) && Sees(t, c, tail) && Reads(t.tape, x, u.tape) && Ready(u.tape)
    requires u.pendingp == t.pendingp && u.pendings == t.pendings
    ensures Retry(s, u, c, tail)
    ensures Unget(u, 1).tape.rptr == t.tape.rptr
  {
    BackReads(t.tape, x, u.tape);
  }

  lemma ExpectAfterSync(s: Rx, r: Remote, ex: nat)
    requires Safe(s.tape)
    ensures SyncSpace(s, r).ok ==> ExpectPulse(s, r, ex) == ExpectPulse(SyncSpace(s, r).s, r, ex)
    ensures SyncPulse(s, r).ok ==> ExpectSpace(s, r, ex) == ExpectSpace(SyncPulse(s, r).s, r, ex)
  {
  }

  /** A pulse of length `d` comes next: it is accepted just when it matches, and otherwise putting
      one signal back leaves it to be tried again. */
  lemma PulseTry(s: Rx, r: Remote, ex: nat, d: nat, c: seq<Sig>, tail: seq<Sig>)
    requires Sees(s, [Pulse(d)] + c, tail) && !StartsPulse(c) && d > 0
    ensures var x := ExpectPulse(s, r, ex);
            && x.ok == r.Expect(d, ex)
            && Same(s.tape, x.s.tape) && x.s.tape.rptr >= 1 && Ready(x.s.tape)
            && (x.ok ==> Sees(x.s, c, tail) && Owed(x.s) == [])
            && (!x.ok ==> Retry(s, x.s, [Pulse(d)] + c, tail) && x.s.pendingp == s.pendingp && x.s.pendings == 0)
  {
    var t := s;
    if s.pendings > 0 {
      SyncSpaceExact(s, r, [Pulse(d)] + c, tail);
      t := SyncSpace(s, r).s;
      ExpectAfterSync(s, r, ex);
    }
    PulseTryNow(t, r, ex, d, c, tail);
    var x := ExpectPulse(t, r, ex);
    if !x.ok { Restored(s, t, [Pulse(d)] + c, tail, Pulse(t.pendingp + d), x.s); }
  }

  lemma SpaceTry(s: Rx, r: Remote, ex: nat, d: nat, c: seq<Sig>, tail: seq<Sig>)
    requires Sees(s, [Space(d)] + c, tail) && StartsPulse(c) && d > 0
    ensures var x := ExpectSpace(s, r, ex);
            && x.ok == r.Expect(d, ex)
            && Same(s.tape, x.s.tape) && x.s.tape.rptr >= 1 && Ready(x.s.tape)
            && (x.ok ==> Sees(x.s, c, tail) && Owed(x.s) == [])
            && (!x.ok ==> Retry(s, x.s, [Space(d)] + c, tail) && x.s.pendings == s.pendings && x.s.pendingp == 0)
  {
    var t := s;
    if s.pendingp > 0 {
      SyncPulseExact(s, r, [Space(d)] + c, tail);
      t := SyncPulse(s, r).s;
      ExpectAfterSync(s, r, ex);
    }
    SpaceTryNow(t, r, ex, d, c, tail);
    var x := ExpectSpace(t, r, ex);
    if !x.ok { Restored(s, t, [Space(d)] + c, tail, Space(t.pendings + d), x.s); }
  }

  /** A pulse comes next although a space is asked for: this is noticed, unless the tolerance
      takes the whole pulse for the one owed, or nothing at all for the space. */
  lemma SpaceRefused(s: Rx, r: Remote, ex: nat, d: nat, c: seq<Sig>, tail: seq<Sig>)
    requires Sees(s, [Pulse(d)] + c, tail) && !StartsPulse(c) && d > 0
    requires s.pendingp > 0 ==> !r.Expect(s.pendingp + d, s.pendingp)
    requires s.pendings > 0 ==> !r.Expect(0, ex)
    ensures var x := ExpectSpace(s, r, ex);
            && !x.ok && Retry(s, x.s, [Pulse(d)] + c, tail)
            && x.s.pendingp == s.pendingp && x.s.pendings == s.pendings
  {
    var pc := [Pulse(d)] + c;
    var x, rest := Pulse(s.pendingp + d), Air(c) + tail;
    if s.pendings > 0 {
      AirSpace(0, s.pendings, pc);
      x, rest := Space(s.pendings), Air(pc) + tail;
    } else {
      PulseIsAhead(s, d, c, tail);
    }
    assert Ahead(s.tape) == [x] + rest;
    var m := if s.pendingp > 0 then s.pendingp else s.pendings + ex;
    NextReads(s.tape, m, x, rest);
    var u := Next(s.tape, m).tape;
    SpaceRefusedReading(s, r, ex, d, u);
    Restored(s, s, pc, tail, x, Rx(u, s.pendingp, s.pendings));
  }

  lemma SpaceRefusedReading(s: Rx, r: Remote, ex: nat, d: nat, u: Tape)
    requires Safe(s.tape) && (s.pendingp == 0 || s.pendings == 0)
    requires s.pendingp > 0 ==>
               !r.Expect(s.pendingp + d, s.pendingp) && Next(s.tape, s.pendingp) == Read(u, Pulse(s.pendingp + d))
    requires s.pendings > 0 ==>
               !r.Expect(0, ex) && Next(s.tape, s.pendings + ex) == Read(u, Space(s.pendings))
    requires Owed(s) == [] ==> Next(s.tape, ex) == Read(u, Pulse(d))
    ensures ExpectSpace(s, r, ex) == Step(Rx(u, s.pendingp, s.pendings), false)
  {
  }
}
