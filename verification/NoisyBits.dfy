/** Bits received through noise: durations are off by as much as the tolerance allows, and are
    decoded all the same if the timings are far enough apart. */
module NoisyBits {
  import opened Words
  import opened Signals
  import opened Remotes
  import opened Transmit
  import opened RecBuffers
  import opened Receive
  import opened RoundTrip
  import opened BitRoundTrip
  import opened Tolerance

  // ----- what a receiver hears -----

  /** The receiver with what it owes as it really is on the air: a pulse or space owed that ends
      before `a` may be off. */
  function Actual(s: Rx, a: seq<Sig>): Rx
    requires Safe(s.tape)
  {
    if Ahead(s.tape) == [] then s
    else if s.pendingp > 0 && !StartsPulse(a) then s.(pendingp := Ahead(s.tape)[0].len)
    else if s.pendings > 0 && StartsPulse(a) then s.(pendings := Ahead(s.tape)[0].len)
    else s
  }

  /** The unread input is `a` after what is owed, which is off by no more than its tolerance. */
  predicate Hears(s: Rx, r: Remote, a: seq<Sig>, tail: seq<Sig>) {
    && Ready(s.tape) && (s.pendingp == 0 || s.pendings == 0)
    && var o := Actual(s, a);
       && Sees(o, a, tail)
       && (s.pendingp > 0 ==> o.pendingp > 0 && Near(r, o.pendingp, s.pendingp))
       && (s.pendings > 0 ==> o.pendings > 0 && Near(r, o.pendings, s.pendings))
  }

  lemma NearItself(r: Remote, d: nat)
    ensures Near(r, d, d)
  {
  }

  /** With nothing owed, what is heard is what is seen. */
  lemma HearsPlainly(s: Rx, r: Remote, a: seq<Sig>, tail: seq<Sig>)
    requires Ready(s.tape) && Owed(s) == [] && s.pendingp == 0 && s.pendings == 0
    ensures Hears(s, r, a, tail) <==> Sees(s, a, tail)
  {
  }

  lemma HearsIsReady(s: Rx, r: Remote, a: seq<Sig>, tail: seq<Sig>)
    requires Hears(s, r, a, tail)
    ensures Ready(s.tape) && (s.pendingp == 0 || s.pendings == 0)
  {
  }

  /** So it is where what is owed goes on. */
  lemma HearsOn(s: Rx, r: Remote, a: seq<Sig>, tail: seq<Sig>)
    requires Hears(s, r, a, tail) && a != []
    requires if a[0].Pulse? then s.pendings == 0 else s.pendingp == 0
    ensures Sees(s, a, tail)
  {
  }

  /** The first signal that is heard is the whole of what is owed. */
  lemma OweHeardPulse(s: Rx, r: Remote, ex: nat, d: nat, a: seq<Sig>, tail: seq<Sig>)
    requires Sees(s, [Pulse(d)] + a, tail) && Owed(s) == [] && ex > 0 && d > 0
    requires if StartsPulse(a) then d == ex else Near(r, d, ex)
    ensures Hears(s.(pendingp := ex), r, a, tail)
  {
    hide Air, Whole;
    OwePulse(s, d, a, tail);
    NearItself(r, d);
    if !StartsPulse(a) {
      AirPulse(0, d, a);
      OwedNothing([Pulse(d)] + a);
      assert Ahead(s.tape)[0] == Pulse(d);
      assert Actual(s.(pendingp := ex), a) == s.(pendingp := d);
    }
  }

  lemma SpaceAtEnd(d: nat)
    ensures Air([Space(d)]) == [] && [Space(d)] + [] == [Space(d)] && [] + [Space(d)] == [Space(d)]
  {
  }

  lemma OweHeardSpace(s: Rx, r: Remote, ex: nat, d: nat, a: seq<Sig>, tail: seq<Sig>)
    requires Sees(s, [Space(d)] + a, tail) && Owed(s) == [] && ex > 0 && d > 0
    requires if StartsPulse(a) then Near(r, d, ex) else a == [] || d == ex
    ensures Hears(s.(pendings := ex), r, a, tail)
  {
    hide Air, Whole;
    OweSpace(s, d, a, tail);
    NearItself(r, ex);
    if a == [] {
      SpaceAtEnd(d);
      SpaceAtEnd(ex);
      return;
    }
    NearItself(r, d);
    if StartsPulse(a) {
      AirSpace(0, d, a);
      OwedNothing([Space(d)] + a);
      assert Ahead(s.tape)[0] == Space(d);
      assert Actual(s.(pendings := ex), a) == s.(pendings := d);
    }
  }

  // ----- one pulse or space at a time -----

  /** A step that was refused left the input as it was: putting back one signal, `a` is heard again. */
  predicate HeardAgain(s: Rx, r: Remote, x: Rx, a: seq<Sig>, tail: seq<Sig>) {
    && Safe(x.tape) && x.tape.rptr >= 1 && Safe(s.tape)
    && Hears(Unget(x, 1), r, a, tail) && Same(s.tape, Unget(x, 1).tape)
  }

  lemma NextIsSame(t: Tape, m: nat, n: nat)
    requires Safe(t) && t.rptr < |Whole(t)|
    ensures Next(t, m) == Next(t, n)
  {
  }

  /** A space owed, off as it may be, is read as the exact one would be. */
  lemma SpaceSynced(s: Rx, r: Remote, a: seq<Sig>, tail: seq<Sig>)
    requires Hears(s, r, a, tail) && s.pendings > 0 && StartsPulse(a)
    ensures SyncSpace(s, r).ok && SyncSpace(s, r) == SyncSpace(Actual(s, a), r)
    ensures var x := SyncSpace(s, r);
            Same(s.tape, x.s.tape) && Sees(x.s, a, tail) && Owed(x.s) == [] && x.s.pendingp == 0
  {
    hide Air, Whole, Next, Clock;
    var o := Actual(s, a);
    SyncSpaceExact(o, r, a, tail);
    SpaceOnAir(o, a, tail);
    NextReads(s.tape, s.pendings, Space(o.pendings), Air(a) + tail);
    NextReads(s.tape, o.pendings, Space(o.pendings), Air(a) + tail);
    NextIsSame(s.tape, s.pendings, o.pendings);
    ExpectIsNear(r, o.pendings, s.pendings);
    ExpectExact(r, o.pendings);
  }

  lemma SpaceOnAir(s: Rx, a: seq<Sig>, tail: seq<Sig>)
    requires Sees(s, a, tail) && s.pendings > 0 && StartsPulse(a)
    ensures Ahead(s.tape) == [Space(s.pendings)] + (Air(a) + tail)
    ensures s.tape.rptr < |Whole(s.tape)|
  {
    hide Air, Whole;
    AirSpace(0, s.pendings, a);
  }

  lemma PulseSynced(s: Rx, r: Remote, a: seq<Sig>, tail: seq<Sig>)
    requires Hears(s, r, a, tail) && s.pendingp > 0 && !StartsPulse(a)
    ensures SyncPulse(s, r).ok && SyncPulse(s, r) == SyncPulse(Actual(s, a), r)
    ensures var x := SyncPulse(s, r);
            Same(s.tape, x.s.tape) && Sees(x.s, a, tail) && Owed(x.s) == [] && x.s.pendings == 0
  {
    hide Air, Whole, Next, Clock;
    var o := Actual(s, a);
    SyncPulseExact(o, r, a, tail);
    PulseOnAir(o, a, tail);
    NextReads(s.tape, s.pendingp, Pulse(o.pendingp), Air(a) + tail);
    NextReads(s.tape, o.pendingp, Pulse(o.pendingp), Air(a) + tail);
    NextIsSame(s.tape, s.pendingp, o.pendingp);
    ExpectIsNear(r, o.pendingp, s.pendingp);
    ExpectExact(r, o.pendingp);
  }

  lemma PulseOnAir(s: Rx, a: seq<Sig>, tail: seq<Sig>)
    requires Sees(s, a, tail) && s.pendingp > 0 && !StartsPulse(a)
    ensures Ahead(s.tape) == [Pulse(s.pendingp)] + (Air(a) + tail)
    ensures s.tape.rptr < |Whole(s.tape)|
  {
    hide Air, Whole;
    AirPulse(0, s.pendingp, a);
  }

  /** A pulse is accepted just when it is near what is expected. */
  lemma PulseHeard(s: Rx, r: Remote, ex: nat, d: nat, a: seq<Sig>, tail: seq<Sig>)
    requires Hears(s, r, [Pulse(d)] + a, tail) && !StartsPulse(a) && d > 0
    ensures var x := ExpectPulse(s, r, ex);
            && x.ok == Near(r, d, ex)
            && Same(s.tape, x.s.tape) && x.s.tape.rptr >= 1 && Ready(x.s.tape)
            && (x.ok ==> Sees(x.s, a, tail) && Owed(x.s) == [] && x.s.pendingp == 0 && x.s.pendings == 0)
            && (!x.ok ==> HeardAgain(s, r, x.s, [Pulse(d)] + a, tail)
                          && x.s.pendingp == s.pendingp && x.s.pendings == 0)
  {
    hide Air, Whole, Next, Clock, ExpectPulse, Near;
    ExpectIsNear(r, d, ex);
    var o := Actual(s, [Pulse(d)] + a);
    PulseTry(o, r, ex, d, a, tail);
    if s.pendings > 0 {
      SpaceSynced(s, r, [Pulse(d)] + a, tail);
      ExpectAfterSync(s, r, ex);
      ExpectAfterSync(o, r, ex);
    }
    var x := ExpectPulse(s, r, ex);
    if !x.ok { AgainFromRetry(o, r, x.s, [Pulse(d)] + a, tail); }
  }

  lemma AgainFromRetry(s: Rx, r: Remote, x: Rx, a: seq<Sig>, tail: seq<Sig>)
    requires Retry(s, x, a, tail) && a != []
    requires if a[0].Pulse? then x.pendings == 0 else x.pendingp == 0
    ensures HeardAgain(s, r, x, a, tail)
  {
    NearItself(r, x.pendingp);
    NearItself(r, x.pendings);
  }

  lemma SpaceHeard(s: Rx, r: Remote, ex: nat, d: nat, a: seq<Sig>, tail: seq<Sig>)
    requires Hears(s, r, [Space(d)] + a, tail) && StartsPulse(a) && d > 0
    ensures var x := ExpectSpace(s, r, ex);
            && x.ok == Near(r, d, ex)
            && Same(s.tape, x.s.tape) && x.s.tape.rptr >= 1 && Ready(x.s.tape)
            && (x.ok ==> Sees(x.s, a, tail) && Owed(x.s) == [] && x.s.pendingp == 0 && x.s.pendings == 0)
            && (!x.ok ==> HeardAgain(s, r, x.s, [Space(d)] + a, tail)
                          && x.s.pendings == s.pendings && x.s.pendingp == 0)
  {
    hide Air, Whole, Next, Clock, ExpectSpace, Near;
    ExpectIsNear(r, d, ex);
    var o := Actual(s, [Space(d)] + a);
    SpaceTry(o, r, ex, d, a, tail);
    if s.pendingp > 0 {
      PulseSynced(s, r, [Space(d)] + a, tail);
      ExpectAfterSync(s, r, ex);
      ExpectAfterSync(o, r, ex);
    }
    var x := ExpectSpace(s, r, ex);
    if !x.ok { AgainFromRetry(o, r, x.s, [Space(d)] + a, tail); }
  }

  /** A pulse comes next although a space is asked for: this is noticed, unless the pulse can hide in
      the tolerance of the one owed, or the space in that of the one owed. */
  lemma SpaceNotHeard(s: Rx, r: Remote, ex: nat, d: nat, a: seq<Sig>, tail: seq<Sig>)
    requires Hears(s, r, [Pulse(d)] + a, tail) && !StartsPulse(a) && d > 0
    requires s.pendingp > 0 ==> !Near(r, s.pendingp + d, s.pendingp)
    requires s.pendings > 0 ==> Slack(r, s.pendings) + Slack(r, ex) < ex
    ensures var x := ExpectSpace(s, r, ex);
            && !x.ok && HeardAgain(s, r, x.s, [Pulse(d)] + a, tail)
            && x.s.pendingp == s.pendingp && x.s.pendings == s.pendings
  {
    hide Air, Whole, Next, Clock, ExpectSpace, Near, Slack;
    var pa := [Pulse(d)] + a;
    if s.pendings == 0 {
      ExpectIsNear(r, s.pendingp + d, s.pendingp);
      HearsOn(s, r, pa, tail);
      SpaceRefused(s, r, ex, d, a, tail);
      AgainFromRetry(s, r, ExpectSpace(s, r, ex).s, pa, tail);
    } else {
      var q := Actual(s, pa).pendings;
      SpaceOnAir(Actual(s, pa), pa, tail);
      NextReads(s.tape, s.pendings + ex, Space(q), Air(pa) + tail);
      if q >= s.pendings { ExcessRefused(r, q, s.pendings, ex); }
      var u := Next(s.tape, s.pendings + ex).tape;
      SpaceReading(s, r, ex, q, u);
      BackReads(s.tape, Space(q), u);
    }
  }

  lemma ExcessRefused(r: Remote, q: nat, p: nat, ex: nat)
    requires Near(r, q, p) && Slack(r, p) + Slack(r, ex) < ex && q >= p
    ensures !r.Expect(q - p, ex)
  {
    hide Slack, Near, Remote.Expect;
    NearIsSlack(r, q, p);
    NearIsSlack(r, q - p, ex);
    ExpectIsNear(r, q - p, ex);
  }

  lemma SpaceReading(s: Rx, r: Remote, ex: nat, q: nat, u: Tape)
    requires Safe(s.tape) && s.pendingp == 0 && s.pendings > 0 && q > 0
    requires Next(s.tape, s.pendings + ex) == Read(u, Space(q))
    requires q >= s.pendings ==> !r.Expect(q - s.pendings, ex)
    ensures ExpectSpace(s, r, ex) == Step(Rx(u, 0, s.pendings), false)
  {
  }

  // ----- bits that begin with their pulse -----

  /** Where a pulse comes next, a space owed is read first. */
  lemma PulseSettled(s: Rx, r: Remote, ep: nat, a: seq<Sig>, tail: seq<Sig>) returns (t: Rx)
    requires Hears(s, r, a, tail) && StartsPulse(a) && s.pendingp == 0
    ensures Same(s.tape, t.tape) && Sees(t, a, tail) && t.pendingp == 0 && t.pendings == 0
    ensures ExpectPulse(s, r, ep) == ExpectPulse(t, r, ep)
  {
    hide Air, Whole, Next, Clock, ExpectPulse, Near;
    t := s;
    if s.pendings > 0 {
      SpaceSynced(s, r, a, tail);
      ExpectAfterSync(s, r, ep);
      t := SyncSpace(s, r).s;
    }
  }

  lemma PairSeen(s: Rx, r: Remote, ep: nat, es: nat, p: nat, q: nat, a: seq<Sig>, tail: seq<Sig>)
    requires Sees(s, [Pulse(p)] + ([Space(q)] + a), tail) && s.pendingp == 0 && s.pendings == 0
    requires StartsPulse(a) && p > 0 && q > 0 && Near(r, p, ep)
    ensures var e, x := [Pulse(p)] + ([Space(q)] + a), ExpectPulse(s, r, ep);
            var y := ExpectSpace(x.s, r, es);
            && x.ok && y.ok == Near(r, q, es) && Ready(y.s.tape) && y.s.tape.rptr >= 2
            && y.s.pendingp == 0 && y.s.pendings == 0
            && (y.ok ==> Sees(y.s, a, tail) && Same(s.tape, y.s.tape))
            && (!y.ok ==> Hears(Unget(y.s, 2), r, e, tail) && Same(s.tape, Unget(y.s, 2).tape))
  {
    hide Air, Whole, Next, Clock, ExpectPulse, ExpectSpace, Near;
    ExpectIsNear(r, p, ep);
    ExpectIsNear(r, q, es);
    PulseTryNow(s, r, ep, p, [Space(q)] + a, tail);
    var x := ExpectPulse(s, r, ep);
    SpaceTryNow(x.s, r, es, q, a, tail);
    var y := ExpectSpace(x.s, r, es);
    BackTwice(s.tape, Pulse(p), x.s.tape, Space(q), y.s.tape);
  }

  /** A bit that begins with its pulse, as it is tried: pulse and space are checked, or the space is
      left owing where no trail pulse bounds it. */
  function Attempt(s: Rx, r: Remote, ep: nat, es: nat): (x: Step)
    requires Ready(s.tape)
    ensures Ready(x.s.tape)
  {
    var x := ExpectPulse(s, r, ep);
    if !x.ok then Step(Unget(x.s, 1), false)
    else if r.ptrail == 0 then Step(x.s.(pendings := es), true)
    else
      var y := ExpectSpace(x.s, r, es);
      if !y.ok then Step(Unget(y.s, 2), false) else y
  }

  lemma BitsAreAttempts(s: Rx, r: Remote, k: nat)
    requires !r.IsBiphase() && Timed(r) && BitsDecodable(r) && Ready(s.tape)
    ensures ExpectOne(s, r, k) == Attempt(s, r, r.pone, r.sone)
    ensures ExpectZero(s, r, k) == Attempt(s, r, r.pzero, r.szero)
  {
    hide ExpectPulse, ExpectSpace;
  }

  /** The attempt succeeds just when what is checked is near. */
  predicate AttemptFits(r: Remote, ep: nat, es: nat, p: nat, q: nat) {
    Near(r, p, ep) && (r.ptrail > 0 ==> Near(r, q, es))
  }

  lemma AttemptHeard(s: Rx, r: Remote, ep: nat, es: nat, p: nat, q: nat, a: seq<Sig>, tail: seq<Sig>)
    requires var e := [Pulse(p)] + ([Space(q)] + a);
             Hears(s, r, e, tail)
    requires p > 0 && q > 0 && es > 0 && (r.ptrail > 0 ==> StartsPulse(a))
    ensures var e, x := [Pulse(p)] + ([Space(q)] + a), Attempt(s, r, ep, es);
            && x.ok == AttemptFits(r, ep, es, p, q)
            && (x.ok && (r.ptrail == 0 && a != [] ==> if StartsPulse(a) then Near(r, q, es) else q == es) ==>
                  Hears(x.s, r, a, tail) && Same(s.tape, x.s.tape) && x.s.pendingp == 0
                  && (x.s.pendings == 0 || x.s.pendings == es))
            && (!x.ok && (s.pendingp == 0 || !Near(r, p, ep)) ==>
                  Hears(x.s, r, e, tail) && Same(s.tape, x.s.tape) && x.s.pendings == 0 && x.s.pendingp == s.pendingp)
  {
    hide Air, Whole, Next, Clock, ExpectPulse, ExpectSpace, Near, Hears, Sees;
    var e := [Pulse(p)] + ([Space(q)] + a);
    PulseHeard(s, r, ep, p, [Space(q)] + a, tail);
    var x := ExpectPulse(s, r, ep);
    if x.ok {
      if r.ptrail == 0 {
        if a == [] || (if StartsPulse(a) then Near(r, q, es) else q == es) { OweHeardSpace(x.s, r, es, q, a, tail); }
      } else {
        HearsPlainly(x.s, r, [Space(q)] + a, tail);
        SpaceHeard(x.s, r, es, q, a, tail);
        var y := ExpectSpace(x.s, r, es);
        if y.ok {
          HearsPlainly(y.s, r, a, tail);
        } else if s.pendingp == 0 {
          var t := PulseSettled(s, r, ep, e, tail);
          PairSeen(t, r, ep, es, p, q, a, tail);
        }
      }
    }
  }

  // ----- bits that begin with a space, or with a pulse -----

  /** A one of a biphase remote is taken just when its space is near; its pulse is left owing. */
  lemma BiphaseOneHeard(s: Rx, r: Remote, k: nat, d: nat, p: nat, a: seq<Sig>, tail: seq<Sig>)
    requires var e := [Space(d)] + ([Pulse(p)] + a);
             Hears(s, r, e, tail)
    requires r.IsBiphase() && Timed(r) && BitsDecodable(r) && d > 0 && p > 0
    ensures var x, ep := ExpectOne(s, r, k), r.Stretch(k, r.pone);
            && x.ok == Near(r, d, r.Stretch(k, r.sone))
            && (x.ok && (if StartsPulse(a) then p == ep else Near(r, p, ep)) ==>
                  && Hears(x.s, r, a, tail) && Same(s.tape, x.s.tape)
                  && x.s.pendingp == ep && x.s.pendings == 0)
  {
    hide Air, Whole, Next, Clock, ExpectSpace, Near, Hears, Sees, Remote.Stretch;
    StretchCases(r, k, r.pone);
    StretchCases(r, k, r.sone);
    SpaceHeard(s, r, r.Stretch(k, r.sone), d, [Pulse(p)] + a, tail);
    var x := ExpectSpace(s, r, r.Stretch(k, r.sone));
    if x.ok && (if StartsPulse(a) then p == r.Stretch(k, r.pone) else Near(r, p, r.Stretch(k, r.pone))) {
      OweHeardPulse(x.s, r, r.Stretch(k, r.pone), p, a, tail);
    }
  }

  /** A zero is not taken for a one if nothing hides it, and then just when its pulse is near. */
  lemma BiphaseZeroHeard(s: Rx, r: Remote, k: nat, p: nat, d: nat, a: seq<Sig>, tail: seq<Sig>)
    requires var e := [Pulse(p)] + ([Space(d)] + a);
             Hears(s, r, e, tail)
    requires r.IsBiphase() && Timed(r) && BitsDecodable(r) && d > 0 && p > 0
    requires s.pendingp > 0 ==> !Near(r, s.pendingp + p, s.pendingp)
    requires var ex := r.Stretch(k, r.sone);
             s.pendings > 0 ==> Slack(r, s.pendings) + Slack(r, ex) < ex
    ensures var one, es := ExpectOne(s, r, k), r.Stretch(k, r.szero);
            var x := ExpectZero(one.s, r, k);
            && !one.ok && x.ok == Near(r, p, r.Stretch(k, r.pzero))
            && (x.ok && (a == [] || if StartsPulse(a) then Near(r, d, es) else d == es) ==>
                  && Hears(x.s, r, a, tail) && Same(s.tape, x.s.tape)
                  && x.s.pendingp == 0 && x.s.pendings == es)
  {
    hide Air, Whole, Next, Clock, ExpectSpace, ExpectPulse, Near, Slack, Hears, Sees, Remote.Stretch;
    StretchCases(r, k, r.pzero);
    StretchCases(r, k, r.szero);
    StretchCases(r, k, r.sone);
    HearsIsReady(s, r, [Pulse(p)] + ([Space(d)] + a), tail);
    SpaceNotHeard(s, r, r.Stretch(k, r.sone), p, [Space(d)] + a, tail);
    var u, es := ExpectOne(s, r, k).s, r.Stretch(k, r.szero);
    PulseHeard(u, r, r.Stretch(k, r.pzero), p, [Space(d)] + a, tail);
    var x := ExpectPulse(u, r, r.Stretch(k, r.pzero));
    if x.ok && (a == [] || if StartsPulse(a) then Near(r, d, es) else d == es) {
      OweHeardSpace(x.s, r, es, d, a, tail);
    }
  }

  // ----- timings that noise cannot confuse -----

  /** The pulse of a zero is more than the tolerance for itself and for a pulse `p` owed before it. */
  predicate NoZeroHides(r: Remote, p: nat) {
    p > 0 ==>
      && r.pzero > Slack(r, r.pzero) + Slack(r, p)
      && (r.rc6Mask != ZERO ==> 2 * r.pzero > Slack(r, 2 * r.pzero) + Slack(r, p))
  }

  /** The space of a one is more than the tolerance for itself and for a space `q` owed before it. */
  predicate NoOneHides(r: Remote, q: nat) {
    q > 0 ==>
      && r.sone > Slack(r, r.sone) + Slack(r, q)
      && (r.rc6Mask != ZERO ==> 2 * r.sone > Slack(r, 2 * r.sone) + Slack(r, q))
  }

  /** What may be owed where a bit begins. */
  predicate OwesSpace(r: Remote, q: nat) {
    || q == 0 || !r.IsBiphase() || q == r.szero || (r.rc6Mask != ZERO && q == 2 * r.szero)
    || q == r.shead || q == r.preS || q == r.postS
  }

  /** No bit can be taken for another although each duration is off by its tolerance. */
  predicate Robust(r: Remote) {
    if r.IsBiphase() then
      && NoZeroHides(r, r.plead) && NoZeroHides(r, r.pone) && (r.rc6Mask != ZERO ==> NoZeroHides(r, 2 * r.pone))
      && NoOneHides(r, r.szero) && (r.rc6Mask != ZERO ==> NoOneHides(r, 2 * r.szero))
      && NoOneHides(r, r.shead) && NoOneHides(r, r.preS) && NoOneHides(r, r.postS)
    else
      Clear(r, r.pzero, r.pone) || (r.ptrail > 0 && r.plead == 0 && Clear(r, r.szero, r.sone))
  }

  lemma NoZeroHidden(r: Remote, k: nat, p: nat, owed: nat)
    requires r.IsBiphase() && Robust(r) && owed > 0
    requires owed == r.plead || owed == r.pone || (r.rc6Mask != ZERO && owed == 2 * r.pone)
    requires Near(r, p, r.Stretch(k, r.pzero))
    ensures !Near(r, owed + p, owed)
  {
    hide Slack, Near;
    StretchCases(r, k, r.pzero);
    NearIsSlack(r, p, r.Stretch(k, r.pzero));
    NearIsSlack(r, owed + p, owed);
  }

  lemma NoOneHidden(r: Remote, k: nat, owed: nat)
    requires r.IsBiphase() && Robust(r) && OwesSpace(r, owed) && owed > 0
    ensures var ex := r.Stretch(k, r.sone);
            Slack(r, owed) + Slack(r, ex) < ex
  {
    hide Slack;
    StretchCases(r, k, r.sone);
  }

  /** The receiver between two bits. */
  predicate Between(s: Rx, r: Remote) {
    OwedPulse(s, r) && OwesSpace(r, s.pendings)
  }

  /** What is owed at the end of a bit, as `a` follows. */
  predicate LastHeard(r: Remote, d: nat, ex: nat, space: bool, a: seq<Sig>) {
    if a != [] && a[0].Space? == space then d == ex else Near(r, d, ex)
  }

  /** Any bit, each of its two parts off by no more than the tolerance, is decoded as what it is. */
  lemma NoisyBit(s: Rx, r: Remote, k: nat, b: bool, x: Sig, y: Sig, a: seq<Sig>, tail: seq<Sig>)
    requires Timed(r) && BitsDecodable(r) && Robust(r) && Between(s, r) && OneBitSymbols(r)
    requires Hears(s, r, [x] + ([y] + a), tail) && x.len > 0 && y.len > 0
    requires var e := EncodeBit(r, k, b);
             && SameLevel(x, e[0]) && SameLevel(y, e[1]) && Near(r, x.len, e[0].len)
             && LastHeard(r, y.len, e[1].len, e[1].Space?, a) && Near(r, y.len, e[1].len)
    requires !r.IsBiphase() && r.ptrail > 0 ==> StartsPulse(a)
    ensures DecodesBit(s, r, k, b)
    ensures var t := AfterBit(s, r, k, b);
            Hears(t, r, a, tail) && Same(s.tape, t.tape) && Between(t, r)
  {
    hide Air, Whole, Next, Clock, ExpectOne, ExpectZero, Near, Slack, Hears, Sees, Robust, Remote.Stretch, Clear;
    StretchCases(r, k, r.pone);
    StretchCases(r, k, r.szero);
    if r.IsBiphase() {
      if b {
        BiphaseOneHeard(s, r, k, x.len, y.len, a, tail);
      } else {
        if s.pendingp > 0 { NoZeroHidden(r, k, x.len, s.pendingp); }
        if s.pendings > 0 { NoOneHidden(r, k, s.pendings); }
        BiphaseZeroHeard(s, r, k, x.len, y.len, a, tail);
      }
    } else {
      NoStretch(r, k, if b then r.pone else r.pzero);
      NoStretch(r, k, if b then r.sone else r.szero);
      PlainBit(s, r, k, b, x.len, y.len, a, tail);
    }
  }

  lemma PlainBit(s: Rx, r: Remote, k: nat, b: bool, p: nat, q: nat, a: seq<Sig>, tail: seq<Sig>)
    requires !r.IsBiphase() && Timed(r) && BitsDecodable(r) && Robust(r) && OwedPulse(s, r) && OneBitSymbols(r)
    requires var e := [Pulse(p)] + ([Space(q)] + a);
             Hears(s, r, e, tail)
    requires p > 0 && q > 0 && (r.ptrail > 0 ==> StartsPulse(a))
    requires Near(r, p, if b then r.pone else r.pzero) && Near(r, q, if b then r.sone else r.szero)
    requires LastHeard(r, q, if b then r.sone else r.szero, true, a)
    ensures DecodesBit(s, r, k, b)
    ensures var t := AfterBit(s, r, k, b);
            && Hears(t, r, a, tail) && Same(s.tape, t.tape) && t.pendingp == 0
            && (t.pendings == 0 || t.pendings == if b then r.sone else r.szero)
  {
    hide Air, Whole, Next, Clock, ExpectOne, ExpectZero, Near, Slack, Hears, Sees, Clear, Attempt;
    HearsIsReady(s, r, [Pulse(p)] + ([Space(q)] + a), tail);
    AttemptHeard(s, r, r.pone, r.sone, p, q, a, tail);
    BitsAreAttempts(s, r, k);
    if !b {
      if Clear(r, r.pzero, r.pone) {
        ClearIsApart(r, p, r.pzero, r.pone);
      } else {
        ClearIsApart(r, q, r.szero, r.sone);
      }
      var u := ExpectOne(s, r, k).s;
      BitsAreAttempts(u, r, k);
      AttemptHeard(u, r, r.pzero, r.szero, p, q, a, tail);
    }
  }

  // ----- what is off by more -----

  /** A pulse-first bit is taken for a one just when what is checked of it is within the tolerance. */
  lemma OneTakenExactly(s: Rx, r: Remote, k: nat, p: nat, q: nat, a: seq<Sig>, tail: seq<Sig>)
    requires !r.IsBiphase() && Timed(r) && BitsDecodable(r) && p > 0 && q > 0 && (r.ptrail > 0 ==> StartsPulse(a))
    requires var e := [Pulse(p)] + ([Space(q)] + a);
             Hears(s, r, e, tail)
    ensures Ready(s.tape)
    ensures ExpectOne(s, r, k).ok <==> Near(r, p, r.pone) && (r.ptrail > 0 ==> Near(r, q, r.sone))
  {
    hide Hears, Near, Attempt, ExpectOne;
    HearsIsReady(s, r, [Pulse(p)] + ([Space(q)] + a), tail);
    BitsAreAttempts(s, r, k);
    AttemptHeard(s, r, r.pone, r.sone, p, q, a, tail);
  }

  lemma ZeroTakenExactly(s: Rx, r: Remote, k: nat, p: nat, q: nat, a: seq<Sig>, tail: seq<Sig>)
    requires !r.IsBiphase() && Timed(r) && BitsDecodable(r) && p > 0 && q > 0 && (r.ptrail > 0 ==> StartsPulse(a))
    requires var e := [Pulse(p)] + ([Space(q)] + a);
             Hears(s, r, e, tail)
    ensures Ready(s.tape)
    ensures ExpectZero(s, r, k).ok <==> Near(r, p, r.pzero) && (r.ptrail > 0 ==> Near(r, q, r.szero))
  {
    hide Hears, Near, Attempt, ExpectZero;
    HearsIsReady(s, r, [Pulse(p)] + ([Space(q)] + a), tail);
    BitsAreAttempts(s, r, k);
    AttemptHeard(s, r, r.pzero, r.szero, p, q, a, tail);
  }

  /** A space that was left owing is checked before the next pulse: off by more than its tolerance it
      makes every bit fail. */
  lemma OwedSpaceExactly(s: Rx, r: Remote, k: nat, q: nat, a: seq<Sig>, tail: seq<Sig>)
    requires !r.IsBiphase() && Timed(r) && BitsDecodable(r) && r.ptrail == 0
    requires s.pendings > 0 && s.pendingp == 0 && q > 0 && Sees(s.(pendings := q), a, tail) && StartsPulse(a)
    ensures SyncSpace(s, r).ok <==> Near(r, q, s.pendings)
    ensures !Near(r, q, s.pendings) ==> !DecodesBit(s, r, k, true) && !DecodesBit(s, r, k, false)
  {
    hide Air, Whole, Next, Clock, Near;
    SpaceOnAir(s.(pendings := q), a, tail);
    NextReads(s.tape, s.pendings, Space(q), Air(a) + tail);
    ExpectIsNear(r, q, s.pendings);
    if !Near(r, q, s.pendings) {
      var u := SyncSpace(s, r).s;
      BackReads(s.tape, Space(q), u.tape);
      var v := ExpectOne(s, r, k).s;
      assert v == Unget(u, 1);
      NextReads(v.tape, v.pendings, Space(q), Air(a) + tail);
    }
  }

  /** Of a biphase remote likewise, where a space comes after a pulse that was left owing. */
  lemma OwedPulseExactly(s: Rx, r: Remote, k: nat, p: nat, a: seq<Sig>, tail: seq<Sig>)
    requires r.IsBiphase() && Timed(r) && BitsDecodable(r)
    requires s.pendingp > 0 && s.pendings == 0 && p > 0 && Sees(s.(pendingp := p), a, tail) && !StartsPulse(a)
    ensures SyncPulse(s, r).ok <==> Near(r, p, s.pendingp)
    ensures !Near(r, p, s.pendingp) ==> !DecodesBit(s, r, k, true)
  {
    hide Air, Whole, Next, Clock, Near;
    PulseOnAir(s.(pendingp := p), a, tail);
    NextReads(s.tape, s.pendingp, Pulse(p), Air(a) + tail);
    ExpectIsNear(r, p, s.pendingp);
    StretchCases(r, k, r.sone);
  }

  /** The condition is exact for remotes that begin a bit with its pulse: if it fails, a zero whose
      durations are within the tolerance is taken for a one. */
  lemma NoiseConfuses(r: Remote) returns (p: nat, q: nat)
    requires !r.IsBiphase() && Timed(r) && r.plead == 0 && !Robust(r)
    ensures p > 0 && q > 0 && Near(r, p, r.pzero) && Near(r, q, r.szero)
    ensures Near(r, p, r.pone) && (r.ptrail > 0 ==> Near(r, q, r.sone))
  {
    hide Near, Clear;
    p := NotClearIsShared(r, r.pzero, r.pone);
    q := r.szero;
    NearItself(r, q);
    if r.ptrail > 0 { q := NotClearIsShared(r, r.szero, r.sone); }
  }
}
