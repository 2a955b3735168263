/** Frames received through noise: every duration on the air may be off by as much as the tolerance
    for it allows, and the words that were sent are decoded all the same. */
module NoisyFrames {
  import opened Options
  import opened Words
  import opened Signals
  import opened Remotes
  import opened Transmit
  import opened RecBuffers
  import opened Receive
  import opened RoundTrip
  import opened BitRoundTrip
  import opened SymbolRoundTrip
  import opened FrameRoundTrip
  import opened RepeatCodes
  import opened DecodeRoundTrip
  import opened CodeSurvives
  import opened Tolerance
  import opened NoisyBits

  /** The receiver hears `a`, which is what noise makes of `c`. */
  ghost predicate Listens(s: Rx, r: Remote, c: seq<Sig>, a: seq<Sig>, tail: seq<Sig>) {
    Hears(s, r, a, tail) && Blurs(r, c, a)
  }

  lemma ListensIsReady(s: Rx, r: Remote, c: seq<Sig>, a: seq<Sig>, tail: seq<Sig>)
    requires Listens(s, r, c, a, tail)
    ensures Ready(s.tape) && (s.pendingp == 0 || s.pendings == 0)
    ensures |a| == |c| && (StartsPulse(a) <==> StartsPulse(c))
  {
    if c != [] { assert BlursAt(r, c, a, 0); }
  }

  // ----- data -----

  lemma BlursTwo(r: Remote, x: Sig, y: Sig, c: seq<Sig>, a: seq<Sig>)
    requires Blurs(r, [x] + ([y] + c), a) && !SameLevel(x, y)
    ensures |a| >= 2 && a == [a[0]] + ([a[1]] + a[2..]) && Blurs(r, c, a[2..])
    ensures SameLevel(a[0], x) && SameLevel(a[1], y) && a[0].len > 0 && a[1].len > 0
    ensures Near(r, a[0].len, x.len) && Near(r, a[1].len, y.len) && LastHeard(r, a[1].len, y.len, y.Space?, a[2..])
    ensures StartsPulse(a[2..]) <==> StartsPulse(c)
    ensures !SameLevel(a[0], a[1])
  {
    hide Near;
    BlursFirst(r, x, [y] + c, a);
    BlursFirst(r, y, c, a[1..]);
    assert a[1..][1..] == a[2..];
    if c != [] { BlursRest(r, [x, y], c, a) by { assert [x, y] + c == [x] + ([y] + c); } }
  }

  /** The data `d`, decoded from `s`, is `code`, and `a` is heard next in place of `c`. */
  ghost predicate Got(s: Rx, r: Remote, d: Data, code: Word, c: seq<Sig>, a: seq<Sig>, tail: seq<Sig>) {
    d.code == code && Listens(d.s, r, c, a, tail) && Safe(s.tape) && Same(s.tape, d.s.tape) && Between(d.s, r)
  }

  lemma GotFrom(s: Rx, u: Rx, r: Remote, d: Data, code: Word, c: seq<Sig>, a: seq<Sig>, tail: seq<Sig>)
    requires Same(s.tape, u.tape) && Got(u, r, d, code, c, a, tail)
    ensures Got(s, r, d, code, c, a, tail)
  {
    hide Listens, Between;
  }

  lemma SameItself(t: Tape)
    requires Safe(t)
    ensures Same(t, t)
  {
  }

  lemma BitOfFrame(s: Rx, r: Remote, k: nat, b: bool, c: seq<Sig>, a: seq<Sig>, tail: seq<Sig>)
    requires Timed(r) && BitsDecodable(r) && Robust(r) && OneBitSymbols(r) && Between(s, r)
    requires Listens(s, r, EncodeBit(r, k, b) + c, a, tail)
    requires !r.IsBiphase() && r.ptrail > 0 ==> StartsPulse(c)
    ensures Ready(s.tape) && DecodesBit(s, r, k, b) && |a| >= 2
    ensures var t := AfterBit(s, r, k, b);
            Listens(t, r, c, a[2..], tail) && Same(s.tape, t.tape) && Between(t, r)
  {
    hide Hears, Between, DecodesBit, AfterBit, Near, Robust, LastHeard, Blurs;
    var e := EncodeBit(r, k, b);
    assert e + c == [e[0]] + ([e[1]] + c);
    BlursTwo(r, e[0], e[1], c, a);
    NoisyBit(s, r, k, b, a[0], a[1], a[2..], tail);
    HearsIsReady(s, r, a, tail);
  }

  /** Any bits are decoded as what they are. */
  lemma {:induction false} NoisyData(s: Rx, r: Remote, bs: seq<bool>, k: nat, code: Word, c: seq<Sig>, a: seq<Sig>,
                                     tail: seq<Sig>)
    returns (e: seq<Sig>)
    requires Timed(r) && BitsDecodable(r) && Robust(r) && OneBitSymbols(r) && Between(s, r) && |bs| <= 64
    requires Listens(s, r, EncodeBits(r, k, bs) + c, a, tail)
    requires !r.IsBiphase() && r.ptrail > 0 ==> StartsPulse(c)
    ensures Ready(s.tape) && Got(s, r, GetBits(s, r, |bs|, k, code), ShiftInAll(code, bs), c, e, tail)
    decreases |bs|
  {
    hide Hears, Between, DecodesBit, AfterBit, Robust, Blurs, Listens, Same, EncodeBit, Timed, BitsDecodable;
    ListensIsReady(s, r, EncodeBits(r, k, bs) + c, a, tail);
    if bs == [] {
      SameItself(s.tape);
      OwedNothing(c);
      assert ShiftInAll(code, []) == code;
      e := a;
    } else {
      var rest := EncodeBits(r, k + 1, bs[1..]) + c;
      EncodeBitsFirst(r, k, bs, c);
      if !r.IsBiphase() && r.ptrail > 0 { EncodeBitsStartPulse(r, k + 1, bs[1..], c); }
      BitOfFrame(s, r, k, bs[0], rest, a, tail);
      var t, bs', code' := AfterBit(s, r, k, bs[0]), bs[1..], ShiftIn(code, bs[0]);
      e := NoisyData(t, r, bs', k + 1, code', c, a[2..], tail);
      GotFrom(s, t, r, GetBits(t, r, |bs'|, k + 1, code'), ShiftInAll(code', bs'), c, e, tail);
      ShiftInFirst(code, bs);
      assert |bs'| == |bs| - 1;
      GetBitsStep(s, r, |bs|, k, bs[0], code);
    }
  }

  /** A configuration whose frames survive noise. */
  predicate Resilient(r: Remote) {
    && OneBitSymbols(r) && Decodable(r) && Timed(r) && Robust(r)
    && r.BitCount() <= 64 && r.preDataBits < 64 && r.bits < 64 && r.postDataBits < 64
  }

  lemma ResilientSplits(r: Remote)
    requires Resilient(r)
    ensures OneBitSymbols(r) && Decodable(r) && BitsDecodable(r) && Timed(r) && Robust(r) && r.BitCount() <= 64
    ensures r.preDataBits < 64 && r.bits < 64 && r.postDataBits < 64
    ensures NeedsPulse(r) <==> !r.IsBiphase() && r.ptrail > 0
  {
  }

  lemma DataOfFrame(s: Rx, r: Remote, t: Toggles, w: Word, bits: nat, done: nat, c: seq<Sig>, a: seq<Sig>,
                    tail: seq<Sig>)
    returns (e: seq<Sig>)
    requires Resilient(r) && done + bits <= r.BitCount() <= 64 && bits < 64 && Decodable(r) && Between(s, r)
    requires Listens(s, r, DataSignals(r, t, w, bits, done) + c, a, tail)
    requires NeedsPulse(r) ==> StartsPulse(c)
    ensures Ready(s.tape) && Got(s, r, GetData(s, r, bits, done), AirWord(r, t, w, bits, done), c, e, tail)
    ensures AirWord(r, t, w, bits, done) != FAILED
  {
    hide Hears, Between, Robust, Blurs, GetBits, EncodeBits;
    ResilientSplits(r);
    var bs := AirBits(r, t, done, Low(w, bits));
    ShortWordSucceeds(bs);
    e := NoisyData(s, r, bs, done, ZERO, c, a, tail);
  }

  // ----- the other parts of a frame -----

  /** A step succeeded, and `a` is heard next in place of `c`. */
  ghost predicate Went(s: Rx, r: Remote, x: Step, c: seq<Sig>, a: seq<Sig>, tail: seq<Sig>) {
    x.ok && Listens(x.s, r, c, a, tail) && Safe(s.tape) && Same(s.tape, x.s.tape)
  }

  lemma LeadHeard(s: Rx, r: Remote, c: seq<Sig>, a: seq<Sig>, tail: seq<Sig>) returns (e: seq<Sig>)
    requires OneBitSymbols(r) && s.pendingp == 0 && OwesSpace(r, s.pendings)
    requires Listens(s, r, LeadSignals(r) + c, a, tail)
    ensures Ready(s.tape) && Went(s, r, GetLead(s, r), c, e, tail) && Between(GetLead(s, r).s, r)
  {
    hide Air, Whole, Clock, Next, Near, Blurs, Hears, SyncSpace, Sees;
    ListensIsReady(s, r, LeadSignals(r) + c, a, tail);
    if r.plead == 0 {
      OwedNothing(c);
      e := a;
    } else {
      BlursFirst(r, Pulse(r.plead), c, a);
      e := a[1..];
      var u := SpaceDone(s, r, a, tail);
      OweHeardPulse(u, r, r.plead, a[0].len, e, tail);
    }
  }

  /** Where a pulse comes next, a space owed is found. */
  lemma SpaceDone(s: Rx, r: Remote, a: seq<Sig>, tail: seq<Sig>) returns (u: Rx)
    requires Hears(s, r, a, tail) && StartsPulse(a) && s.pendingp == 0
    ensures SyncSpace(s, r) == Step(u, true)
    ensures Same(s.tape, u.tape) && Sees(u, a, tail) && u.pendingp == 0 && u.pendings == 0
  {
    hide Air, Whole, Next, Clock, Near;
    u := SyncSpace(s, r).s;
    if s.pendings > 0 { SpaceSynced(s, r, a, tail); }
  }

  /** A pulse that is checked. */
  lemma PulseGone(s: Rx, r: Remote, p: nat, c: seq<Sig>, a: seq<Sig>, tail: seq<Sig>) returns (e: seq<Sig>)
    requires Listens(s, r, [Pulse(p)] + c, a, tail) && !StartsPulse(c)
    ensures Ready(s.tape) && Went(s, r, ExpectPulse(s, r, p), c, e, tail)
    ensures var u := ExpectPulse(s, r, p).s;
            u.pendingp == 0 && u.pendings == 0 && Sees(u, e, tail)
  {
    hide Air, Whole, Clock, Next, Near, Blurs, Hears, ExpectPulse;
    BlursFirst(r, Pulse(p), c, a);
    e := a[1..];
    HearsIsReady(s, r, a, tail);
    PulseHeard(s, r, p, a[0].len, e, tail);
    HearsPlainly(ExpectPulse(s, r, p).s, r, e, tail);
  }

  lemma SpaceGone(s: Rx, r: Remote, d: nat, c: seq<Sig>, a: seq<Sig>, tail: seq<Sig>) returns (e: seq<Sig>)
    requires Listens(s, r, [Space(d)] + c, a, tail) && StartsPulse(c)
    ensures Ready(s.tape) && Went(s, r, ExpectSpace(s, r, d), c, e, tail)
    ensures var u := ExpectSpace(s, r, d).s; u.pendingp == 0 && u.pendings == 0
  {
    hide Air, Whole, Clock, Next, Near, Blurs, Hears, ExpectSpace;
    BlursFirst(r, Space(d), c, a);
    e := a[1..];
    HearsIsReady(s, r, a, tail);
    SpaceHeard(s, r, d, a[0].len, e, tail);
    HearsPlainly(ExpectSpace(s, r, d).s, r, e, tail);
  }

  /** A pulse that is checked, and a space that is left owing. */
  lemma PulseThenSpace(s: Rx, r: Remote, p: nat, d: nat, c: seq<Sig>, a: seq<Sig>, tail: seq<Sig>)
    returns (e: seq<Sig>)
    requires Listens(s, r, [Pulse(p)] + ([Space(d)] + c), a, tail) && d > 0
    ensures Ready(s.tape)
    ensures var x := ExpectPulse(s, r, p);
            Went(s, r, Step(x.s.(pendings := d), x.ok), c, e, tail) && x.s.pendingp == 0
  {
    hide Air, Whole, Clock, Next, Near, Blurs, Hears, ExpectPulse, Sees;
    var b := PulseGone(s, r, p, [Space(d)] + c, a, tail);
    BlursFirst(r, Space(d), c, b);
    e := b[1..];
    OweHeardSpace(ExpectPulse(s, r, p).s, r, d, b[0].len, e, tail);
  }

  lemma DividerHeard(s: Rx, r: Remote, p: nat, d: nat, c: seq<Sig>, a: seq<Sig>, tail: seq<Sig>)
    returns (e: seq<Sig>)
    requires Listens(s, r, Divider(p, d) + c, a, tail) && Between(s, r) && OwesSpace(r, d)
    ensures Ready(s.tape)
    ensures Went(s, r, GetDivider(s, r, p, d), c, e, tail) && Between(GetDivider(s, r, p, d).s, r)
  {
    hide Air, Whole, Clock, Next, Near, Blurs, Hears, ExpectPulse, Sees;
    ListensIsReady(s, r, Divider(p, d) + c, a, tail);
    if p > 0 && d > 0 {
      assert [Pulse(p), Space(d)] + c == [Pulse(p)] + ([Space(d)] + c);
      e := PulseThenSpace(s, r, p, d, c, a, tail);
    } else {
      OwedNothing(c);
      e := a;
    }
  }

  lemma PreHeard(s: Rx, r: Remote, t: Toggles, c: seq<Sig>, a: seq<Sig>, tail: seq<Sig>) returns (e: seq<Sig>)
    requires Resilient(r) && r.BitCount() <= 64 && Decodable(r) && Between(s, r) && (NeedsPulse(r) ==> StartsPulse(c))
    requires Listens(s, r, PreSignals(r, t) + c, a, tail)
    ensures Ready(s.tape) && Got(s, r, MaybePre(s, r), PreWord(r, t), c, e, tail) && PreWord(r, t) != FAILED
  {
    hide Hears, Between, Blurs, GetData, DataSignals, AirWord, GetDivider, Resilient, Listens;
    ListensIsReady(s, r, PreSignals(r, t) + c, a, tail);
    ResilientSplits(r);
    if r.HasPre() {
      var data, div := DataSignals(r, t, r.preData, r.preDataBits, 0), Divider(r.preP, r.preS);
      assert PreSignals(r, t) == data + div;
      Regrouped(data, div, c);
      var b := DataOfFrame(s, r, t, r.preData, r.preDataBits, 0, div + c, a, tail);
      var d := GetData(s, r, r.preDataBits, 0);
      e := DividerHeard(d.s, r, r.preP, r.preS, c, b, tail);
    } else {
      OwedNothing(c);
      ShortWordSucceeds([]);
      e := a;
    }
  }

  lemma PostHeard(s: Rx, r: Remote, t: Toggles, c: seq<Sig>, a: seq<Sig>, tail: seq<Sig>) returns (e: seq<Sig>)
    requires Resilient(r) && r.BitCount() <= 64 && Decodable(r) && Between(s, r) && (NeedsPulse(r) ==> StartsPulse(c))
    requires Listens(s, r, PostSignals(r, t) + c, a, tail)
    ensures Ready(s.tape) && Got(s, r, MaybePost(s, r), PostWord(r, t), c, e, tail) && PostWord(r, t) != FAILED
  {
    hide Hears, Between, Blurs, GetData, DataSignals, AirWord, GetDivider, Resilient, Listens;
    ListensIsReady(s, r, PostSignals(r, t) + c, a, tail);
    ResilientSplits(r);
    if r.HasPost() {
      var done := r.preDataBits + r.bits;
      var data, div := DataSignals(r, t, r.postData, r.postDataBits, done), Divider(r.postP, r.postS);
      assert PostSignals(r, t) == div + data;
      Regrouped(div, data, c);
      var b := DividerHeard(s, r, r.postP, r.postS, data + c, a, tail);
      var u := GetDivider(s, r, r.postP, r.postS).s;
      e := DataOfFrame(u, r, t, r.postData, r.postDataBits, done, c, b, tail);
      GotFrom(s, u, r, GetData(u, r, r.postDataBits, done), PostWord(r, t), c, e, tail);
    } else {
      OwedNothing(c);
      ShortWordSucceeds([]);
      e := a;
    }
  }

  lemma TrailHeard(s: Rx, r: Remote, c: seq<Sig>, a: seq<Sig>, tail: seq<Sig>) returns (e: seq<Sig>)
    requires Listens(s, r, TrailSignals(r) + c, a, tail) && !StartsPulse(c)
    ensures Ready(s.tape) && Went(s, r, GetTrail(s, r), c, e, tail) && GetTrail(s, r).s.pendingp == 0
  {
    hide Air, Whole, Clock, Next, Near, Blurs, Hears, ExpectPulse, Sees;
    ListensIsReady(s, r, TrailSignals(r) + c, a, tail);
    if r.ptrail != 0 {
      e := PulseGone(s, r, r.ptrail, c, a, tail);
    } else {
      OwedNothing(c);
      e := a;
      if s.pendingp > 0 {
        PulseSynced(s, r, a, tail);
        HearsPlainly(SyncPulse(s, r).s, r, a, tail);
      }
    }
  }

  lemma FootHeard(s: Rx, r: Remote, a: seq<Sig>, tail: seq<Sig>)
    requires Listens(s, r, FootSignals(r), a, tail) && s.pendingp == 0
    ensures Ready(s.tape) && Went(s, r, MaybeFoot(s, r), [], [], tail) && MaybeFoot(s, r).s.pendingp == 0
  {
    hide Air, Whole, Clock, Next, Near, Blurs, Hears, ExpectPulse, ExpectSpace, Sees;
    ListensIsReady(s, r, FootSignals(r), a, tail);
    if r.HasFoot() {
      assert FootSignals(r) == [Space(r.sfoot)] + ([Pulse(r.pfoot)] + []);
      var b := SpaceGone(s, r, r.sfoot, [Pulse(r.pfoot)] + [], a, tail);
      var u := ExpectSpace(s, r, r.sfoot).s;
      var e := PulseGone(u, r, r.pfoot, [], b, tail);
      ListensIsReady(ExpectPulse(u, r, r.pfoot).s, r, [], e, tail);
    }
  }

  /** Under NO_HEAD_REP the tolerance for the space of the header is taken of what is heard, not of
      what is expected. */
  predicate HeaderFits(r: Remote, a: seq<Sig>) {
    r.HasHeader() && r.noHeadRep ==> |a| >= 2 && Near(r, r.shead, a[1].len)
  }

  lemma HeaderHeard(s: Rx, r: Remote, c: seq<Sig>, a: seq<Sig>, tail: seq<Sig>) returns (e: seq<Sig>)
    requires r.HasHeader() && OneBitSymbols(r) && Owed(s) == [] && s.pendingp == 0 && s.pendings == 0
    requires r.noHeadRep ==> StartsPulse(c)
    requires Listens(s, r, [Pulse(r.phead)] + ([Space(r.shead)] + c), a, tail) && HeaderFits(r, a)
    ensures Ready(s.tape) && Went(s, r, GetHeader(s, r), c, e, tail) && GetHeader(s, r).s.pendingp == 0
    ensures OwesSpace(r, GetHeader(s, r).s.pendings)
  {
    hide Air, Whole, Clock, Next, Near, Blurs, Hears, ExpectPulse, Remote.Expect;
    ListensIsReady(s, r, [Pulse(r.phead)] + ([Space(r.shead)] + c), a, tail);
    if !r.noHeadRep {
      e := PulseThenSpace(s, r, r.phead, r.shead, c, a, tail);
    } else {
      BlursTwo(r, Pulse(r.phead), Space(r.shead), c, a);
      var b := [a[1]] + a[2..];
      PulseHeard(s, r, r.phead, a[0].len, b, tail);
      e := a[2..];
      var u := ExpectPulse(s, r, r.phead).s;
      SpaceIsAhead(u, a[1].len, e, tail);
      NextReads(u.tape, r.shead, Space(a[1].len), Air(e) + tail);
      ExpectIsNear(r, r.shead, a[1].len);
      SpaceTaken(u, r, a[1].len, e, tail);
    }
  }

  lemma SpaceTaken(u: Rx, r: Remote, d: nat, a: seq<Sig>, tail: seq<Sig>)
    requires Sees(u, [Space(d)] + a, tail) && u.pendingp == 0 && u.pendings == 0 && StartsPulse(a)
    ensures Hears(u.(tape := Next(u.tape, r.shead).tape), r, a, tail)
  {
    hide Air, Whole, Clock, Next, Near;
    SpaceIsAhead(u, d, a, tail);
    NextReads(u.tape, r.shead, Space(d), Air(a) + tail);
    OwedNothing(a);
  }

  // ----- the frame -----

  lemma BodyHeard(s: Rx, r: Remote, t: Toggles, code: Word, a: seq<Sig>, tail: seq<Sig>)
    requires Resilient(r) && r.BitCount() <= 64 && Decodable(r) && s.pendingp == 0 && OwesSpace(r, s.pendings)
    requires Listens(s, r, AfterHeader(r, t, code, FootSignals(r)), a, tail)
    ensures Ready(s.tape)
    ensures var b := GetBody(s, r);
            && b.ok && b.pre == PreWord(r, t) && b.post == PostWord(r, t)
            && b.code == AirWord(r, t, code, r.bits, r.preDataBits)
            && Sees(b.s, [], tail) && b.s.pendingp == 0 && Same(s.tape, b.s.tape)
  {
    hide GetLead, MaybePre, GetData, MaybePost, GetTrail, MaybeFoot, GetBody, Air, Resilient, DataSignals, PreSignals,
         PostSignals, LeadSignals, TrailSignals, FootSignals, AirWord, PreWord, PostWord, Listens, Between, Whole,
         Clock, Sees, OwesSpace;
    ResilientSplits(r);
    var foot := FootSignals(r);
    FootStartsSpace(r);
    if NeedsPulse(r) { RestStartsPulse(r, t, code, foot); }
    var a1 := LeadHeard(s, r, PreSignals(r, t) + AfterPre(r, t, code, foot), a, tail);
    var lead := GetLead(s, r);
    var a2 := PreHeard(lead.s, r, t, AfterPre(r, t, code, foot), a1, tail);
    var pre := MaybePre(lead.s, r);
    var a3 := DataOfFrame(pre.s, r, t, code, r.bits, r.preDataBits, AfterCode(r, t, foot), a2, tail);
    var data := GetData(pre.s, r, r.bits, r.preDataBits);
    var a4 := PostHeard(data.s, r, t, TrailSignals(r) + foot, a3, tail);
    var post := MaybePost(data.s, r);
    var a5 := TrailHeard(post.s, r, foot, a4, tail);
    var trail := GetTrail(post.s, r);
    FootHeard(trail.s, r, a5, tail);
    var f := MaybeFoot(trail.s, r);
    BodySteps(s, r, lead, pre, data, post, trail, f);
    EndIsSeen(f.s, r, tail);
  }

  lemma EndIsSeen(s: Rx, r: Remote, tail: seq<Sig>)
    requires Listens(s, r, [], [], tail) && s.pendingp == 0
    ensures Sees(s, [], tail)
  {
  }

  lemma MaybeHeaderHeard(s: Rx, r: Remote, c: seq<Sig>, a: seq<Sig>, tail: seq<Sig>) returns (e: seq<Sig>)
    requires OneBitSymbols(r) && Owed(s) == [] && s.pendingp == 0 && s.pendings == 0
    requires Listens(s, r, HeaderSignals(r) + c, a, tail) && HeaderFits(r, a)
    requires r.HasHeader() && r.noHeadRep ==> StartsPulse(c)
    ensures Ready(s.tape)
    ensures var head := if r.HasHeader() then GetHeader(s, r) else Step(s, false);
            && (r.HasHeader() ==> head.ok) && Listens(head.s, r, c, e, tail) && Same(s.tape, head.s.tape)
            && head.s.pendingp == 0 && OwesSpace(r, head.s.pendings)
  {
    hide GetHeader, Air, Near, Blurs, Hears, Whole, Clock;
    ListensIsReady(s, r, HeaderSignals(r) + c, a, tail);
    if r.HasHeader() {
      assert HeaderSignals(r) + c == [Pulse(r.phead)] + ([Space(r.shead)] + c);
      e := HeaderHeard(s, r, c, a, tail);
    } else {
      OwedNothing(c);
      e := a;
    }
  }

  lemma FrameHeard(s: Rx, r: Remote, t: Toggles, code: Word, c: Context, sync: nat, a: seq<Sig>, tail: seq<Sig>)
    requires Resilient(r) && r.BitCount() <= 64 && Decodable(r) && Owed(s) == [] && s.pendingp == 0 && s.pendings == 0
    requires Listens(s, r, FrameSignals(r, t, code, false), a, tail) && HeaderFits(r, a)
    requires r.HasHeader() && r.noHeadRep ==> StartsPulse(AfterHeader(r, t, code, FootSignals(r)))
    requires Ready(s.tape) && Ends(r, Clock(s.tape) - Total(tail) - Discount(r), tail)
    ensures Gives(GetFrame(s, r, c, sync), r, t, code, Clock(s.tape) - Total(tail) - Discount(r))
    ensures Leaves(s, GetFrame(s, r, c, sync).s, tail)
  {
    hide GetHeader, GetBody, GetGap, GetFrame, Air, Resilient, FrameSignals, HeaderSignals, AfterHeader, AirWord,
         PreWord, PostWord, Remaining, GapAfter, Discount, Total, Whole, Ahead, StartsPulse, Leaves, SameInput,
         Listens, HeaderFits;
    ResilientSplits(r);
    FrameNested(r, t, code);
    var e := MaybeHeaderHeard(s, r, AfterHeader(r, t, code, FootSignals(r)), a, tail);
    var head := if r.HasHeader() then GetHeader(s, r) else Step(s, false);
    BodyHeard(head.s, r, t, code, e, tail);
    var b := GetBody(head.s, r);
    DiscountSeen(b.s, r, tail);
    var u := DiscountHeader(b.s, r, head.ok);
    var gap := GapAfter(r, b.s.tape.sum - Discount(r));
    GapSeen(u, r, gap, tail);
    FrameSteps(s, r, c, sync, head, b, GetGap(u, r, gap));
    SameIsInput(s, head.s);
    SameIsInput(head.s, b.s);
    LeavesFrom(b.s, u, GetGap(u, r, gap).s, tail);
    LeavesFrom(head.s, b.s, GetGap(u, r, gap).s, tail);
    LeavesFrom(s, head.s, GetGap(u, r, gap).s, tail);
  }

  /** A frame in which each duration on the air is off by at most `eps` percent of what is expected, or
      by at most `aeps`, is decoded to the words that were sent. */
  lemma NoisyFrameIsReceived(s: Rx, r: Remote, t: Toggles, code: Word, c: Context, gap: nat, a: seq<Sig>,
                             tail: seq<Sig>)
    requires Resilient(r) && r.BitCount() <= 64 && Decodable(r) && Transmissible(r, t, code) && Synchronises(r, c, gap)
    requires Blurs(r, FrameSignals(r, t, code, false), a) && HeaderFits(r, a)
    requires Told(r, c, a, tail) && (r.HasRepeat() && c.own ==> HeaderLeads(r, a))
    requires Delivers(s, gap, Air(a), tail) && Ends(r, Total(Air(a)) - Discount(r), tail)
    ensures Gives(ReceiveDecode(s, r, c), r, t, code, Total(Air(a)) - Discount(r))
    ensures Leaves(Rewind(s), ReceiveDecode(s, r, c).s, tail)
  {
    hide Leaves, SameInput, GetFrame, ReceiveDecode, FrameSignals, Air, Resilient, Gives, AfterHeader, Sees, Told,
         HeaderLeads, Blurs, HeaderFits, Total, Synchronises;
    var y := ReadAsFrame(s, r, c, gap, a, tail);
    NothingIsOwed(y, r, FrameSignals(r, t, code, false), a, tail);
    ResilientHeader(r);
    FrameHeard(y, r, t, code, c, gap, a, tail);
    LeavesFrom(Rewind(s), y, ReceiveDecode(s, r, c).s, tail);
  }

  lemma ResilientHeader(r: Remote)
    requires Resilient(r)
    ensures HeaderAtOnce(r) == r.noHeadRep
  {
  }

  lemma NothingIsOwed(s: Rx, r: Remote, c: seq<Sig>, a: seq<Sig>, tail: seq<Sig>)
    requires Sees(s, a, tail) && Owed(s) == [] && Blurs(r, c, a)
    ensures Listens(s, r, c, a, tail) && s.pendingp == 0 && s.pendings == 0 && Ready(s.tape)
  {
  }

  // ----- durations on the air -----

  /** The last part of each duration on the air, which is the one that is held against what is
      expected: all parts before it are taken off. */
  function LastParts(c: seq<Sig>): (p: seq<nat>)
    ensures |p| == |Air(c)|
    decreases |c|
  {
    if |c| < 2 then if c == [] || c[0].Space? then [] else [c[0].len]
    else if SameLevel(c[0], c[1]) then
      AirOfRun(c);
      LastParts(c[1..])
    else [c[0].len] + LastParts(c[1..])
  }

  /** Another part in front makes the first duration longer. */
  lemma {:induction false} AirOfRun(c: seq<Sig>)
    requires |c| >= 2 && SameLevel(c[0], c[1])
    ensures |Air(c)| == |Air(c[1..])|
    ensures var a, b := Air(c), Air(c[1..]);
            a != [] ==> SameLevel(b[0], c[0]) && a[0] == Join(c[0], b[0]) && a[1..] == b[1..]
    decreases |c|
  {
    var j, d := [Join(c[0], c[1])] + c[2..], c[1..];
    if |c| > 2 && SameLevel(c[1], c[2]) {
      assert d[1..] == c[2..] && j[1..] == c[2..];
      AirOfRun(j);
      AirOfRun(d);
    } else if |c| > 2 {
      assert j[1..] == c[2..] && d[1..] == c[2..];
    }
  }

  /** The durations `w` are what noise makes of `c` on the air: each is off by no more than the
      tolerance for its last part. */
  ghost predicate NoisyAir(r: Remote, c: seq<Sig>, w: seq<Sig>) {
    |w| == |Air(c)| && forall i :: 0 <= i < |w| ==> NoisyAt(r, w[i], Air(c)[i], LastParts(c)[i])
  }

  predicate NoisyAt(r: Remote, x: Sig, y: Sig, last: nat) {
    SameLevel(x, y) && x.len + last > y.len && Near(r, last + x.len - y.len, last)
  }

  /** Such durations come from signals that are off one by one. */
  lemma {:induction false} AirComesFrom(r: Remote, c: seq<Sig>, w: seq<Sig>) returns (a: seq<Sig>)
    requires Positive(c) && NoisyAir(r, c, w)
    ensures Blurs(r, c, a) && Air(a) == w
    decreases |c|
  {
    hide Near;
    if |c| < 2 {
      a := if c == [] || c[0].Space? then c else w;
      if c != [] {
        NearItself(r, c[0].len);
        if c[0].Pulse? { assert NoisyAt(r, w[0], c[0], c[0].len); }
      }
    } else if SameLevel(c[0], c[1]) {
      AirOfRun(c);
      RunIsNoisy(r, c, w);
      var v := if w == [] then [] else [w[0].(len := w[0].len - c[0].len)] + w[1..];
      var b := AirComesFrom(r, c[1..], v);
      a := [c[0]] + b;
      BlursAfter(r, c, a, b);
      assert a[1..] == b;
      AirOfRun(a);
    } else {
      FirstIsNoisy(r, c, w);
      var b := AirComesFrom(r, c[1..], w[1..]);
      a := [w[0]] + b;
      BlursAfter(r, c, a, b);
      assert a[1..] == b;
    }
  }

  lemma BlursAfter(r: Remote, c: seq<Sig>, a: seq<Sig>, b: seq<Sig>)
    requires |c| >= 2 && Blurs(r, c[1..], b) && |a| > 0 && a == [a[0]] + b && SameLevel(a[0], c[0]) && a[0].len > 0
    requires if SameLevel(c[0], c[1]) then a[0] == c[0] else Near(r, a[0].len, c[0].len)
    ensures Blurs(r, c, a) && SameLevel(a[1], c[1])
  {
    hide Near;
    assert BlursAt(r, c[1..], b, 0);
    forall i | 0 <= i < |c|
      ensures BlursAt(r, c, a, i)
    {
      if i > 0 { assert BlursAt(r, c[1..], b, i - 1); }
    }
  }

  lemma RunIsNoisy(r: Remote, c: seq<Sig>, w: seq<Sig>)
    requires |c| >= 2 && SameLevel(c[0], c[1]) && NoisyAir(r, c, w) && Positive(c)
    ensures w != [] ==> w[0].len > c[0].len
    ensures NoisyAir(r, c[1..], if w == [] then [] else [w[0].(len := w[0].len - c[0].len)] + w[1..])
  {
    hide Near, Air;
    AirOfRun(c);
    if w != [] {
      var y := Air(c[1..]);
      LastPartFits(c[1..]);
      assert NoisyAt(r, w[0], Air(c)[0], LastParts(c)[0]);
      forall i | 1 <= i < |w|
        ensures NoisyAt(r, w[i], y[i], LastParts(c[1..])[i])
      {
        assert NoisyAt(r, w[i], Air(c)[i], LastParts(c)[i]);
        assert Air(c)[i] == Air(c)[1..][i - 1] == y[1..][i - 1];
      }
    }
  }

  /** The last part is no longer than the duration. */
  lemma {:induction false} LastPartFits(c: seq<Sig>)
    ensures Air(c) != [] ==> LastParts(c)[0] <= Air(c)[0].len
    decreases |c|
  {
    if |c| >= 2 && SameLevel(c[0], c[1]) {
      AirOfRun(c);
      LastPartFits(c[1..]);
    }
  }

  lemma FirstIsNoisy(r: Remote, c: seq<Sig>, w: seq<Sig>)
    requires |c| >= 2 && !SameLevel(c[0], c[1]) && NoisyAir(r, c, w)
    ensures w != [] && SameLevel(w[0], c[0]) && w[0].len > 0 && Near(r, w[0].len, c[0].len)
    ensures w == [w[0]] + w[1..] && NoisyAir(r, c[1..], w[1..])
  {
    hide Near;
    assert NoisyAt(r, w[0], Air(c)[0], LastParts(c)[0]);
    forall i | 0 <= i < |w[1..]|
      ensures NoisyAt(r, w[1..][i], Air(c[1..])[i], LastParts(c[1..])[i])
    {
      assert NoisyAt(r, w[i + 1], Air(c)[i + 1], LastParts(c)[i + 1]);
    }
  }

  lemma {:induction false} AirAgain(c: seq<Sig>)
    ensures Air(Air(c)) == Air(c)
    ensures c != [] ==> if Air(c) == [] then c[0].Space? else SameLevel(Air(c)[0], c[0])
    decreases |c|
  {
    if |c| >= 2 {
      if SameLevel(c[0], c[1]) {
        AirAgain([Join(c[0], c[1])] + c[2..]);
      } else {
        var a := Air(c[1..]);
        AirAgain(c[1..]);
        assert Air(c)[1..] == a;
      }
    }
  }

  /** What is told from a repeat code are the durations themselves. */
  lemma ToldOnAir(r: Remote, c: Context, a: seq<Sig>, tail: seq<Sig>)
    requires Told(r, c, Air(a), tail) && (r.HasRepeat() && c.own ==> !HeaderRepeated(r))
    ensures Told(r, c, a, tail) && (r.HasRepeat() && c.own ==> HeaderLeads(r, a))
  {
    hide Air, Total, RepeatPattern;
    AirAgain(a);
    OwedNothing(a);
    OwedNothing(Air(a));
  }

  lemma HeaderOnAir(r: Remote, f: seq<Sig>, rest: seq<Sig>, a: seq<Sig>)
    requires OneBitSymbols(r) && HeaderFits(r, Air(a)) && f == HeaderSignals(r) + rest
    requires Blurs(r, f, a) && (r.HasHeader() && r.noHeadRep ==> StartsPulse(rest))
    ensures HeaderFits(r, a)
  {
    hide Air, Near;
    if r.HasHeader() && r.noHeadRep {
      assert f == [Pulse(r.phead)] + ([Space(r.shead)] + rest);
      BlursTwo(r, Pulse(r.phead), Space(r.shead), rest, a);
      AirSpace(0, a[1].len, a[2..]);
      AirPulse(0, a[0].len, [a[1]] + a[2..]);
    }
  }

  /** Through noise: a frame of which each duration on the air is off by at most `eps` percent of what
      is expected last in it, or by at most `aeps`, is decoded to the words that were sent. */
  lemma NoisyAirIsReceived(s: Rx, r: Remote, t: Toggles, code: Word, c: Context, gap: nat, w: seq<Sig>,
                           tail: seq<Sig>)
    requires Resilient(r) && r.BitCount() <= 64 && Decodable(r) && Transmissible(r, t, code) && Synchronises(r, c, gap)
    requires NoisyAir(r, FrameSignals(r, t, code, false), w) && HeaderFits(r, w)
    requires Told(r, c, w, tail) && (r.HasRepeat() && c.own ==> !HeaderRepeated(r))
    requires Delivers(s, gap, w, tail) && Ends(r, Total(w) - Discount(r), tail)
    ensures Gives(ReceiveDecode(s, r, c), r, t, code, Total(w) - Discount(r))
  {
    hide Leaves, ReceiveDecode, FrameSignals, Air, Resilient, Gives, AfterHeader, Told, HeaderLeads, Blurs, HeaderFits,
         Total, Synchronises, NoisyAir, Positive, HeaderSignals, Delivers;
    var f := FrameSignals(r, t, code, false);
    ResilientIsSendable(r);
    AnyFramePositive(r, t, code, false);
    var a := AirComesFrom(r, f, w);
    FrameNested(r, t, code);
    ResilientHeader(r);
    HeaderOnAir(r, f, AfterHeader(r, t, code, FootSignals(r)), a);
    ToldOnAir(r, c, a, tail);
    NoisyFrameIsReceived(s, r, t, code, c, gap, a, tail);
  }

  lemma ResilientIsSendable(r: Remote)
    requires Resilient(r)
    ensures Sendable(r) && OneBitSymbols(r)
  {
  }

  // ----- RC-MM symbols -----

  /** The length of a symbol. */
  function PairLength(r: Remote, n: nat): nat {
    if n == 0 then r.pzero + r.szero else if n == 1 then r.pone + r.sone
    else if n == 2 then r.ptwo + r.stwo else r.pthree + r.sthree
  }

  /** An RC-MM symbol of a length within the tolerance is recognised if it is clear of the symbols that
      are tested before it, and one that is not near its length is not. */
  lemma NoisyPair(r: Remote, n: nat, sum: nat)
    requires n < 4
    ensures (forall m :: 0 <= m < n ==> Clear(r, PairLength(r, n), PairLength(r, m))) && Near(r, sum, PairLength(r, n))
            ==> PairOf(r, sum) == Some([n / 2 == 1, n % 2 == 1])
    ensures !Near(r, sum, PairLength(r, n)) ==> PairOf(r, sum) != Some([n / 2 == 1, n % 2 == 1])
  {
    hide Near, Clear;
    forall m | 0 <= m < 4
      ensures r.Expect(sum, PairLength(r, m)) <==> Near(r, sum, PairLength(r, m))
    {
      ExpectIsNear(r, sum, PairLength(r, m));
    }
    ExpectIsNear(r, sum, PairLength(r, 0));
    ExpectIsNear(r, sum, PairLength(r, 1));
    ExpectIsNear(r, sum, PairLength(r, 2));
    ExpectIsNear(r, sum, PairLength(r, 3));
    if Near(r, sum, PairLength(r, n)) {
      forall m | 0 <= m < n && Clear(r, PairLength(r, n), PairLength(r, m))
        ensures !Near(r, sum, PairLength(r, m))
      {
        ClearIsApart(r, sum, PairLength(r, n), PairLength(r, m));
      }
    }
  }

  // ----- configurations -----

  lemma SlackBounds(r: Remote, d: nat, n: nat, h: nat)
    requires d <= n * h && r.eps <= 33 && 3 * r.aeps < h && 3 * r.resolution < h && 1 <= n <= 2
    ensures 3 * Slack(r, d) < n * h
  {
    var e, m := r.eps, r.eps * d;
    ProductGrows(e, 33, d);
    assert m <= 33 * d <= 33 * (n * h);
    assert 3 * (m / 100) < n * h;
  }

  /** Equal half-bits: a tolerance of a third, and an absolute one below a third of a half-bit, can do
      no harm where the spaces before the data are no longer than a bit. */
  lemma HalfBitsAreRobust(r: Remote, h: nat)
    requires r.IsBiphase() && r.pone == h && r.sone == h && r.pzero == h && r.szero == h
    requires r.plead <= 2 * h && r.shead <= 2 * h && r.preS <= 2 * h && r.postS <= 2 * h
    requires r.eps <= 33 && 3 * r.aeps < h && 3 * r.resolution < h
    ensures Robust(r)
  {
    hide Slack;
    SlackBounds(r, h, 1, h);
    SlackBounds(r, 2 * h, 2, h);
    SlackBounds(r, r.plead, 2, h);
    SlackBounds(r, r.shead, 2, h);
    SlackBounds(r, r.preS, 2, h);
    SlackBounds(r, r.postS, 2, h);
  }

  /** The remote of remotes/generic/NEC-pulse.conf is one. */
  lemma NecPulseIsResilient(preData: Word)
    ensures Resilient(NecPulse(preData))
  {
    var r := NecPulse(preData);
    assert Slack(r, 1687) == 506 && Slack(r, 562) == 168;
    assert Clear(r, r.szero, r.sone);
  }
}
