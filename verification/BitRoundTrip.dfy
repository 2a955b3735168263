/** Single bits and data words: what `send_data` encodes, `get_data` decodes. */
module BitRoundTrip {
  import opened Words
  import opened Signals
  import opened Remotes
  import opened Transmit
  import opened RecBuffers
  import opened Receive
  import opened RoundTrip

  /** All parts of a bit have a length. */
  predicate Timed(r: Remote) {
    r.pone > 0 && r.sone > 0 && r.pzero > 0 && r.szero > 0
  }

  /** A pulse of length `p` is not taken for one that a zero has been added to. */
  predicate Apart(r: Remote, p: nat) {
    p > 0 ==> !r.Expect(p + r.pzero, p) && (r.rc6Mask != ZERO ==> !r.Expect(p + 2 * r.pzero, p))
  }

  /** The tolerance of a biphase remote is too small to confuse a merged run with one that is not:
      no pulse that may be owed is taken for itself with a zero added, and no space for nothing. */
  predicate Separable(r: Remote) {
    && Apart(r, r.plead) && Apart(r, r.pone) && !r.Expect(0, r.sone)
    && (r.rc6Mask != ZERO ==> Apart(r, 2 * r.pone) && !r.Expect(0, 2 * r.sone))
  }

  /** A remote that sends the pulse first has distinguishable bits: the pulses differ, or, where
      the space is checked at once and no lead pulse can be lost, the spaces do. */
  predicate Distinct(r: Remote) {
    !r.Expect(r.pzero, r.pone) || (r.ptrail > 0 && r.plead == 0 && !r.Expect(r.szero, r.sone))
  }

  predicate Unambiguous(r: Remote) {
    if r.IsBiphase() then Separable(r) else Distinct(r)
  }

  /** The pulses that may be owed between two bits. */
  predicate OwedPulse(s: Rx, r: Remote) {
    if r.protocol.Rcmm? || r.protocol.Xmp? then s.pendingp == 0
    else if r.IsBiphase() then
      s.pendingp == 0 || s.pendingp == r.plead || s.pendingp == r.pone
      || (r.rc6Mask != ZERO && s.pendingp == 2 * r.pone)
    else
      s.pendingp == 0 || r.plead > 0
  }

  lemma StretchCases(r: Remote, k: nat, d: nat)
    ensures r.Stretch(k, d) == d || (r.Stretch(k, d) == 2 * d && r.rc6Mask != ZERO)
  {
  }

  /** Signals counted in advance. */
  lemma OwePulse(s: Rx, d: nat, c: seq<Sig>, tail: seq<Sig>)
    requires Sees(s, [Pulse(d)] + c, tail) && Owed(s) == [] && d > 0
    ensures Sees(s.(pendingp := d), c, tail)
  {
    OwedNothing([Pulse(d)] + c);
  }

  lemma OweSpace(s: Rx, d: nat, c: seq<Sig>, tail: seq<Sig>)
    requires Sees(s, [Space(d)] + c, tail) && Owed(s) == [] && d > 0
    ensures Sees(s.(pendings := d), c, tail)
  {
    OwedNothing([Space(d)] + c);
  }

  /** Where the decoder stands after bit `k`, if that is `b`. */
  function AfterBit(s: Rx, r: Remote, k: nat, b: bool): Rx
    requires Ready(s.tape) && BitsDecodable(r)
  {
    if b then ExpectOne(s, r, k).s else ExpectZero(ExpectOne(s, r, k).s, r, k).s
  }

  /** The decoder takes bit `k` for `b`. */
  predicate DecodesBit(s: Rx, r: Remote, k: nat, b: bool)
    requires Ready(s.tape) && BitsDecodable(r)
  {
    ExpectOne(s, r, k).ok == b && (!b ==> ExpectZero(ExpectOne(s, r, k).s, r, k).ok)
  }

  lemma BiphaseOne(s: Rx, r: Remote, k: nat, c: seq<Sig>, tail: seq<Sig>)
    requires r.IsBiphase() && Timed(r) && BitsDecodable(r)
    requires Sees(s, EncodeBit(r, k, true) + c, tail)
    ensures DecodesBit(s, r, k, true)
    ensures var t := AfterBit(s, r, k, true);
            Sees(t, c, tail) && Same(s.tape, t.tape) && t.pendingp == r.Stretch(k, r.pone)
  {
    var d, p := r.Stretch(k, r.sone), [Pulse(r.Stretch(k, r.pone))] + c;
    assert EncodeBit(r, k, true) + c == [Space(d)] + p;
    SpaceTry(s, r, d, d, p, tail);
    ExpectExact(r, d);
    OwePulse(ExpectSpace(s, r, d).s, r.Stretch(k, r.pone), c, tail);
  }

  lemma BiphaseZero(s: Rx, r: Remote, k: nat, c: seq<Sig>, tail: seq<Sig>)
    requires r.IsBiphase() && Timed(r) && BitsDecodable(r)
    requires Sees(s, EncodeBit(r, k, false) + c, tail)
    requires s.pendingp > 0 ==> !r.Expect(s.pendingp + r.Stretch(k, r.pzero), s.pendingp)
    requires s.pendings > 0 ==> !r.Expect(0, r.Stretch(k, r.sone))
    ensures DecodesBit(s, r, k, false)
    ensures var t := AfterBit(s, r, k, false);
            Sees(t, c, tail) && Same(s.tape, t.tape) && t.pendingp == 0
  {
    var d, p := r.Stretch(k, r.pzero), [Space(r.Stretch(k, r.szero))] + c;
    assert EncodeBit(r, k, false) + c == [Pulse(d)] + p;
    SpaceRefused(s, r, r.Stretch(k, r.sone), d, p, tail);
    var u := ExpectOne(s, r, k).s;
    PulseTry(u, r, d, d, p, tail);
    ExpectExact(r, d);
    OweSpace(ExpectPulse(u, r, d).s, r.Stretch(k, r.szero), c, tail);
  }

  lemma PulseFirstOne(s: Rx, r: Remote, k: nat, c: seq<Sig>, tail: seq<Sig>)
    requires !r.IsBiphase() && Timed(r) && BitsDecodable(r)
    requires Sees(s, EncodeBit(r, k, true) + c, tail)
    requires r.ptrail > 0 ==> StartsPulse(c)
    ensures DecodesBit(s, r, k, true)
    ensures var t := AfterBit(s, r, k, true);
            Sees(t, c, tail) && Same(s.tape, t.tape) && t.pendingp == 0
  {
    hide Air, Whole, Clock, ExpectPulse, ExpectSpace, Remote.Expect;
    var p := [Space(r.sone)] + c;
    assert EncodeBit(r, k, true) + c == [Pulse(r.pone)] + p;
    PulseTry(s, r, r.pone, r.pone, p, tail);
    ExpectExact(r, r.pone);
    var u := ExpectPulse(s, r, r.pone).s;
    if r.ptrail > 0 {
      SpaceTry(u, r, r.sone, r.sone, c, tail);
      ExpectExact(r, r.sone);
    } else {
      OweSpace(u, r.sone, c, tail);
    }
  }

  lemma NoStretch(r: Remote, k: nat, d: nat)
    requires r.rc6Mask == ZERO
    ensures r.Stretch(k, d) == d
  {
  }

  /** A zero whose pulse passes for that of a one is given back, pulse and space. */
  lemma SpaceGivenBack(s: Rx, r: Remote, c: seq<Sig>, tail: seq<Sig>)
    requires Timed(r) && StartsPulse(c)
    requires Sees(s, [Pulse(r.pzero)] + ([Space(r.szero)] + c), tail) && Owed(s) == []
    requires r.Expect(r.pzero, r.pone) && !r.Expect(r.szero, r.sone)
    ensures ExpectPulse(s, r, r.pone).ok
    ensures var y := ExpectSpace(ExpectPulse(s, r, r.pone).s, r, r.sone);
            && !y.ok && y.s.tape.rptr >= 2
            && Sees(Unget(y.s, 2), [Pulse(r.pzero)] + ([Space(r.szero)] + c), tail)
            && Same(s.tape, Unget(y.s, 2).tape)
  {
    hide Air, ExpectPulse, ExpectSpace, Whole, Clock;
    var p := [Space(r.szero)] + c;
    PulseTryNow(s, r, r.pone, r.pzero, p, tail);
    var u := ExpectPulse(s, r, r.pone).s;
    SpaceTryNow(u, r, r.sone, r.szero, c, tail);
    var y := ExpectSpace(u, r, r.sone);
    BackTwice(s.tape, Pulse(r.pzero), u.tape, Space(r.szero), y.s.tape);
  }

  /** The failed attempt to read a one leaves the zero to be read. */
  lemma OneRefused(s: Rx, r: Remote, k: nat, c: seq<Sig>, tail: seq<Sig>)
    requires !r.IsBiphase() && Timed(r) && BitsDecodable(r) && Distinct(r) && OwedPulse(s, r)
    requires Sees(s, [Pulse(r.pzero)] + ([Space(r.szero)] + c), tail)
    requires r.ptrail > 0 ==> StartsPulse(c)
    ensures var x := ExpectOne(s, r, k);
            !x.ok && Same(s.tape, x.s.tape) && Sees(x.s, [Pulse(r.pzero)] + ([Space(r.szero)] + c), tail)
  {
    var p := [Space(r.szero)] + c;
    PulseTry(s, r, r.pone, r.pzero, p, tail);
    if r.Expect(r.pzero, r.pone) {
      var t := s;
      if s.pendings > 0 {
        SyncSpaceExact(s, r, [Pulse(r.pzero)] + p, tail);
        t := SyncSpace(s, r).s;
        ExpectAfterSync(s, r, r.pone);
      }
      SpaceGivenBack(t, r, c, tail);
    }
  }

  lemma ZeroTaken(s: Rx, r: Remote, k: nat, c: seq<Sig>, tail: seq<Sig>)
    requires !r.IsBiphase() && Timed(r)
    requires Sees(s, [Pulse(r.pzero)] + ([Space(r.szero)] + c), tail)
    requires r.ptrail > 0 ==> StartsPulse(c)
    ensures var x := ExpectZero(s, r, k);
            x.ok && Sees(x.s, c, tail) && Same(s.tape, x.s.tape) && x.s.pendingp == 0
  {
    PulseTry(s, r, r.pzero, r.pzero, [Space(r.szero)] + c, tail);
    ExpectExact(r, r.pzero);
    var v := ExpectPulse(s, r, r.pzero).s;
    if r.ptrail > 0 {
      SpaceTry(v, r, r.szero, r.szero, c, tail);
      ExpectExact(r, r.szero);
      assert ExpectZero(s, r, k) == ExpectSpace(v, r, r.szero);
    } else {
      OweSpace(v, r.szero, c, tail);
      assert ExpectZero(s, r, k) == Step(v.(pendings := r.szero), true);
    }
  }

  lemma PulseFirstZero(s: Rx, r: Remote, k: nat, c: seq<Sig>, tail: seq<Sig>)
    requires !r.IsBiphase() && Timed(r) && BitsDecodable(r) && Distinct(r) && OwedPulse(s, r)
    requires Sees(s, EncodeBit(r, k, false) + c, tail)
    requires r.ptrail > 0 ==> StartsPulse(c)
    ensures DecodesBit(s, r, k, false)
    ensures var t := AfterBit(s, r, k, false);
            Sees(t, c, tail) && Same(s.tape, t.tape) && t.pendingp == 0
  {
    NoStretch(r, k, r.pzero);
    NoStretch(r, k, r.szero);
    var p := [Space(r.szero)] + c;
    assert EncodeBit(r, k, false) + c == [Pulse(r.pzero)] + p;
    OneRefused(s, r, k, c, tail);
    ZeroTaken(ExpectOne(s, r, k).s, r, k, c, tail);
  }

  /** Any bit: the decoder takes it for what it is and sees what follows. */
  lemma BitRoundTrip(s: Rx, r: Remote, k: nat, b: bool, c: seq<Sig>, tail: seq<Sig>)
    requires Timed(r) && BitsDecodable(r) && Unambiguous(r) && OwedPulse(s, r) && OneBitSymbols(r)
    requires Sees(s, EncodeBit(r, k, b) + c, tail)
    requires !r.IsBiphase() && r.ptrail > 0 ==> StartsPulse(c)
    ensures DecodesBit(s, r, k, b)
    ensures var t := AfterBit(s, r, k, b);
            Sees(t, c, tail) && Same(s.tape, t.tape) && OwedPulse(t, r)
  {
    hide Sees, DecodesBit, EncodeBit, Same, ExpectOne, ExpectZero;
    StretchCases(r, k, r.pone);
    StretchCases(r, k, r.pzero);
    StretchCases(r, k, r.sone);
    if r.IsBiphase() {
      if b { BiphaseOne(s, r, k, c, tail); } else { BiphaseZero(s, r, k, c, tail); }
    } else {
      if b { PulseFirstOne(s, r, k, c, tail); } else { PulseFirstZero(s, r, k, c, tail); }
    }
  }

  lemma GetBitsStep(s: Rx, r: Remote, n: nat, k: nat, b: bool, code: Word)
    requires Ready(s.tape) && BitsDecodable(r) && n > 0 && DecodesBit(s, r, k, b)
    ensures GetBits(s, r, n, k, code) == GetBits(AfterBit(s, r, k, b), r, n - 1, k + 1, ShiftIn(code, b))
  {
  }

  lemma EncodeBitsFirst(r: Remote, k: nat, bs: seq<bool>, c: seq<Sig>)
    requires bs != []
    ensures EncodeBits(r, k, bs) + c == EncodeBit(r, k, bs[0]) + (EncodeBits(r, k + 1, bs[1..]) + c)
  {
  }

  lemma EncodeBitsStartPulse(r: Remote, k: nat, bs: seq<bool>, c: seq<Sig>)
    requires !r.IsBiphase() && (bs == [] ==> StartsPulse(c))
    ensures StartsPulse(EncodeBits(r, k, bs) + c)
  {
  }

  lemma ShiftInFirst(code: Word, bs: seq<bool>)
    requires 0 < |bs| <= 64
    ensures ShiftInAll(ShiftIn(code, bs[0]), bs[1..]) == ShiftInAll(code, bs)
  {
  }

  /** The data `d`, decoded from `s`, is `code`, and `c` is seen next. */
  predicate Received(s: Rx, r: Remote, d: Data, code: Word, c: seq<Sig>, tail: seq<Sig>) {
    d.code == code && Sees(d.s, c, tail) && Same(s.tape, d.s.tape) && OwedPulse(d.s, r)
  }

  lemma ReceivedFrom(s: Rx, t: Rx, r: Remote, d: Data, code: Word, c: seq<Sig>, tail: seq<Sig>)
    requires Same(s.tape, t.tape) && Received(t, r, d, code, c, tail)
    ensures Received(s, r, d, code, c, tail)
  {
  }

  /** Decoding undoes encoding, for any bits in any receiver state that sees them. */
  lemma {:induction false} BitsRoundTrip(s: Rx, r: Remote, bs: seq<bool>, k: nat, code: Word, c: seq<Sig>,
                                         tail: seq<Sig>)
    requires Timed(r) && BitsDecodable(r) && Unambiguous(r) && OwedPulse(s, r) && OneBitSymbols(r) && |bs| <= 64
    requires Sees(s, EncodeBits(r, k, bs) + c, tail)
    requires !r.IsBiphase() && r.ptrail > 0 ==> StartsPulse(c)
    ensures Received(s, r, GetBits(s, r, |bs|, k, code), ShiftInAll(code, bs), c, tail)
    decreases |bs|
  {
    if bs == [] {
      OwedNothing(c);
      assert ShiftInAll(code, []) == code;
    } else {
      var rest := EncodeBits(r, k + 1, bs[1..]) + c;
      EncodeBitsFirst(r, k, bs, c);
      if !r.IsBiphase() && r.ptrail > 0 { EncodeBitsStartPulse(r, k + 1, bs[1..], c); }
      BitRoundTrip(s, r, k, bs[0], rest, tail);
      var t, bs', code' := AfterBit(s, r, k, bs[0]), bs[1..], ShiftIn(code, bs[0]);
      BitsRoundTrip(t, r, bs', k + 1, code', c, tail);
      ShiftInFirst(code, bs);
      var d := GetBits(t, r, |bs'|, k + 1, code');
      ReceivedFrom(s, t, r, d, ShiftInAll(code', bs'), c, tail);
      assert |bs'| == |bs| - 1;
      GetBitsStep(s, r, |bs|, k, bs[0], code);
    }
  }
}
