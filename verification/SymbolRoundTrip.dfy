/** RC-MM and XMP, whose symbols stand for several bits, and data words of any protocol. */
module SymbolRoundTrip {
  import opened Options
  import opened Words
  import opened Signals
  import opened Remotes
  import opened Transmit
  import opened RecBuffers
  import opened Receive
  import opened RoundTrip
  import opened BitRoundTrip

  /** No RC-MM symbol is within tolerance of one that is tested before it. */
  predicate PairsDistinct(r: Remote) {
    var s0, s1, s2, s3 := r.pzero + r.szero, r.pone + r.sone, r.ptwo + r.stwo, r.pthree + r.sthree;
    && !r.Expect(s1, s0)
    && !r.Expect(s2, s0) && !r.Expect(s2, s1)
    && !r.Expect(s3, s0) && !r.Expect(s3, s1) && !r.Expect(s3, s2)
  }

  predicate PairsTimed(r: Remote) {
    Timed(r) && r.ptwo > 0 && r.stwo > 0 && r.pthree > 0 && r.sthree > 0
  }

  lemma PairRecognised(r: Remote, hi: bool, lo: bool)
    requires PairsDistinct(r)
    ensures var c := EncodePair(r, hi, lo);
            |c| == 2 && PairOf(r, c[0].len + c[1].len) == Some([hi, lo])
  {
    ExpectExact(r, r.pzero + r.szero);
    ExpectExact(r, r.pone + r.sone);
    ExpectExact(r, r.ptwo + r.stwo);
    ExpectExact(r, r.pthree + r.sthree);
  }

  lemma MulMonotone(x: int, y: int, u: nat)
    ensures x <= y ==> x * u <= y * u
  {
  }

  lemma QuotientIs(a: int, u: nat, n: int)
    requires u > 0 && n * u <= a < n * u + u
    ensures a / u == n
  {
    var q := a / u;
    assert q * u <= a < q * u + u;
    MulMonotone(q + 1, n, u);
    MulMonotone(n + 1, q, u);
  }

  lemma TruncDivAroundOne(a: int, u: nat)
    requires u > 0
    ensures TruncDiv(a, u) >= 1 <==> a >= u
  {
    if a >= u {
      MulMonotone(a / u, 0, u);
    } else if a >= 0 {
      QuotientIs(a, u, 0);
    }
  }

  lemma NibbleRounded(r: Remote, n: nat, e: int)
    requires r.sone > 0 && -(r.sone / 2) <= e < r.sone - r.sone / 2 && n < 16
    ensures NibbleOf(r, r.pzero + XmpSpace(r, n) + e) == Some(n)
  {
    QuotientIs(n * r.sone + e + r.sone / 2, r.sone, n);
  }

  lemma NibbleZeroOne(r: Remote, e: int)
    requires r.sone > 0
    requires NibbleOf(r, r.pzero + XmpSpace(r, 0) + e) == Some(0)
    requires NibbleOf(r, r.pzero + XmpSpace(r, 1) + e) == Some(1)
    ensures -(r.sone / 2) <= e < r.sone - r.sone / 2
  {
    TruncDivAroundOne(e + r.sone / 2, r.sone);
    TruncDivAroundOne(r.sone + e + r.sone / 2, r.sone);
  }

  /** An XMP symbol whose length is off by `e` still gives its nibble, for every nibble, exactly
      when the error is less than half a unit. */
  lemma NibbleTolerance(r: Remote, e: int)
    requires r.sone > 0
    ensures (forall n: nat :: n < 16 ==> NibbleOf(r, r.pzero + XmpSpace(r, n) + e) == Some(n))
       <==> -(r.sone / 2) <= e < r.sone - r.sone / 2
  {
    hide NibbleOf, XmpSpace;
    if -(r.sone / 2) <= e < r.sone - r.sone / 2 {
      forall n: nat | n < 16
        ensures NibbleOf(r, r.pzero + XmpSpace(r, n) + e) == Some(n)
      {
        NibbleRounded(r, n, e);
      }
    }
    if forall n: nat :: n < 16 ==> NibbleOf(r, r.pzero + XmpSpace(r, n) + e) == Some(n) {
      NibbleZeroOne(r, e);
    }
  }

  lemma NibbleBitsOf(bs: seq<bool>)
    requires |bs| == 4
    ensures NibbleBits(Nibble(bs)) == bs
  {
  }

  function AfterSymbol(s: Rx, m: nat, n: nat): (t: Rx)
    requires Ready(s.tape)
    ensures Ready(t.tape)
  {
    NextSpace(NextPulse(s, m).s, n).s
  }

  /** The symbol is a pulse of length `p` and a space of length `q`. */
  predicate Symbol(s: Rx, m: nat, n: nat, p: nat, q: nat)
    requires Ready(s.tape)
  {
    NextPulse(s, m).len == p && NextSpace(NextPulse(s, m).s, n).len == q
  }

  /** One symbol: a pulse and a space, each bounded by the next. */
  lemma SymbolRead(s: Rx, m: nat, n: nat, p: nat, q: nat, c: seq<Sig>, tail: seq<Sig>)
    requires Sees(s, [Pulse(p)] + ([Space(q)] + c), tail) && Owed(s) == [] && StartsPulse(c) && p > 0 && q > 0
    ensures Symbol(s, m, n, p, q)
    ensures var t := AfterSymbol(s, m, n);
            Sees(t, c, tail) && Owed(t) == [] && Same(s.tape, t.tape)
  {
    var sc := [Space(q)] + c;
    PulseIsAhead(s, p, sc, tail);
    NextReads(s.tape, m, Pulse(p), Air(sc) + tail);
    var x := NextPulse(s, m);
    OwedNothing(sc);
    SpaceIsAhead(x.s, q, c, tail);
    NextReads(x.s.tape, n, Space(q), Air(c) + tail);
    OwedNothing(c);
  }

  /** What data has to be followed by, so that its last space is bounded. */
  predicate NeedsPulse(r: Remote) {
    r.protocol.Rcmm? || r.protocol.Xmp? || (!r.IsBiphase() && r.ptrail > 0)
  }

  lemma PairsFirst(r: Remote, bs: seq<bool>, c: seq<Sig>)
    requires |bs| >= 2
    ensures var e := EncodePair(r, bs[0], bs[1]);
            EncodePairs(r, bs) + c == [Pulse(e[0].len)] + ([Space(e[1].len)] + (EncodePairs(r, bs[2..]) + c))
  {
  }

  lemma ShiftInSome(code: Word, bs: seq<bool>, k: nat)
    requires k <= |bs| <= 64
    ensures ShiftInAll(ShiftInAll(code, bs[..k]), bs[k..]) == ShiftInAll(code, bs)
  {
  }

  lemma ShiftInTwo(code: Word, bs: seq<bool>)
    requires 2 <= |bs| <= 64
    ensures ShiftInAll(ShiftInAll(code, [bs[0], bs[1]]), bs[2..]) == ShiftInAll(code, bs)
  {
    assert bs[..2] == [bs[0], bs[1]];
    ShiftInSome(code, bs, 2);
  }

  lemma PairStep(s: Rx, r: Remote, m: nat, n: nat, bits: nat, code: Word, bs: seq<bool>)
    requires Ready(s.tape) && bits >= 2 && |bs| == 2
    requires m == r.pzero + r.pone + r.ptwo + r.pthree && n == r.szero + r.sone + r.stwo + r.sthree
    requires var x := NextPulse(s, m);
             var y := NextSpace(x.s, n);
             x.len > 0 && y.len > 0 && PairOf(r, x.len + y.len) == Some(bs)
    ensures GetPairs(s, r, bits, code) == GetPairs(AfterSymbol(s, m, n), r, bits - 2, ShiftInAll(code, bs))
  {
    hide NextPulse, NextSpace, PairOf, ShiftInAll, Ready;
  }

  lemma PairSymbol(s: Rx, r: Remote, m: nat, n: nat, hi: bool, lo: bool, bits: nat, code: Word)
    requires Ready(s.tape) && bits >= 2 && PairsTimed(r) && PairsDistinct(r)
    requires m == r.pzero + r.pone + r.ptwo + r.pthree && n == r.szero + r.sone + r.stwo + r.sthree
    requires var e := EncodePair(r, hi, lo);
             Symbol(s, m, n, e[0].len, e[1].len)
    ensures GetPairs(s, r, bits, code) == GetPairs(AfterSymbol(s, m, n), r, bits - 2, ShiftInAll(code, [hi, lo]))
  {
    hide GetPairs, PairOf, PairsDistinct, ShiftInAll, NextPulse, NextSpace;
    PairRecognised(r, hi, lo);
    PairStep(s, r, m, n, bits, code, [hi, lo]);
  }

  lemma PairSeen(s: Rx, r: Remote, m: nat, n: nat, bs: seq<bool>, c: seq<Sig>, tail: seq<Sig>)
    requires PairsTimed(r) && |bs| >= 2
    requires Sees(s, EncodePairs(r, bs) + c, tail) && StartsPulse(c) && Owed(s) == []
    ensures var e := EncodePair(r, bs[0], bs[1]);
            Symbol(s, m, n, e[0].len, e[1].len)
    ensures var t := AfterSymbol(s, m, n);
            Sees(t, EncodePairs(r, bs[2..]) + c, tail) && Owed(t) == [] && Same(s.tape, t.tape)
  {
    PairsFirst(r, bs, c);
    var e := EncodePair(r, bs[0], bs[1]);
    SymbolRead(s, m, n, e[0].len, e[1].len, EncodePairs(r, bs[2..]) + c, tail);
  }

  lemma {:induction false} PairsRoundTrip(s: Rx, r: Remote, bs: seq<bool>, k: nat, code: Word, c: seq<Sig>,
                                          tail: seq<Sig>)
    requires r.protocol.Rcmm? && PairsTimed(r) && PairsDistinct(r) && |bs| == 2 * k <= 64
    requires Sees(s, EncodePairs(r, bs) + c, tail) && StartsPulse(c) && Owed(s) == []
    ensures Received(s, r, GetPairs(s, r, |bs|, code), ShiftInAll(code, bs), c, tail)
    decreases |bs|
  {
    hide Air, PairsDistinct, AfterSymbol;
    if |bs| < 2 {
      OwedNothing(c);
      assert ShiftInAll(code, []) == code;
    } else {
      var m, n := r.pzero + r.pone + r.ptwo + r.pthree, r.szero + r.sone + r.stwo + r.sthree;
      PairSeen(s, r, m, n, bs, c, tail);
      var t, bs', code' := AfterSymbol(s, m, n), bs[2..], ShiftInAll(code, [bs[0], bs[1]]);
      PairsRoundTrip(t, r, bs', k - 1, code', c, tail);
      ShiftInTwo(code, bs);
      ReceivedFrom(s, t, r, GetPairs(t, r, |bs'|, code'), ShiftInAll(code, bs), c, tail);
      assert |bs'| == |bs| - 2;
      PairSymbol(s, r, m, n, bs[0], bs[1], |bs|, code);
    }
  }

  lemma NibblesFirst(r: Remote, bs: seq<bool>, c: seq<Sig>)
    requires |bs| >= 4
    ensures EncodeNibbles(r, bs) + c
         == [Pulse(r.pzero)] + ([Space(XmpSpace(r, Nibble(bs[..4])))] + (EncodeNibbles(r, bs[4..]) + c))
  {
  }

  lemma NibbleRecognised(r: Remote, bs: seq<bool>)
    requires |bs| == 4 && r.sone > 0
    ensures NibbleOf(r, r.pzero + XmpSpace(r, Nibble(bs))) == Some(Nibble(bs))
    ensures XmpSpace(r, Nibble(bs)) >= r.szero
  {
    NibbleRounded(r, Nibble(bs), 0);
  }

  lemma NibbleStep(s: Rx, r: Remote, n: nat, bits: nat, code: Word, v: nat)
    requires Ready(s.tape) && bits >= 4 && r.sone > 0
    requires n == r.szero + 16 * r.sone
    requires var x := NextPulse(s, r.pzero);
             var y := NextSpace(x.s, n);
             x.len > 0 && y.len > 0 && NibbleOf(r, x.len + y.len) == Some(v)
    ensures GetNibbles(s, r, bits, code)
         == GetNibbles(AfterSymbol(s, r.pzero, n), r, bits - 4, ShiftInAll(code, NibbleBits(v)))
  {
    hide NextPulse, NextSpace, NibbleOf, NibbleBits, ShiftInAll, Ready;
  }

  lemma NibbleSymbol(s: Rx, r: Remote, n: nat, v: seq<bool>, bits: nat, code: Word)
    requires Ready(s.tape) && bits >= 4 && r.pzero > 0 && r.szero > 0 && r.sone > 0 && |v| == 4
    requires n == r.szero + 16 * r.sone
    requires Symbol(s, r.pzero, n, r.pzero, XmpSpace(r, Nibble(v)))
    ensures GetNibbles(s, r, bits, code)
         == GetNibbles(AfterSymbol(s, r.pzero, n), r, bits - 4, ShiftInAll(code, v))
  {
    NibbleRecognised(r, v);
    NibbleBitsOf(v);
    NibbleStep(s, r, n, bits, code, Nibble(v));
  }

  lemma {:induction false} NibblesRoundTrip(s: Rx, r: Remote, bs: seq<bool>, k: nat, code: Word, c: seq<Sig>,
                                            tail: seq<Sig>)
    requires r.protocol.Xmp? && r.pzero > 0 && r.szero > 0 && r.sone > 0 && |bs| == 4 * k <= 64
    requires Sees(s, EncodeNibbles(r, bs) + c, tail) && StartsPulse(c) && Owed(s) == []
    ensures Received(s, r, GetNibbles(s, r, |bs|, code), ShiftInAll(code, bs), c, tail)
    decreases |bs|
  {
    hide Air, AfterSymbol;
    if |bs| < 4 {
      OwedNothing(c);
      assert ShiftInAll(code, []) == code;
    } else {
      NibblesFirst(r, bs, c);
      var v, rest := Nibble(bs[..4]), EncodeNibbles(r, bs[4..]) + c;
      var q, n := XmpSpace(r, v), r.szero + 16 * r.sone;
      assert q > 0 by { NibbleRecognised(r, bs[..4]); }
      SymbolRead(s, r.pzero, n, r.pzero, q, rest, tail);
      var t, bs', code' := AfterSymbol(s, r.pzero, n), bs[4..], ShiftInAll(code, bs[..4]);
      NibblesRoundTrip(t, r, bs', k - 1, code', c, tail);
      ShiftInSome(code, bs, 4);
      var d := GetNibbles(t, r, |bs'|, code');
      ReceivedFrom(s, t, r, d, ShiftInAll(code', bs'), c, tail);
      assert |bs'| == |bs| - 4;
      NibbleSymbol(s, r, n, bs[..4], |bs|, code);
    }
  }

  /** A space that is owed before RC-MM or XMP data and fails to arrive makes that data 0, which is a
      code like any other. */
  lemma OwedSpaceMakesZero(s: Rx, r: Remote, bits: nat, done: nat)
    requires Ready(s.tape) && Decodable(r) && s.pendings > 0
    requires Ahead(s.tape) != [] && (Ahead(s.tape)[0].Pulse? || !r.Expect(Ahead(s.tape)[0].len, s.pendings))
    requires r.protocol.Rcmm? ==> bits % 2 == 0 && done % 2 == 0
    requires r.protocol.Xmp? ==> bits % 4 == 0 && done % 4 == 0
    requires r.protocol.Rcmm? || r.protocol.Xmp?
    ensures GetData(s, r, bits, done).code == ZERO
  {
    hide Whole, Clock, Next, GetPairs, GetNibbles, Remote.Expect;
    var a := Ahead(s.tape);
    assert a == [a[0]] + a[1..];
    NextReads(s.tape, s.pendings, a[0], a[1..]);
  }
}
