/** What the frame round trip means for a user of a remote: a code that fits its width, sent
    without toggles, is received as it is. */
module CodeSurvives {
  import opened Words
  import opened Signals
  import opened SendBuffers
  import opened Remotes
  import opened Transmit
  import opened RecBuffers
  import opened Receive
  import opened RoundTrip
  import opened BitRoundTrip
  import opened SymbolRoundTrip
  import opened Patterns
  import opened FrameRoundTrip
  import opened RepeatCodes
  import opened DecodeRoundTrip

  // ----- every signal of a frame has a length -----

  lemma PositiveConcat(a: seq<Sig>, b: seq<Sig>)
    requires Positive(a) && Positive(b)
    ensures Positive(a + b)
  {
  }

  lemma PositiveTwo(a: Sig, b: Sig)
    requires a.len > 0 && b.len > 0
    ensures Positive([a, b])
  {
  }

  lemma {:induction false} BitsPositive(r: Remote, done: nat, bs: seq<bool>)
    requires Timed(r)
    ensures Positive(EncodeBits(r, done, bs))
    decreases |bs|
  {
    if bs == [] {
    } else {
      BitsPositive(r, done + 1, bs[1..]);
      var e := EncodeBit(r, done, bs[0]);
      PositiveTwo(e[0], e[1]);
      PositiveConcat(e, EncodeBits(r, done + 1, bs[1..]));
    }
  }

  lemma {:induction false} PairsPositive(r: Remote, bs: seq<bool>)
    requires PairsTimed(r)
    ensures Positive(EncodePairs(r, bs))
    decreases |bs|
  {
    if |bs| >= 2 {
      PairsPositive(r, bs[2..]);
      PositiveConcat(EncodePair(r, bs[0], bs[1]), EncodePairs(r, bs[2..]));
    }
  }

  lemma {:induction false} NibblesPositive(r: Remote, bs: seq<bool>)
    requires r.pzero > 0 && r.szero > 0
    ensures Positive(EncodeNibbles(r, bs))
    decreases |bs|
  {
    if |bs| >= 4 {
      NibblesPositive(r, bs[4..]);
      PositiveConcat(EncodeNibble(r, bs[..4]), EncodeNibbles(r, bs[4..]));
    }
  }

  lemma DataPositive(r: Remote, t: Toggles, w: Word, bits: nat, done: nat)
    requires Sendable(r) && done + bits <= r.BitCount()
    ensures Positive(DataSignals(r, t, w, bits, done))
  {
    match r.protocol
    case Rcmm => PairsPositive(r, Low(w, bits));
    case Xmp => NibblesPositive(r, Low(w, bits));
    case _ => BitsPositive(r, done, AirBits(r, t, done, Low(w, bits)));
  }

  lemma AnyFrameNested(r: Remote, t: Toggles, code: Word, repeat: bool)
    requires r.BitCount() <= 64
    ensures FrameSignals(r, t, code, repeat)
         == (if !repeat || !r.noHeadRep then HeaderSignals(r) else [])
              + AfterHeader(r, t, code, if !repeat || !r.noFootRep then FootSignals(r) else [])
  {
    hide HeaderSignals, LeadSignals, PreSignals, DataSignals, PostSignals, TrailSignals, FootSignals;
  }

  lemma AllDataPositive(r: Remote, t: Toggles, code: Word)
    requires Sendable(r)
    ensures r.BitCount() <= 64
    ensures Positive(PreSignals(r, t)) && Positive(PostSignals(r, t))
    ensures Positive(DataSignals(r, t, code, r.bits, r.preDataBits))
  {
    hide DataSignals, Positive, PreSignals, PostSignals;
    DataPositive(r, t, r.preData, r.preDataBits, 0);
    DataPositive(r, t, code, r.bits, r.preDataBits);
    DataPositive(r, t, r.postData, r.postDataBits, r.preDataBits + r.bits);
    PartsPositive(r, t);
  }

  lemma AnyFramePositive(r: Remote, t: Toggles, code: Word, repeat: bool)
    requires Sendable(r)
    ensures Positive(FrameSignals(r, t, code, repeat))
  {
    hide DataSignals, Positive, PreSignals, PostSignals, HeaderSignals, LeadSignals, TrailSignals, FootSignals,
         FrameSignals;
    AllDataPositive(r, t, code);
    OtherPartsPositive(r);
    DividersPositive(r);
    var head := if !repeat || !r.noHeadRep then HeaderSignals(r) else [];
    var foot := if !repeat || !r.noFootRep then FootSignals(r) else [];
    PositiveConcat(TrailSignals(r), foot);
    PositiveConcat(PostSignals(r, t), TrailSignals(r) + foot);
    PositiveConcat(DataSignals(r, t, code, r.bits, r.preDataBits), AfterCode(r, t, foot));
    PositiveConcat(PreSignals(r, t), AfterPre(r, t, code, foot));
    PositiveConcat(LeadSignals(r), PreSignals(r, t) + AfterPre(r, t, code, foot));
    PositiveConcat(head, AfterHeader(r, t, code, foot));
    AnyFrameNested(r, t, code, repeat);
  }

  lemma FramePositive(r: Remote, t: Toggles, code: Word)
    requires Sound(r)
    ensures Positive(FrameSignals(r, t, code, false))
  {
    SoundSplits(r);
    AnyFramePositive(r, t, code, false);
  }

  lemma OtherPartsPositive(r: Remote)
    ensures Positive(HeaderSignals(r)) && Positive(LeadSignals(r))
    ensures Positive(TrailSignals(r)) && Positive(FootSignals(r))
  {
  }

  lemma DividersPositive(r: Remote)
    ensures Positive(Divider(r.preP, r.preS)) && Positive(Divider(r.postP, r.postS)) && Positive([])
  {
  }

  lemma PartsPositive(r: Remote, t: Toggles)
    requires r.BitCount() <= 64
    requires Positive(DataSignals(r, t, r.preData, r.preDataBits, 0))
    requires Positive(DataSignals(r, t, r.postData, r.postDataBits, r.preDataBits + r.bits))
    ensures Positive(PreSignals(r, t)) && Positive(PostSignals(r, t))
  {
    DividersPositive(r);
    hide DataSignals, Positive;
    var pre := DataSignals(r, t, r.preData, r.preDataBits, 0);
    var post := DataSignals(r, t, r.postData, r.postDataBits, r.preDataBits + r.bits);
    PositiveConcat(pre, Divider(r.preP, r.preS));
    PositiveConcat(Divider(r.postP, r.postS), post);
    assert r.HasPre() ==> PreSignals(r, t) == pre + Divider(r.preP, r.preS);
    assert r.HasPost() ==> PostSignals(r, t) == Divider(r.postP, r.postS) + post;
  }

  // ----- when the conditions hold -----

  /** A length that is off by a half-bit or more is not accepted. */
  lemma FarIsRefused(r: Remote, delta: nat, ex: nat, h: nat)
    requires ex <= 2 * h && r.eps < 50 && r.Aeps() < h
    requires delta + h <= ex || ex + h <= delta
    ensures !r.Expect(delta, ex)
  {
    SlackBelow(ex, r.eps, h);
  }

  lemma ProductGrows(a: nat, b: nat, c: nat)
    requires a <= b
    ensures a * c <= b * c
  {
  }

  lemma SlackBelow(ex: nat, eps: nat, h: nat)
    requires ex <= 2 * h && eps <= 49 && h > 0
    ensures ex * eps / 100 < h
  {
    ProductGrows(ex, 2 * h, eps);
    ProductGrows(eps, 49, 2 * h);
    var product := ex * eps;
    assert product <= 98 * h;
  }

  /** Biphase with equal half-bits: a tolerance below one half, and an absolute one below a
      half-bit, are small enough. */
  lemma HalfBitTolerance(r: Remote, h: nat)
    requires r.IsBiphase() && r.pone == h && r.sone == h && r.pzero == h && r.szero == h
    requires r.plead <= 2 * h && r.eps < 50 && r.Aeps() < h
    ensures Separable(r)
  {
    FarIsRefused(r, r.plead + h, r.plead, h);
    FarIsRefused(r, r.plead + 2 * h, r.plead, h);
    FarIsRefused(r, h + h, h, h);
    FarIsRefused(r, h + 2 * h, h, h);
    FarIsRefused(r, 2 * h + h, 2 * h, h);
    FarIsRefused(r, 2 * h + 2 * h, 2 * h, h);
    FarIsRefused(r, 0, h, h);
    FarIsRefused(r, 0, 2 * h, h);
  }

  /** A lead pulse, or data that begins with a pulse. */
  predicate BodyBegins(r: Remote) {
    r.plead > 0 || (PulseFirst(r) && (r.ptrail > 0 || SendsSymbols(r, r.bits, r.preDataBits)))
  }

  /** That, or a header that is not decided on at once. */
  predicate BeginsWithPulse(r: Remote) {
    BodyBegins(r) || (r.HasHeader() && !HeaderAtOnce(r))
  }

  lemma BodyStartsPulse(r: Remote, t: Toggles, code: Word, foot: seq<Sig>)
    requires r.BitCount() <= 64 && BodyBegins(r)
    ensures StartsPulse(AfterHeader(r, t, code, foot))
  {
    hide DataSignals, PreSignals, PostSignals;
    if r.plead == 0 {
      if r.ptrail > 0 {
        RestStartsPulse(r, t, code, foot);
      } else {
        DataStartsPulse(r, t, code, r.bits, r.preDataBits, AfterCode(r, t, foot));
      }
      PreStartsPulse(r, t, AfterPre(r, t, code, foot));
    }
  }

  lemma BeginsTransmissible(r: Remote, t: Toggles, code: Word)
    requires Sound(r) && BeginsWithPulse(r)
    ensures Transmissible(r, t, code)
  {
    hide Sound, AfterHeader, FrameSignals, BodyBegins;
    SoundSplits(r);
    FrameNested(r, t, code);
    if BodyBegins(r) { BodyStartsPulse(r, t, code, FootSignals(r)); }
  }

  lemma PreStartsPulse(r: Remote, t: Toggles, c: seq<Sig>)
    requires r.BitCount() <= 64 && PulseFirst(r) && StartsPulse(c)
    ensures StartsPulse(PreSignals(r, t) + c)
  {
    hide DataSignals;
    if r.HasPre() {
      var d, v := DataSignals(r, t, r.preData, r.preDataBits, 0), Divider(r.preP, r.preS);
      assert StartsPulse(v + c);
      DataStartsPulse(r, t, r.preData, r.preDataBits, 0, v + c);
      assert PreSignals(r, t) == d + v;
      assert PreSignals(r, t) + c == d + (v + c);
    }
  }

  /** The configured data fits the configured widths. */
  predicate DataFits(r: Remote, code: Word)
    requires r.BitCount() <= 64
  {
    Fits(r.preData, r.preDataBits) && Fits(code, r.bits) && Fits(r.postData, r.postDataBits)
  }

  lemma ZeroWidth(w: Word)
    requires Fits(w, 0)
    ensures w == ZERO
  {
    assert FromBits([]) == ZERO;
  }

  // ----- frames and repeat codes -----

  /** A first bit of these lengths ends what might be a repeat code: its pulse is no trail pulse, or
      its space is no gap. */
  predicate BitUnlike(r: Remote, p: nat, d: nat) {
    !r.Expect(p, r.ptrail) || !r.ExpectAtLeast(d, RepeatGapOf(r, r.MinGap(), r.phead + r.shead + p))
  }

  /** The header or the first bit of a frame is always told from the repeat code. */
  predicate FramesUnlike(r: Remote) {
    && OneBitSymbols(r) && !r.IsBiphase() && r.plead == 0 && r.ptrail > 0 && r.preDataBits + r.bits > 0
    && r.HasHeader() && !r.repeatHeader
    && (!r.Expect(r.phead, r.prepeat) || !r.Expect(r.shead, r.srepeat)
        || (BitUnlike(r, r.pone, r.sone) && BitUnlike(r, r.pzero, r.szero)))
  }

  /** The first bit of some data, and what follows it. */
  lemma DataStarts(r: Remote, t: Toggles, w: Word, bits: nat, done: nat, c: seq<Sig>)
    returns (p: nat, d: nat, rest: seq<Sig>)
    requires OneBitSymbols(r) && !r.IsBiphase() && 0 < bits && done + bits <= r.BitCount() <= 64 && StartsPulse(c)
    ensures DataSignals(r, t, w, bits, done) + c == [Pulse(p), Space(d)] + rest && StartsPulse(rest)
    ensures (p == r.pone && d == r.sone) || (p == r.pzero && d == r.szero)
  {
    var bs := AirBits(r, t, done, Low(w, bits));
    var e := EncodeBit(r, done, bs[0]);
    NoStretch(r, done, r.pzero);
    NoStretch(r, done, r.szero);
    p, d, rest := e[0].len, e[1].len, EncodeBits(r, done + 1, bs[1..]) + c;
    if bs[1..] == [] { assert rest == c; } else { EncodeBitsStartPulse(r, done + 1, bs[1..], c); }
    assert e == [Pulse(p), Space(d)];
    assert DataSignals(r, t, w, bits, done) + c == e + rest;
  }

  lemma FrameStarts(r: Remote, t: Toggles, code: Word) returns (p: nat, d: nat, rest: seq<Sig>)
    requires Sound(r) && FramesUnlike(r)
    ensures FrameSignals(r, t, code, false) == [Pulse(r.phead), Space(r.shead), Pulse(p), Space(d)] + rest
    ensures StartsPulse(rest) && ((p == r.pone && d == r.sone) || (p == r.pzero && d == r.szero))
  {
    hide Sound, DataSignals, PostSignals, TrailSignals, FootSignals, BitUnlike, Remote.Expect;
    SoundSplits(r);
    FrameNested(r, t, code);
    var foot := FootSignals(r);
    RestStartsPulse(r, t, code, foot);
    if r.HasPre() {
      var v := Divider(r.preP, r.preS);
      p, d, rest := DataStarts(r, t, r.preData, r.preDataBits, 0, v + AfterPre(r, t, code, foot));
      assert PreSignals(r, t) == DataSignals(r, t, r.preData, r.preDataBits, 0) + v;
      assert PreSignals(r, t) + AfterPre(r, t, code, foot) == [Pulse(p), Space(d)] + rest;
    } else {
      p, d, rest := DataStarts(r, t, code, r.bits, r.preDataBits, AfterCode(r, t, foot));
      assert AfterPre(r, t, code, foot) == [Pulse(p), Space(d)] + rest;
    }
    assert AfterHeader(r, t, code, foot) == [Pulse(p), Space(d)] + rest;
  }

  lemma AirOfFour(a: nat, b: nat, p: nat, d: nat, rest: seq<Sig>)
    requires StartsPulse(rest)
    ensures Air([Pulse(a), Space(b), Pulse(p), Space(d)] + rest)
         == [Pulse(a), Space(b), Pulse(p), Space(d)] + Air(rest)
  {
    hide Air;
    AirSpace(0, d, rest);
    AirPulse(0, p, [Space(d)] + rest);
    AirSpace(0, b, [Pulse(p)] + ([Space(d)] + rest));
    AirPulse(0, a, [Space(b)] + ([Pulse(p)] + ([Space(d)] + rest)));
    assert [Pulse(a), Space(b), Pulse(p), Space(d)] + rest
        == [Pulse(a)] + ([Space(b)] + ([Pulse(p)] + ([Space(d)] + rest)));
  }

  lemma TotalOfFour(a: seq<Sig>)
    requires |a| >= 3
    ensures Total(a) == a[0].len + a[1].len + a[2].len + Total(a[3..])
  {
    assert a[1..][1..] == a[2..] && a[2..][1..] == a[3..];
  }

  /** Such frames are received as frames also where a repeat code might come. */
  lemma FramesAreTold(r: Remote, t: Toggles, code: Word, c: Context, tail: seq<Sig>)
    requires Sound(r) && FramesUnlike(r)
    ensures r.BitCount() <= 64 && Told(r, c, FrameSignals(r, t, code, false), tail)
  {
    hide Sound, FrameSignals, Air, Total, Remote.Expect, Remote.ExpectAtLeast, RepeatGapOf;
    SoundSplits(r);
    var p, d, rest := FrameStarts(r, t, code);
    SpacePositive(r);
    AirOfFour(r.phead, r.shead, p, d, rest);
    var f := FrameSignals(r, t, code, false);
    OwedNothing(f);
    var a := RepeatAhead(r, f, tail);
    assert a == Air(f) + tail;
    TotalConcat(Air(f), tail);
    TotalOfFour(a);
    assert RepeatPattern(r, 0)
        == [Expected(Pulse(r.prepeat), 0), Expected(Space(r.srepeat), 0), Expected(Pulse(r.ptrail), 0)];
    assert a[0] == Pulse(r.phead) && a[1] == Space(r.shead) && a[2] == Pulse(p) && a[3..][0] == a[3] == Space(d);
  }

  lemma SpacePositive(r: Remote)
    requires Sound(r) && OneBitSymbols(r)
    ensures r.sone > 0 && r.szero > 0
  {
  }

  /** From the transmit buffer of a first frame, a receiver gets pre-data, code and post-data
      exactly as configured, whatever it decoded before; only where a repeat code is looked for
      first, the frame has to be told from one. */
  lemma CodeIsReceived(s: Rx, r: Remote, t: Toggles, code: Word, c: Context, gap: nat, tail: seq<Sig>, u: Tx)
    requires Sound(r) && BeginsWithPulse(r) && Synchronises(r, c, gap)
    requires !r.HasToggleMask() && !r.HasToggleBitMask() && DataFits(r, code)
    requires Told(r, c, FrameSignals(r, t, code, false), tail)
    requires Sent(r, t, code, u) && Delivers(s, gap, Levels(u.buf), tail) && Ends(r, u.sum - Discount(r), tail)
    ensures var d := ReceiveDecode(s, r, c);
            && d.frame.Some? && d.frame.value.pre == r.preData
            && d.frame.value.code == code && d.frame.value.post == r.postData
  {
    hide Sound, ReceiveDecode, Sent, Delivers, Ends, Transmissible, FrameSignals, AirWord, Told;
    SoundSplits(r);
    BeginsTransmissible(r, t, code);
    FramePositive(r, t, code);
    DecodeUndoesSendBuffer(s, r, t, code, c, gap, tail, u);
    AirWordWithoutToggles(r, t, code, r.bits, r.preDataBits);
    AirWordWithoutToggles(r, t, r.preData, r.preDataBits, 0);
    AirWordWithoutToggles(r, t, r.postData, r.postDataBits, r.preDataBits + r.bits);
    if !r.HasPre() { ZeroWidth(r.preData); }
    if !r.HasPost() { ZeroWidth(r.postData); }
  }

  /** If the frames of a remote are always told from its repeat code, they are received in any state. */
  lemma CodeIsAlwaysReceived(s: Rx, r: Remote, t: Toggles, code: Word, c: Context, gap: nat, tail: seq<Sig>, u: Tx)
    requires Sound(r) && BeginsWithPulse(r) && Synchronises(r, c, gap) && (r.HasRepeat() ==> FramesUnlike(r))
    requires !r.HasToggleMask() && !r.HasToggleBitMask() && DataFits(r, code)
    requires Sent(r, t, code, u) && Delivers(s, gap, Levels(u.buf), tail) && Ends(r, u.sum - Discount(r), tail)
    ensures var d := ReceiveDecode(s, r, c);
            && d.frame.Some? && d.frame.value.pre == r.preData
            && d.frame.value.code == code && d.frame.value.post == r.postData
  {
    hide Sound, ReceiveDecode, Sent, Delivers, Ends, FrameSignals, FramesUnlike, BeginsWithPulse, Synchronises;
    SoundSplits(r);
    if r.HasRepeat() { FramesAreTold(r, t, code, c, tail); }
    CodeIsReceived(s, r, t, code, c, gap, tail, u);
  }

  /** The XMP remote of the repository, remotes/generic/XMP, with any pre-data. */
  function GenericXmp(preData: Word): Remote {
    BLANK.(protocol := Xmp, bits := 32, eps := 20, aeps := 300, pone := 0, sone := 137, pzero := 250, szero := 710,
           ptrail := 250, preDataBits := 32, preData := preData, preP := 250, preS := 12921, gap := 81698)
  }

  /** It satisfies all that the round trip asks of a configuration. */
  lemma GenericXmpIsSound(preData: Word)
    ensures var r := GenericXmp(preData);
            Sound(r) && BeginsWithPulse(r) && NeedsPulse(r) && !r.HasToggleMask() && !r.HasToggleBitMask()
  {
  }

  // ----- the condition on pulse-first bits is exact -----

  /** In a state that sees a zero, a pulse-first remote without a lead pulse decodes a zero if and
      only if its bits are distinguishable. */
  lemma ZeroDecodedExactlyIfDistinct(s: Rx, r: Remote, k: nat, c: seq<Sig>, tail: seq<Sig>)
    requires !r.IsBiphase() && Timed(r) && BitsDecodable(r) && r.plead == 0 && s.pendingp == 0
    requires !r.protocol.Rcmm? && !r.protocol.Xmp?
    requires Sees(s, EncodeBit(r, k, false) + c, tail)
    requires r.ptrail > 0 ==> StartsPulse(c)
    ensures DecodesBit(s, r, k, false) <==> Distinct(r)
  {
    if Distinct(r) {
      PulseFirstZero(s, r, k, c, tail);
    } else {
      NoStretch(r, k, r.pzero);
      NoStretch(r, k, r.szero);
      var p := [Space(r.szero)] + c;
      assert EncodeBit(r, k, false) + c == [Pulse(r.pzero)] + p;
      PulseTry(s, r, r.pone, r.pzero, p, tail);
      if r.ptrail > 0 {
        SpaceTry(ExpectPulse(s, r, r.pone).s, r, r.sone, r.szero, c, tail);
      }
    }
  }

  /** The remote of remotes/generic/NEC-pulse.conf, with any pre-data: its repeat code has the
      lengths of its header, so that the first bit has to tell. */
  function NecPulse(preData: Word): Remote {
    BLANK.(bits := 16, constLength := true, eps := 30, aeps := 100, phead := 9000, shead := 4500, pone := 563,
           sone := 1687, pzero := 563, szero := 562, ptrail := 563, preDataBits := 16, preData := preData,
           gap := 108000, prepeat := 9000, srepeat := 4500)
  }

  lemma NecPulseIsSound(preData: Word)
    ensures var r := NecPulse(preData);
            && Sound(r) && BeginsWithPulse(r) && r.HasRepeat() && FramesUnlike(r) && !r.IsBiphase()
            && !r.HasToggleMask() && !r.HasToggleBitMask()
  {
    var r := NecPulse(preData);
    assert !r.Expect(r.szero, r.sone) && Distinct(r) && Timed(r);
    assert BitUnlike(r, r.pone, r.sone) && BitUnlike(r, r.pzero, r.szero);
  }
}
