/** What goes on the air, at concrete remotes: the order of the parts of a frame, and the symbols of
    each protocol. */
module WireFormat {
  import opened Words
  import opened Signals
  import opened Remotes
  import opened Transmit

  const NO_TOGGLES := Toggles(ZERO, 0)

  /** A remote with all parts a frame can have, every length another. */
  function Full(): Remote {
    BLANK.(bits := 1, phead := 901, shead := 451, plead := 101, pone := 51, sone := 151, pzero := 52, szero := 53,
           ptrail := 54, pfoot := 251, sfoot := 252, preDataBits := 1, preData := FromBits([true]), preP := 301,
           preS := 302, postDataBits := 1, postData := FromBits([false]), postP := 401, postS := 402, prepeat := 601,
           srepeat := 602, gap := 10000)
  }

  lemma OneBit(r: Remote, w: Word, b: bool, done: nat)
    requires r.BitCount() <= 64 && done + 1 <= r.BitCount() && !r.protocol.Rcmm? && !r.protocol.Xmp?
    requires !r.HasToggleMask() && !r.HasToggleBitMask() && w == FromBits([b])
    ensures DataSignals(r, NO_TOGGLES, w, 1, done) == EncodeBit(r, done, b)
  {
    var bs := AirBits(r, NO_TOGGLES, done, Low(w, 1));
    assert bs == [b];
    assert EncodeBits(r, done + 1, bs[1..]) == [];
  }

  /** Header, lead, pre-data, its divider, code, divider, post-data, trail and foot; a one has its own
      lengths. */
  lemma FullFrame()
    ensures FrameSignals(Full(), NO_TOGGLES, FromBits([true]), false)
         == [Pulse(901), Space(451), Pulse(101), Pulse(51), Space(151), Pulse(301), Space(302), Pulse(51), Space(151),
             Pulse(401), Space(402), Pulse(52), Space(53), Pulse(54), Space(252), Pulse(251)]
  {
    FullData();
  }

  lemma FullData()
    ensures var r := Full();
            && DataSignals(r, NO_TOGGLES, r.preData, 1, 0) == [Pulse(51), Space(151)]
            && DataSignals(r, NO_TOGGLES, FromBits([true]), 1, 1) == [Pulse(51), Space(151)]
            && DataSignals(r, NO_TOGGLES, r.postData, 1, 2) == [Pulse(52), Space(53)]
  {
    var r := Full();
    OneBit(r, r.preData, true, 0);
    OneBit(r, FromBits([true]), true, 1);
    OneBit(r, r.postData, false, 2);
  }

  /** A repetition without header and foot. */
  lemma BareRepetition()
    ensures FrameSignals(Full().(noHeadRep := true, noFootRep := true), NO_TOGGLES, FromBits([true]), true)
         == [Pulse(101), Pulse(51), Space(151), Pulse(301), Space(302), Pulse(51), Space(151),
             Pulse(401), Space(402), Pulse(52), Space(53), Pulse(54)]
  {
    var r := Full().(noHeadRep := true, noFootRep := true);
    OneBit(r, r.preData, true, 0);
    OneBit(r, FromBits([true]), true, 1);
    OneBit(r, r.postData, false, 2);
  }

  /** The repeat code, with its header and without. */
  lemma FullRepeat()
    ensures RepeatSignals(Full()) == [Pulse(101), Pulse(601), Space(602), Pulse(54)]
    ensures RepeatSignals(Full().(repeatHeader := true))
         == [Pulse(901), Space(451), Pulse(101), Pulse(601), Space(602), Pulse(54)]
  {
  }

  /** RC-MM: the symbols of 00, 01, 10 and 11. */
  lemma RcmmSymbols()
    ensures var r := Full().(protocol := Rcmm, ptwo := 71, stwo := 72, pthree := 73, sthree := 74);
            EncodePairs(r, [false, false, false, true, true, false, true, true])
            == [Pulse(52), Space(53), Pulse(51), Space(151), Pulse(71), Space(72), Pulse(73), Space(74)]
  {
    var r := Full().(protocol := Rcmm, ptwo := 71, stwo := 72, pthree := 73, sthree := 74);
    var a := [false, false, false, true, true, false, true, true];
    assert a[2..] == [false, true, true, false, true, true];
    assert a[2..][2..] == [true, false, true, true];
    assert a[2..][2..][2..] == [true, true];
    assert EncodePairs(r, a[2..][2..][2..]) == [Pulse(73), Space(74)];
    assert EncodePairs(r, a[2..][2..]) == [Pulse(71), Space(72), Pulse(73), Space(74)];
  }

  /** XMP: the nibble 1010 lengthens its space by ten units. */
  lemma XmpSymbol()
    ensures EncodeNibbles(Full().(protocol := Xmp), [true, false, true, false]) == [Pulse(52), Space(53 + 10 * 151)]
  {
    var r, a := Full().(protocol := Xmp), [true, false, true, false];
    assert a[..4] == a && a[4..] == [];
  }

  /** RC-5: a one begins with its space. */
  lemma BiphaseBits()
    ensures EncodeBits(Full().(protocol := Rc5), 0, [true, false]) == [Space(151), Pulse(51), Pulse(52), Space(53)]
  {
    var r, a := Full().(protocol := Rc5), [true, false];
    assert a[1..] == [false] && a[1..][1..] == [];
    assert EncodeBits(r, 1, a[1..]) == [Pulse(52), Space(53)];
  }
}
