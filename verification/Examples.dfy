/** Concrete inputs for the places where the code does not do what one would expect. */
module Examples {
  import opened Options
  import opened Words
  import opened Signals
  import opened SendBuffers
  import opened Remotes
  import opened Transmit
  import opened RecBuffers
  import opened Receive
  import opened RoundTrip
  import opened BitRoundTrip
  import opened FrameRoundTrip
  import opened FrameEnds
  import opened Tolerance
  import opened DecodeRoundTrip
  import opened CodeSurvives
  import opened Repetitions
  import opened MissingFoot
  import opened Passes
  import opened FrameShapes
  import opened LoopEnds
  import opened ToggleBits
  import opened Uirt2
  import Recognising = Recogniser

  /** A remote of constant length with a header pulse but no header space, which is no header. */
  function Headless(): Remote {
    BLANK.(bits := 1, constLength := true, noHeadRep := true, phead := 9000, pone := 500, sone := 1500, pzero := 500,
           szero := 500, ptrail := 500, gap := 50000)
  }

  const NO_TOGGLES := Toggles(ZERO, 0)

  /** The frame of a single 0. */
  lemma HeadlessFrame()
    ensures FrameSignals(Headless(), NO_TOGGLES, ZERO, false) == [Pulse(500), Space(500), Pulse(500)]
  {
    var r := Headless();
    var air := AirBits(r, NO_TOGGLES, 0, Low(ZERO, 1));
    assert air == [false];
    assert EncodeBits(r, 1, air[1..]) == [];
    assert DataSignals(r, NO_TOGGLES, ZERO, 1, 0) == [Pulse(500), Space(500)];
  }

  lemma HeadlessBuffer()
    ensures var u := Sync(SendAll(CLEARED, [Pulse(500), Space(500), Pulse(500)]));
            u == Tx([500, 500, 500], 0, 0, 1500, false) && Levels(u.buf) == [Pulse(500), Space(500), Pulse(500)]
  {
    var f := [Pulse(500), Space(500), Pulse(500)];
    var a := Send(CLEARED, f[0]);
    var b := Send(a, f[1]);
    var c := Send(b, f[2]);
    assert f[1..] == [f[1], f[2]];
    SendOneTwo(a, f[1], f[2]);
    assert SendAll(CLEARED, f) == c;
    assert c == Tx([500, 500], 500, 0, 1000, false);
  }

  /** A receiver that is about to read a space, that frame, and nothing more. */
  const HEADLESS_INPUT := Rx(Tape([Space(60000), Pulse(500), Space(500), Pulse(500)], 0, [], 0, false), 0, 0)

  lemma HeadlessDelivered()
    ensures Delivers(HEADLESS_INPUT, 60000, [Pulse(500), Space(500), Pulse(500)], [])
  {
  }

  lemma HeadlessIsSound()
    ensures var r := Headless();
            && r.BitCount() <= 64 && Sound(r) && BeginsWithPulse(r) && DataFits(r, ZERO)
            && !r.HasToggleMask() && !r.HasToggleBitMask()
            && Synchronises(r, Context(NoLast, false, None, 0, 0), 60000) && Ends(r, 1500 - Discount(r), [])
  {
    var r := Headless();
    assert Distinct(r) && Timed(r) && Decodable(r);
    assert Fits(ZERO, 0) && Fits(ZERO, 1);
  }

  lemma HeadlessGaps()
    ensures var r := Headless();
            && r.constLength && r.noHeadRep && r.repeatGap == 0 && r.MinGap() == 50000
            && r.phead == 9000 && r.shead == 0 && Discount(r) == 0
  {
  }

  lemma FirstGap(r: Remote)
    requires r.constLength && r.noHeadRep && r.repeatGap == 0
    ensures HeaderDiscount(r, false) == r.phead + r.shead
    ensures r.MinGap() == 50000 ==> GapOf(r, false, -7500) == Some(57500)
  {
  }

  lemma SentAsIs(r: Remote, u: Tx)
    requires r.BitCount() <= 64 && u == Sync(SendAll(CLEARED, FrameSignals(r, NO_TOGGLES, ZERO, false)))
    requires !u.tooLong && u.pendingp == 0
    ensures Sent(r, NO_TOGGLES, ZERO, u)
  {
    hide Sync, SendAll, FrameSignals;
  }

  /** Sender and receiver disagree on the gap after that frame by the length of the header. */
  lemma GapsDisagree()
    ensures var r := Headless();
            var u := Sync(SendAll(CLEARED, FrameSignals(r, NO_TOGGLES, ZERO, false)));
            var d := ReceiveDecode(HEADLESS_INPUT, r, Context(NoLast, false, None, 0, 0));
            && HEADLESS_INPUT.tape.buf == [Space(60000)] + Levels(u.buf)
            && d.frame.Some? && d.frame.value.code == ZERO && d.frame.value.minRemaining == 48500
            && GapOf(r, false, u.sum - HeaderDiscount(r, false)) == Some(57500)
  {
    hide ReceiveDecode, FrameSignals, SendAll, Sync, Levels, Delivers, Headless, Sound, BeginsWithPulse, DataFits,
         Transmissible, Synchronises, Ends, Sent, Positive, AirWord, PreWord, PostWord, GapOf,
         HeaderDiscount, Discount, Remote.MinGap;
    var r := Headless();
    HeadlessIsSound();
    HeadlessFrame();
    HeadlessBuffer();
    var u := Sync(SendAll(CLEARED, FrameSignals(r, NO_TOGGLES, ZERO, false)));
    var s, c := HEADLESS_INPUT, Context(NoLast, false, None, 0, 0);
    HeadlessDelivered();
    HeadlessGaps();
    FirstGap(r);
    SentAsIs(r, u);
    BeginsTransmissible(r, NO_TOGGLES, ZERO);
    CodeIsReceived(s, r, NO_TOGGLES, ZERO, c, 60000, [], u);
    FramePositive(r, NO_TOGGLES, ZERO);
    DecodeUndoesSendBuffer(s, r, NO_TOGGLES, ZERO, c, 60000, [], u);
  }

  // ----- a foot left out -----

  /** A remote that sends its foot only after first frames. */
  function Footless(): Remote {
    BLANK.(bits := 1, noFootRep := true, pone := 500, sone := 1500, pzero := 500, szero := 500, ptrail := 500,
           pfoot := 700, sfoot := 3000, gap := 50000)
  }

  lemma FootlessFrame()
    ensures FrameSignals(Footless(), NO_TOGGLES, ZERO, true) == [Pulse(500), Space(500), Pulse(500)]
  {
    var r := Footless();
    var air := AirBits(r, NO_TOGGLES, 0, Low(ZERO, 1));
    assert air == [false];
    assert EncodeBits(r, 1, air[1..]) == [];
    assert DataSignals(r, NO_TOGGLES, ZERO, 1, 0) == [Pulse(500), Space(500)];
  }

  lemma FootlessIsSound()
    ensures var r := Footless();
            && r.BitCount() <= 64 && Sound(r) && Decodable(r) && !r.HasHeader() && !WithFoot(r) && !r.HasRepeat()
            && Synchronises(r, Context(NoLast, false, None, 0, 0), 50000)
  {
    assert Distinct(Footless()) && Timed(Footless());
  }

  /** A receiver that is about to read a gap, a repetition of the code 0, and nothing more: it decodes
      nothing. */
  lemma FootIsMissed()
    ensures var s := Rx(Tape([Space(50000), Pulse(500), Space(500), Pulse(500)], 0, [], 0, false), 0, 0);
            ReceiveDecode(s, Footless(), Context(NoLast, false, None, 0, 0)).frame.None?
  {
    hide ReceiveDecode, FrameSignals, Footless, Sound, Decodable, Synchronises, WithFoot, WithHeader, NoHeader,
         Remote.HasHeader, Remote.HasRepeat, Remote.BitCount, Delivers, Quiet;
    var r, c := Footless(), Context(NoLast, false, None, 0, 0);
    var s := Rx(Tape([Space(50000), Pulse(500), Space(500), Pulse(500)], 0, [], 0, false), 0, 0);
    FootlessIsSound();
    FootlessFrame();
    var f := FrameSignals(r, NO_TOGGLES, ZERO, true);
    FootlessInput(s);
    NoHeaderThere(r);
    RepetitionWithoutFoot(s, r, NO_TOGGLES, ZERO, c, 50000, []);
  }

  lemma FootlessInput(s: Rx)
    requires s == Rx(Tape([Space(50000), Pulse(500), Space(500), Pulse(500)], 0, [], 0, false), 0, 0)
    ensures Delivers(s, 50000, Air([Pulse(500), Space(500), Pulse(500)]), []) && Quiet(Rewind(s).tape)
  {
  }

  lemma NoHeaderThere(r: Remote)
    requires !r.HasHeader()
    ensures WithHeader(r)
  {
  }

  // ----- the gap after a repeat code -----

  /** A remote of constant length that has a gap of its own after repeat codes. */
  function TwoGaps(): Remote {
    BLANK.(bits := 8, constLength := true, pone := 500, sone := 1500, pzero := 500, szero := 500, ptrail := 750,
           prepeat := 9000, srepeat := 2250, gap := 108000, repeatGap := 40000)
  }

  lemma TwoGapsSignals()
    ensures var r := TwoGaps();
            var u := Sync(SendAll(CLEARED, RepeatSignals(r)));
            && RepeatSignals(r) == [Pulse(9000), Space(2250), Pulse(750)]
            && u == Tx([9000, 2250, 750], 0, 0, 12000, false) && RepeatSent(r, u)
  {
    var r := TwoGaps();
    var f := RepeatSignals(r);
    assert f == [Pulse(9000), Space(2250), Pulse(750)];
    var a := Send(CLEARED, f[0]);
    assert f[1..] == [f[1], f[2]];
    SendOneTwo(a, f[1], f[2]);
    assert SendAll(CLEARED, f) == Tx([9000, 2250], 750, 0, 11250, false);
  }

  lemma TwoGapsRemote()
    ensures var r := TwoGaps();
            && Decodable(r) && r.HasRepeat() && !r.IsBiphase()
            && RepeatGapOf(r, r.MinGap(), 12000) == 96000 && GapOf(r, true, 12000) == Some(40000)
  {
    TwoGapsValues(TwoGaps());
  }

  lemma TwoGapsValues(r: Remote)
    requires r.constLength && r.gap == 108000 && r.gap2 == 0 && r.repeatGap == 40000 && r.HasRepeat()
    ensures RepeatGapOf(r, r.MinGap(), 12000) == 96000 && GapOf(r, true, 12000) == Some(40000)
  {
  }

  lemma TwoGapsInput(s: Rx)
    requires s == Rx(Tape([Space(60000), Pulse(9000), Space(2250), Pulse(750)], 0, [], 0, false), 0, 0)
    ensures Delivers(s, 60000, Levels([9000, 2250, 750]), [])
  {
  }

  /** After its repeat code it waits 40000 microseconds, and the receiver for at least 96000. */
  lemma RepeatGapsDisagree(s: Rx, last: Word)
    requires s == Rx(Tape([Space(60000), Pulse(9000), Space(2250), Pulse(750)], 0, [], 0, false), 0, 0)
    ensures var r := TwoGaps();
            var u := Sync(SendAll(CLEARED, RepeatSignals(r)));
            var d := ReceiveDecode(s, r, Context(Last(r, 0, 0), true, Some(last), 0, 0));
            && d.frame.Some? && d.frame.value.code == last && d.frame.value.minRemaining == 96000
            && GapOf(r, true, u.sum) == Some(40000)
  {
    hide ReceiveDecode, RepeatSignals, SendAll, Sync, Levels, Delivers, TwoGaps, RepeatGapOf, GapOf, Decodable,
         Remote.HasRepeat, Remote.IsBiphase, Remote.MinGap, RepeatSent;
    var r := TwoGaps();
    TwoGapsRemote();
    TwoGapsSignals();
    TwoGapsInput(s);
    var u := Sync(SendAll(CLEARED, RepeatSignals(r)));
    RepeatBufferIsReceived(s, r, Context(Last(r, 0, 0), true, Some(last), 0, 0), 60000, [], u);
  }

  // ----- a sequence without end -----

  /** An XMP remote whose data is no multiple of four bits, so that none is sent, and that leaves out
      the header of repetitions. */
  function Mute(): Remote {
    BLANK.(protocol := Xmp, bits := 2, noHeadRep := true, phead := 9000, shead := 4500, pzero := 250, szero := 710,
           sone := 137, gap := 5000)
  }

  const SEQUENCE := Button(ZERO, [ZERO])
  const FIRST_TURN := Turn(0, Toggles(ZERO, 0), None, false)

  lemma MuteFrame()
    ensures FrameSignals(Mute(), NO_TOGGLES, ZERO, false) == [Pulse(9000), Space(4500)]
  {
  }

  lemma MuteIsPulseless()
    ensures var r := Mute();
            && r.BitCount() <= 64 && r.pzero > 0 && 0 < r.MinGap() < EXACT_GAP_THRESHOLD
            && !r.HasRepeat() && !PulseInFrame(r, true) && Endless(r, SEQUENCE)
  {
  }

  lemma FirstTurnGoesOn()
    ensures Turns(Mute(), SEQUENCE, FIRST_TURN, 1).Some?
    ensures Turns(Mute(), SEQUENCE, FIRST_TURN, 1).value.0 == Tx([9000, 9500], 0, 0, 0, false)
  {
    var r := Mute();
    MuteFrame();
    assert PassSignals(r, SEQUENCE, FIRST_TURN) == [Pulse(9000), Space(4500)];
    SendOneTwo(CLEARED, Pulse(9000), Space(4500));
    assert Turns(r, SEQUENCE, FIRST_TURN, 1) == TurnFrom(r, SEQUENCE, CLEARED, FIRST_TURN);
  }

  /** Its sequence is prepared for ever. */
  lemma MuteNeverEnds()
    ensures Mute().BitCount() <= 64 && NeverEnds(Mute(), SEQUENCE, FIRST_TURN)
  {
    hide Turns, NeverEnds, PulseInFrame;
    MuteIsPulseless();
    FirstTurnGoesOn();
    PulselessExactly(Mute(), SEQUENCE, FIRST_TURN);
  }

  // ----- signals that are too long for REMSTRUCT1 -----

  /** A header and 128 pulses and spaces of 500 microseconds, and a last pulse of 1000. */
  predicate LongSignal(buf: seq<nat>) {
    |buf| == 131 && forall k :: 0 <= k < 131 ==> buf[k] == if k < 130 then 500 else 1000
  }

  function Zeros(n: nat): (bs: seq<bool>)
    ensures |bs| == n && forall k :: 0 <= k < n ==> !bs[k]
  {
    seq(n, _ => false)
  }

  /** What is found for it: two pulse lengths, one space length, 129 bits. */
  function LongScan(): Scan {
    Scan([10, 20], [10, 0], Zeros(128) + [true], 1)
  }

  lemma LongSignalStarts(buf: seq<nat>)
    requires LongSignal(buf)
    ensures ScanFrom(BLANK, 0, buf, 50, 0, NOTHING_SCANNED)
         == ScanFrom(BLANK, 0, buf, 50, 4, Scan([10, 0], [10, 0], Zeros(2), 1))
  {
    hide ScanFrom;
    var o, t: Table := [0, 0], [10, 0];
    assert o[0 := 10] == t;
    assert Choose(BLANK, o, 500, 50) == (t, Some(false));
    var a := Chosen(NOTHING_SCANNED, 2, t, false);
    var b := Chosen(a, 3, t, false);
    assert b == Scan(t, t, Zeros(2), 1) by { assert [] + [false] + [false] == Zeros(2); }
    ScanHeader(BLANK, 0, buf, 50);
    ScanStep(BLANK, 0, buf, 50, 2, NOTHING_SCANNED, t, false);
    ScanStep(BLANK, 0, buf, 50, 3, a, t, false);
  }

  lemma {:induction false} LongSignalGoesOn(buf: seq<nat>, i: nat)
    requires LongSignal(buf) && 4 <= i <= 130
    ensures ScanFrom(BLANK, 0, buf, 50, i, Scan([10, 0], [10, 0], Zeros(i - 2), 1)) == Some(LongScan())
    decreases 130 - i
  {
    var t: Table := [10, 0];
    var s := Scan(t, t, Zeros(i - 2), 1);
    assert Choose(BLANK, t, 500, 50) == (t, Some(false));
    if i < 130 {
      assert Chosen(s, i, t, false) == Scan(t, t, Zeros(i - 1), 1);
      LongSignalGoesOn(buf, i + 1);
    } else {
      assert t[1 := 20] == [10, 20];
      assert Choose(BLANK, t, 1000, 50) == ([10, 20], Some(true));
      assert Chosen(s, i, [10, 20], true) == LongScan();
    }
  }

  /** It is accepted for REMSTRUCT1 as one transmission of 129 bits. */
  lemma LongSignalIsAccepted(buf: seq<nat>)
    requires LongSignal(buf)
    ensures |buf| >= 2 && ScanFrom(BLANK, 0, buf, 50, 0, NOTHING_SCANNED) == Some(LongScan())
  {
    hide ScanFrom, LongScan;
    LongSignalStarts(buf);
    LongSignalGoesOn(buf, 4);
  }

  lemma {:induction false} NoData(data: seq<Byte>)
    requires forall j, i :: 0 <= j < |data| && 0 <= i < 8 ==> !data[j][i]
    ensures DataSum(data) == 0
    decreases |data|
  {
    if data == [] {
    } else {
      NoData(data[..|data| - 1]);
    }
  }

  /** All codes for a frequency are even. */
  predicate EvenCode(n: nat) {
    n % 2 == 0
  }

  /** Its message, at whatever frequency, has an even checksum. */
  lemma LongChecksum(buf: seq<nat>, f: Scan, m: RemStruct, frequency: nat)
    requires |m.data| == 17 && EvenCode(frequency)
    requires LongSignal(buf) && Compresses(BLANK, 0, buf, 50, f, m)
    ensures f == LongScan()
    ensures !Checksum(frequency + SentRepeats(f.repeats), m)[0]
  {
    hide ScanFrom, DataSum;
    LongSignalIsAccepted(buf);
    NoDataIn(m.data, 16);
  }

  lemma NoDataIn(data: seq<Byte>, n: nat)
    requires n <= |data| && forall k :: 0 <= k < 8 * n ==> !DataBit(data, k)
    ensures DataSum(data[..n]) == 0
  {
    forall j, i | 0 <= j < n && 0 <= i < 8
      ensures !data[..n][j][i]
    {
      Quotient(j, i);
      assert !DataBit(data, 8 * j + i);
    }
    NoData(data[..n]);
  }

  lemma Quotient(j: nat, i: nat)
    requires i < 8
    ensures (8 * j + i) / 8 == j && (8 * j + i) % 8 == i
  {
  }

  /** Older firmware, which gets the checksum in the place of bCheck, sends 500 for the last pulse. */
  lemma LastPulseIsLost(buf: seq<nat>, f: Scan, m: RemStruct, frequency: nat)
    requires |m.data| == 17 && EvenCode(frequency)
    requires LongSignal(buf) && Compresses(BLANK, 0, buf, 50, f, m)
    ensures f.repeats == 1 && m.bits == 129
    ensures var sent := Transmitted(m, Checksum(frequency + SentRepeats(1), m));
            Once(sent)[130] == 10 && !AllClose(BLANK, 50, buf, Repeated(Once(sent), Delay(m), f.repeats))
  {
    hide ScanFrom, AllClose, Repeated, Checksum;
    LongChecksum(buf, f, m, frequency);
    var check := Checksum(frequency + SentRepeats(1), m);
    OverflowIsFaithful(BLANK, 0, buf, 50, f, m, check);
    TransmittedBits(m, check, 128);
  }

  // ----- 32 parts -----

  const PART: seq<nat> := [1000, 1000, 500, 500, 500, 1000, 500]

  lemma {:induction false} RepeatedParts(n: nat)
    requires n >= 1
    ensures var buf := Repeated(PART, 5000, n);
            && |buf| == 8 * n - 1 && PartsSame(buf, PART + [5000], n) && buf[..7] == PART
            && (n > 1 ==> buf[..8] == PART + [5000])
            && forall k :: 0 <= k < |buf| ==> buf[k] >= 50
    decreases n
  {
    if n > 1 {
      RepeatedParts(n - 1);
      var rest := Repeated(PART, 5000, n - 1);
      assert Repeated(PART, 5000, n) == PART + [5000] + rest;
      assert Repeated(PART, 5000, n)[8..] == rest;
    }
  }

  lemma PartChoices()
    ensures Choose(BLANK, [0, 0], 500, 50) == ([10, 0], Some(false))
    ensures Choose(BLANK, [10, 0], 500, 50) == ([10, 0], Some(false))
    ensures Choose(BLANK, [10, 0], 1000, 50) == ([10, 20], Some(true))
    ensures Choose(BLANK, [10, 20], 5000, 50) == ([10, 20], None)
  {
    var o, t: Table := [0, 0], [10, 0];
    assert o[0 := 10] == t && t[1 := 20] == [10, 20];
  }

  lemma FirstOfPart(buf: seq<nat>)
    requires |buf| == 255 && buf[..7] == PART
    ensures ScanFrom(BLANK, 5000, buf, 50, 0, NOTHING_SCANNED)
         == ScanFrom(BLANK, 5000, buf, 50, 7, Scan([10, 0], [10, 20], [false, false, false, true, false], 1))
  {
    hide ScanFrom, Choose;
    assert forall k :: 0 <= k < 7 ==> buf[k] == buf[..7][k];
    var o, t, u: Table := [0, 0], [10, 0], [10, 20];
    PartChoices();
    var a := Chosen(NOTHING_SCANNED, 2, t, false);
    var b := Chosen(a, 3, t, false);
    var c := Chosen(b, 4, t, false);
    var d := Chosen(c, 5, u, true);
    ScanHeader(BLANK, 5000, buf, 50);
    ScanStep(BLANK, 5000, buf, 50, 2, NOTHING_SCANNED, t, false);
    ScanStep(BLANK, 5000, buf, 50, 3, a, t, false);
    ScanStep(BLANK, 5000, buf, 50, 4, b, t, false);
    ScanStep(BLANK, 5000, buf, 50, 5, c, u, true);
    ScanStep(BLANK, 5000, buf, 50, 6, d, t, false);
    assert Chosen(d, 6, t, false) == Scan(t, u, [false, false, false, true, false], 1);
  }

  /** It fills the buffer but for one duration, and is taken for 32 transmissions. */
  lemma ManyPartsAreFound(buf: seq<nat>)
    requires buf == Repeated(PART, 5000, 32)
    ensures |buf| == 255 && forall k :: 0 <= k < 255 ==> buf[k] >= 50
    ensures ScanFrom(BLANK, 5000, buf, 50, 0, NOTHING_SCANNED)
            == Some(Scan([10, 0], [10, 20], [false, false, false, true, false], 32))
  {
    hide ScanFrom, PartsSame, Repeated;
    RepeatedParts(32);
    FirstOfPart(buf);
    assert buf[7] == buf[..8][7] == 5000;
    var u: Table := [10, 20];
    assert Choose(BLANK, u, 5000, 50) == (u, None);
    ScanEnd(BLANK, 5000, buf, 50, 7, Scan([10, 0], u, [false, false, false, true, false], 1));
  }

  /** Older firmware sends one part too few. */
  lemma LastPartIsLost(buf: seq<nat>, f: Scan, m: RemStruct, check: Byte)
    requires |m.data| == 17 && buf == Repeated(PART, 5000, 32) && Compresses(BLANK, 5000, buf, 50, f, m)
    ensures f.repeats == 32 && m.bits == 5
    ensures !AllClose(BLANK, 50, buf, Repeated(Once(Transmitted(m, check)), Delay(m), SentRepeats(32)))
  {
    hide ScanFrom, AllClose, Repeated, Once;
    ManyPartsAreFound(buf);
    OlderFirmwareRepeats(BLANK, 5000, buf, 50, f, m, check);
  }

  // ----- toggle bits that are not alike -----

  /** A remote of two bits, both of them toggle bits. */
  function TwoToggleBits(): Remote {
    BLANK.(bits := 2, toggleBitMask := FromBits([true, true]))
  }

  /** Its first button has one of them set: a press of this very button is not recognised. */
  lemma MixedToggleBits()
    ensures var r, code := TwoToggleBits(), FromBits([false, true]);
            var t := NextPress(r, Toggles(StartingState(r, code), 0));
            BitToggling(r) && !Recognising.Matches(r, code, OnArrival(r, t, code))
  {
    hide OnArrival, Recognising.Matches, StartingState, NextPress;
    var r, code := TwoToggleBits(), FromBits([false, true]);
    var t := Toggles(StartingState(r, code), 0);
    TwoAreToggled();
    StartsTogether(r, code, 0);
    PressKeepsTogether(r, t);
    SentCodeMatches(r, NextPress(r, t), code);
  }

  lemma TwoAreToggled()
    ensures BitToggling(TwoToggleBits()) && !Alike(TwoToggleBits(), FromBits([false, true]))
  {
    var r, code := TwoToggleBits(), FromBits([false, true]);
    var m := r.toggleBitMask;
    assert m[62] && m[63] && !code[62] && code[63] && !ZERO[63];
    if BitsSet(m) == 1 { OneBitSet(m, 62, 63); }
    assert Counts(r, 62) && Counts(r, 63);
    assert m == Mask(m, 2);
  }

  // ----- a header within its tolerance -----

  /** A remote with NO_HEAD_REP and a tolerance of 30 percent. */
  function ShortHeader(): Remote {
    BLANK.(bits := 1, noHeadRep := true, eps := 30, aeps := 100, phead := 9000, shead := 4500, pone := 500,
           sone := 1500, pzero := 500, szero := 500, ptrail := 500, gap := 40000)
  }

  /** The space of its header may be 3300 in place of 4500 by the tolerance that is configured; after a
      long gap such a frame is refused all the same, for the tolerance is taken of the 3300. */
  lemma ShortHeaderIsRefused(s: Rx, c: Context, gap: nat, f: seq<Sig>, tail: seq<Sig>)
    requires var r := ShortHeader();
             && Delivers(s, gap, Air(f), tail) && Synchronises(r, c, gap) && gap > 60000
             && |Air(f)| >= 2 && Air(f)[0] == Pulse(9000) && Air(f)[1] == Space(3300)
    ensures Near(ShortHeader(), 3300, 4500)
    ensures ReceiveDecode(s, ShortHeader(), c).frame.None?
  {
    hide Air, Delivers, Synchronises, ReceiveDecode;
    var r := ShortHeader();
    assert !Near(r, 4500, 3300) && !Near(r, gap, r.MaxGap());
    HeaderIsAskedFor(s, r, c, gap, f, tail);
  }
}
