/** Toggle bits: a sender sets or flips them from press to press, and a receiver takes the code with
    them or without. */
module ToggleBits {
  import opened Options
  import opened Words
  import opened Remotes
  import opened Transmit
  import opened FrameRoundTrip
  import opened CodeSurvives
  import opened Recogniser
  import opened Decode
  import opened ToggleLock

  /** A remote that has toggle bits, and a protocol that applies them. */
  predicate TogglesBits(r: Remote) {
    r.HasToggleBitMask() && !r.protocol.Rcmm? && !r.protocol.Xmp?
  }

  /** Such a remote without toggle mask, whose toggle bits are bits of its frames. */
  predicate BitToggling(r: Remote) {
    TogglesBits(r) && r.BitCount() <= 64 && !r.HasToggleMask() && Fits(r.toggleBitMask, r.BitCount())
  }

  /** The whole word that arrives. */
  function OnArrival(r: Remote, t: Toggles, code: Word): Word
    requires r.BitCount() <= 64
  {
    WholeCode(r, Arrives(r, t, code))
  }

  /** The bits of the whole word as configured. */
  function FrameBits(r: Remote, code: Word): (bs: seq<bool>)
    requires r.BitCount() <= 64
    ensures |bs| == r.BitCount()
  {
    Low(r.preData, r.preDataBits) + Low(code, r.bits) + Low(r.postData, r.postDataBits)
  }

  lemma AirBitsConcat(r: Remote, t: Toggles, done: nat, a: seq<bool>, b: seq<bool>)
    requires done + |a| + |b| <= r.BitCount() <= 64
    ensures AirBits(r, t, done, a + b) == AirBits(r, t, done, a) + AirBits(r, t, done + |a|, b)
  {
  }

  /** A part of a frame as it arrives. */
  lemma PartOnArrival(r: Remote, t: Toggles, w: Word, bits: nat, done: nat)
    requires BitToggling(r) && done + bits <= r.BitCount()
    ensures Low(AirWord(r, t, w, bits, done), bits) == AirBits(r, t, done, Low(w, bits))
    ensures bits == 0 ==> Low(ZERO, bits) == AirBits(r, t, done, Low(w, bits))
  {
    LowOfFromBits(AirBits(r, t, done, Low(w, bits)));
  }

  lemma ArrivesBitwise(r: Remote, t: Toggles, code: Word)
    requires BitToggling(r)
    ensures OnArrival(r, t, code) == FromBits(AirBits(r, t, 0, FrameBits(r, code)))
  {
    hide AirWord, AirBits, BitToggling, FromBits;
    BitTogglingFits(r);
    var a, b, c := Low(r.preData, r.preDataBits), Low(code, r.bits), Low(r.postData, r.postDataBits);
    PartOnArrival(r, t, r.preData, r.preDataBits, 0);
    PartOnArrival(r, t, code, r.bits, r.preDataBits);
    PartOnArrival(r, t, r.postData, r.postDataBits, r.preDataBits + r.bits);
    AirBitsConcat(r, t, 0, a + b, c);
    AirBitsConcat(r, t, 0, a, b);
  }

  /** Bit `j` of the word that arrives. */
  lemma ArrivingBit(r: Remote, t: Toggles, code: Word, j: nat)
    requires BitToggling(r) && j < 64
    ensures OnArrival(r, t, code)[j]
         == if !r.toggleBitMask[j] then AsReceived(r, code)[j]
            else if BitsSet(r.toggleBitMask) == 1 then t.bitMaskState[j]
            else AsReceived(r, code)[j] != t.bitMaskState[j]
  {
    hide BitsSet, OnArrival;
    ArrivesBitwise(r, t, code);
    var bs, n := FrameBits(r, code), 64 - r.BitCount();
    assert AsReceived(r, code) == FromBits(bs);
    if j < n {
      assert !Mask(r.toggleBitMask, r.BitCount())[j];
    } else {
      assert FromBits(AirBits(r, t, 0, bs))[j] == AirBit(r, t, j - n, bs[j - n]);
    }
  }

  /** The toggle bits that are not ignored are set or flipped together. */
  predicate Together(r: Remote, t: Toggles) {
    BitsSet(r.toggleBitMask) == 1
    || forall i, j :: 0 <= i < 64 && 0 <= j < 64 && Counts(r, i) && Counts(r, j) ==>
                        t.bitMaskState[i] == t.bitMaskState[j]
  }

  predicate Counts(r: Remote, i: nat)
    requires i < 64
  {
    r.toggleBitMask[i] && !r.ignoreMask[i]
  }

  lemma {:induction false} OneBitSet(bs: seq<bool>, i: nat, j: nat)
    requires BitsSet(bs) <= 1 && i < |bs| && j < |bs| && bs[i] && bs[j]
    ensures i == j
    decreases |bs|
  {
    if i == 0 || j == 0 {
      NoBitSet(bs, if i == 0 then j else i);
    } else {
      OneBitSet(bs[1..], i - 1, j - 1);
    }
  }

  lemma {:induction false} NoBitSet(bs: seq<bool>, i: nat)
    requires i < |bs| && bs[0] && BitsSet(bs) <= 1 && bs[i]
    ensures i == 0
  {
    if i > 0 { BitSetCounts(bs[1..], i - 1); }
  }

  lemma {:induction false} BitSetCounts(bs: seq<bool>, i: nat)
    requires i < |bs| && bs[i]
    ensures BitsSet(bs) >= 1
    decreases |bs|
  {
    if i == 0 {
    } else {
      BitSetCounts(bs[1..], i - 1);
    }
  }

  /** `b` is `a`, or `a` with all toggle bits flipped, up to ignored bits. */
  predicate Flipped(r: Remote, a: Word, b: Word) {
    Or(r.ignoreMask, a) == Or(r.ignoreMask, b) || Or(r.ignoreMask, a) == Or(r.ignoreMask, Xor(b, r.toggleBitMask))
  }

  lemma TogetherFlips(r: Remote, t: Toggles, code: Word)
    requires BitToggling(r) && Together(r, t)
    ensures Flipped(r, AsReceived(r, code), OnArrival(r, t, code))
  {
    hide OnArrival, AsReceived, BitsSet;
    var a, b := AsReceived(r, code), OnArrival(r, t, code);
    forall j | 0 <= j < 64
      ensures b[j] == if !r.toggleBitMask[j] then a[j]
                      else if BitsSet(r.toggleBitMask) == 1 then t.bitMaskState[j] else a[j] != t.bitMaskState[j]
    {
      ArrivingBit(r, t, code, j);
    }
    if i :| 0 <= i < 64 && Counts(r, i) && a[i] != b[i] {
      forall j | 0 <= j < 64 && Counts(r, j)
        ensures a[j] != b[j]
      {
        if BitsSet(r.toggleBitMask) == 1 { OneBitSet(r.toggleBitMask, i, j); }
      }
      OrEqual(r.ignoreMask, a, Xor(b, r.toggleBitMask));
    } else {
      OrEqual(r.ignoreMask, a, b);
    }
  }

  lemma OrEqual(m: Word, a: Word, b: Word)
    requires forall j :: 0 <= j < 64 && !m[j] ==> a[j] == b[j]
    ensures Or(m, a) == Or(m, b)
  {
  }

  lemma OneOfEach(m: Word, x: Word, a: Word, b: Word, k: nat, l: nat)
    requires k < 64 && l < 64 && !m[k] && !m[l] && x[l]
    requires a[k] != b[k] && a[l] == b[l]
    ensures Or(m, a) != Or(m, b) && Or(m, a) != Or(m, Xor(b, x))
  {
    assert Or(m, a)[k] != Or(m, b)[k] && Or(m, a)[l] != Or(m, Xor(b, x))[l];
  }

  lemma ApartDiffers(r: Remote, t: Toggles, code: Word)
    requires BitToggling(r) && !Together(r, t)
    ensures !Flipped(r, AsReceived(r, code), OnArrival(r, t, code))
  {
    hide OnArrival, AsReceived, BitsSet, Or, Xor;
    var a, b := AsReceived(r, code), OnArrival(r, t, code);
    var i, j :| 0 <= i < 64 && 0 <= j < 64 && Counts(r, i) && Counts(r, j) && t.bitMaskState[i] != t.bitMaskState[j];
    ArrivingBit(r, t, code, i);
    ArrivingBit(r, t, code, j);
    if t.bitMaskState[i] {
      OneOfEach(r.ignoreMask, r.toggleBitMask, a, b, i, j);
    } else {
      OneOfEach(r.ignoreMask, r.toggleBitMask, a, b, j, i);
    }
  }

  /** A code that is sent is recognised as itself if and only if its toggle bits go together. */
  lemma SentCodeMatches(r: Remote, t: Toggles, code: Word)
    requires BitToggling(r)
    ensures Matches(r, code, OnArrival(r, t, code)) <==> Together(r, t)
  {
    hide OnArrival, AsReceived, GenCode, Together, BitToggling, Or, Xor;
    BitTogglingFits(r);
    Plainly(r, code);
    if Together(r, t) {
      TogetherFlips(r, t, code);
    } else {
      ApartDiffers(r, t, code);
    }
  }

  lemma BitTogglingFits(r: Remote)
    requires BitToggling(r)
    ensures r.BitCount() <= 64
  {
  }

  lemma Plainly(r: Remote, code: Word)
    requires r.BitCount() <= 64
    ensures AsReceived(r, code) == GenCode(r, r.preData, code, r.postData)
  {
  }

  /** To a receiver both words are the same code. */
  lemma SameToReceiver(r: Remote, w: Word, a: Word, b: Word)
    requires r.BitCount() <= 64 && Flipped(r, a, b)
    ensures Matches(r, w, a) <==> Matches(r, w, b)
  {
    hide GenCode;
    assert Xor(Xor(b, r.toggleBitMask), r.toggleBitMask) == b;
    if Or(r.ignoreMask, a) == Or(r.ignoreMask, b) {
      OrXor(r.ignoreMask, r.toggleBitMask, a, b);
    } else {
      OrXor(r.ignoreMask, r.toggleBitMask, a, Xor(b, r.toggleBitMask));
    }
  }

  lemma OrXor(m: Word, x: Word, a: Word, b: Word)
    requires Or(m, a) == Or(m, b)
    ensures Or(m, Xor(a, x)) == Or(m, Xor(b, x))
  {
    forall j | 0 <= j < 64
      ensures Or(m, Xor(a, x))[j] == Or(m, Xor(b, x))[j]
    {
      assert Or(m, a)[j] == Or(m, b)[j];
    }
  }

  // ----- the state of the toggle bits -----

  /** Each request to send flips all of them. */
  function NextPress(r: Remote, t: Toggles): Toggles {
    t.(bitMaskState := Xor(t.bitMaskState, r.toggleBitMask))
  }

  lemma PressKeepsTogether(r: Remote, t: Toggles)
    ensures Together(r, NextPress(r, t)) <==> Together(r, t)
  {
    var u := NextPress(r, t);
    assert forall i :: 0 <= i < 64 && Counts(r, i) ==> u.bitMaskState[i] == !t.bitMaskState[i];
  }

  /** The state that the configuration starts with is made from the first code of the remote. */
  function StartingState(r: Remote, first: Word): Word {
    var state := And(first, r.toggleBitMask);
    if state != ZERO then Xor(state, r.toggleBitMask) else state
  }

  /** Toggle bits that are alike in the code `w`. */
  predicate Alike(r: Remote, w: Word) {
    BitsSet(r.toggleBitMask) == 1
    || forall i, j :: 0 <= i < 64 && 0 <= j < 64 && Counts(r, i) && Counts(r, j) ==> w[i] == w[j]
  }

  /** The first press sends the toggle bits set: a single one is 1 on the air, and several are those of
      the first code, or all of them if it has none. */
  lemma FirstPress(r: Remote, first: Word, mask: nat)
    ensures var t := NextPress(r, Toggles(StartingState(r, first), mask));
            && t.bitMaskState == (if And(first, r.toggleBitMask) != ZERO then And(first, r.toggleBitMask)
                                  else r.toggleBitMask)
            && (BitsSet(r.toggleBitMask) == 1 ==> t.bitMaskState == r.toggleBitMask)
  {
    var m, state, t := r.toggleBitMask, And(first, r.toggleBitMask),
                       NextPress(r, Toggles(StartingState(r, first), mask)).bitMaskState;
    forall j | 0 <= j < 64
      ensures t[j] == if state != ZERO then state[j] else m[j]
    {
      if state == ZERO { assert !state[j]; }
    }
    if BitsSet(m) == 1 && state != ZERO { OnlyBitSet(m, state); }
  }

  lemma NoBitIsZero(w: Word)
    requires forall j :: 0 <= j < 64 ==> !w[j]
    ensures w == ZERO
  {
  }

  lemma OnlyBitSet(m: Word, state: Word)
    requires BitsSet(m) == 1 && state != ZERO && forall j :: 0 <= j < 64 ==> state[j] ==> m[j]
    ensures state == m
  {
    hide BitsSet;
    if forall j :: 0 <= j < 64 ==> !state[j] {
      NoBitIsZero(state);
    } else {
      var i :| 0 <= i < 64 && state[i];
      forall j | 0 <= j < 64
        ensures state[j] == m[j]
      {
        if m[j] { OneBitSet(m, i, j); }
      }
    }
  }

  /** They go together from the start if and only if they are alike in the first code. */
  lemma StartsTogether(r: Remote, first: Word, mask: nat)
    ensures Together(r, Toggles(StartingState(r, first), mask)) <==> Alike(r, first)
  {
    var s := StartingState(r, first);
    assert And(first, r.toggleBitMask) != ZERO ==>
             forall i :: 0 <= i < 64 && Counts(r, i) ==> s[i] == !first[i];
    assert And(first, r.toggleBitMask) == ZERO ==>
             forall i :: 0 <= i < 64 && Counts(r, i) ==> And(first, r.toggleBitMask)[i] == first[i] == s[i];
  }

  /** A frame received leaves its own toggle bits as the state, for sending too: they go together if
      and only if they are alike in the code received. */
  lemma ReceivedTogether(r: Remote, all: Word, mask: nat)
    ensures Together(r, NextPress(r, Toggles(And(all, r.toggleBitMask), mask))) <==> Alike(r, all)
  {
    var s := NextPress(r, Toggles(And(all, r.toggleBitMask), mask)).bitMaskState;
    assert forall i :: 0 <= i < 64 && Counts(r, i) ==> s[i] == !all[i];
  }

  // ----- recognised by a receiver -----

  lemma ShiftedBit(w: Word, k: nat, j: nat)
    requires k <= j < 64
    ensures ShiftRight(w, k)[j] == w[j - k]
  {
  }

  /** A fixed part of the frame differs from what is configured in toggle bits only. */
  lemma FixedPart(r: Remote, t: Toggles, w: Word, bits: nat, done: nat, mask: Word)
    requires BitToggling(r) && done + bits <= r.BitCount() && Fits(w, bits)
    requires forall j :: 64 - bits <= j < 64 && !mask[j] ==> !r.toggleBitMask[j - (r.BitCount() - done - bits)]
    ensures Or(AirWord(r, t, w, bits, done), mask) == Or(w, mask)
  {
    var a, n := AirWord(r, t, w, bits, done), 64 - bits;
    forall j | 0 <= j < 64
      ensures Or(a, mask)[j] == Or(w, mask)[j]
    {
      if j < n {
        assert !Mask(w, bits)[j];
      } else {
        assert a[j] == AirBit(r, t, done + (j - n), Low(w, bits)[j - n]);
      }
    }
  }

  lemma FixedPartsMatch(r: Remote, t: Toggles, code: Word)
    requires BitToggling(r) && DataFits(r, code)
    ensures DataMatches(r, Arrives(r, t, code))
  {
    hide AirWord, Fits, ShiftRight, Mask;
    var k := r.bits + r.postDataBits;
    var pre := Or(ShiftRight(r.toggleBitMask, k), ShiftRight(r.ignoreMask, k));
    var post := Or(Mask(r.toggleBitMask, r.postDataBits), Mask(r.ignoreMask, r.postDataBits));
    forall j | 64 - r.preDataBits <= j < 64 && !pre[j]
      ensures !r.toggleBitMask[j - k]
    {
      ShiftedBit(r.toggleBitMask, k, j);
    }
    forall j | 64 - r.postDataBits <= j < 64 && !post[j]
      ensures !r.toggleBitMask[j]
    {
      MaskedBit(r.toggleBitMask, r.postDataBits, j);
    }
    if r.HasPre() { FixedPart(r, t, r.preData, r.preDataBits, 0, pre); }
    if r.HasPost() { FixedPart(r, t, r.postData, r.postDataBits, r.preDataBits + r.bits, post); }
  }

  lemma MaskedBit(w: Word, n: nat, j: nat)
    requires n <= 64 && 64 - n <= j < 64
    ensures Mask(w, n)[j] == w[j]
  {
  }

  /** The toggle bits of a frame, if there are any, go together. */
  predicate Recognisable(r: Remote, t: Toggles) {
    r.BitCount() <= 64 && !r.HasToggleMask() && (TogglesBits(r) ==> BitToggling(r) && Together(r, t))
  }

  lemma WordUntouched(r: Remote, t: Toggles, w: Word, bits: nat, done: nat)
    requires done + bits <= r.BitCount() <= 64 && !r.HasToggleMask() && !TogglesBits(r)
    ensures AirWord(r, t, w, bits, done) == Mask(w, bits)
  {
    if !r.HasToggleBitMask() { AirWordWithoutToggles(r, t, w, bits, done); }
  }

  lemma PlainOnArrival(r: Remote, t: Toggles, code: Word)
    requires r.BitCount() <= 64 && !r.HasToggleMask() && !TogglesBits(r) && DataFits(r, code)
    ensures Arrives(r, t, code) == Frames(r.preData, code, r.postData)
    ensures DataMatches(r, Arrives(r, t, code)) && OnArrival(r, t, code) == AsReceived(r, code)
  {
    hide AirWord, ShiftRight, Or, GenCode;
    WordUntouched(r, t, code, r.bits, r.preDataBits);
    WordUntouched(r, t, r.preData, r.preDataBits, 0);
    WordUntouched(r, t, r.postData, r.postDataBits, r.preDataBits + r.bits);
    if !r.HasPre() { ZeroWidth(r.preData); }
    if !r.HasPost() { ZeroWidth(r.postData); }
  }

  lemma SelfFlipped(r: Remote, a: Word)
    ensures Flipped(r, a, a)
  {
  }

  /** Sent with its toggle bits, a button is found as the first that has the code. */
  lemma SentButtonIsFound(r: Remote, s: State, codes: seq<NCode>, code: Word, f: nat, t: Toggles, time: Timing,
                          u: State, e: Option<Event>)
    requires Recognisable(r, t) && DataFits(r, code) && SingleCodes(codes) && FirstButton(r, codes, code, f)
    requires Step(r, s, codes, Arrives(r, t, code), time, u, e)
    ensures f < |codes| && Outcome(r, s, codes, OnArrival(r, t, code), Some(f), time, u, e)
  {
    hide Matches, AsReceived, Outcome, Reported, Arrives, GenCode, DataMatches, Together, Flipped, DataFits,
         OnArrival;
    var all := WholeCode(r, Arrives(r, t, code));
    WholeIs(r, t, code);
    if TogglesBits(r) {
      TogetherFlips(r, t, code);
      FixedPartsMatch(r, t, code);
    } else {
      PlainOnArrival(r, t, code);
      SelfFlipped(r, all);
    }
    forall i | 0 <= i < |codes|
      ensures Matches(r, codes[i].code, all) <==> Matches(r, codes[i].code, AsReceived(r, code))
    {
      SameToReceiver(r, codes[i].code, AsReceived(r, code), all);
    }
    var found :| Reported(r, codes, all, found) && Outcome(r, s, codes, all, found, time, u, e);
    FirstIsReported(r, codes, all, f, found);
  }

  lemma WholeIs(r: Remote, t: Toggles, code: Word)
    requires r.BitCount() <= 64
    ensures OnArrival(r, t, code) == WholeCode(r, Arrives(r, t, code))
  {
  }
}
