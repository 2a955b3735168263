/** Sender and receiver step through the toggle mask of a remote together: what the one puts on
    a frame the other takes off, and every second frame makes an event. */
module ToggleLock {
  import opened Options
  import opened Words
  import opened Remotes
  import opened Transmit
  import opened FrameRoundTrip
  import opened Recogniser
  import opened Decode
  import Sending = Passes

  /** The three words of a frame as they arrive. */
  function Arrives(r: Remote, t: Toggles, code: Word): Frames
    requires r.BitCount() <= 64
  {
    Frames(PreWord(r, t), AirWord(r, t, code, r.bits, r.preDataBits), PostWord(r, t))
  }

  /** A remote that uses a toggle mask, and a protocol that applies it. */
  predicate Toggling(r: Remote) {
    && r.BitCount() <= 64 && r.HasToggleMask() && !r.HasToggleBitMask() && !r.protocol.Rcmm? && !r.protocol.Xmp?
    && Fits(r.preData, r.preDataBits) && Fits(r.postData, r.postDataBits)
  }

  predicate SameParity(t: Toggles, s: State) {
    t.maskState % 2 == s.maskState % 2
  }

  /** The mask has a bit in what is sent. */
  predicate MaskInFrame(r: Remote)
    requires r.BitCount() <= 64
  {
    MaskIn(r, 0, r.BitCount())
  }

  /** The mask has one among the `bits` bits from bit `lo` on. */
  predicate MaskIn(r: Remote, lo: nat, bits: nat)
    requires lo + bits <= 64
  {
    exists n :: 64 - lo - bits <= n < 64 - lo && r.toggleMask[n]
  }

  lemma MaskInParts(r: Remote)
    requires r.BitCount() <= 64
    ensures MaskInFrame(r) <==>
            || MaskIn(r, 0, r.postDataBits) || MaskIn(r, r.postDataBits, r.bits)
            || MaskIn(r, r.postDataBits + r.bits, r.preDataBits)
  {
  }

  /** A bit of a frame after the receiver has taken the mask off, or not. */
  lemma PartBit(r: Remote, t: Toggles, s: State, w: Word, bits: nat, done: nat, lo: nat, j: nat)
    requires Toggling(r) && done + bits + lo == r.BitCount() && j < 64
    ensures var air := AirWord(r, t, w, bits, done);
            var u := if Odd(r, s) then XorPart(air, r.toggleMask, lo, bits) else air;
            u[j] == (Mask(w, bits)[j] != (j >= 64 - bits && !SameParity(t, s) && r.toggleMask[j - lo]))
  {
    var air, low := AirWord(r, t, w, bits, done), Low(w, bits);
    if j >= 64 - bits {
      var i := j - (64 - bits);
      assert air[j] == AirBit(r, t, done + i, low[i]);
      assert 63 - (r.BitCount() - 1 - (done + i)) == j - lo;
    }
  }

  lemma PartReceived(r: Remote, t: Toggles, s: State, w: Word, bits: nat, done: nat, lo: nat)
    requires Toggling(r) && done + bits + lo == r.BitCount()
    ensures var air := AirWord(r, t, w, bits, done);
            var u := if Odd(r, s) then XorPart(air, r.toggleMask, lo, bits) else air;
            u == Mask(w, bits) <==> SameParity(t, s) || !MaskIn(r, lo, bits)
  {
    hide AirWord, XorPart, Mask, SameParity;
    var air := AirWord(r, t, w, bits, done);
    var u := if Odd(r, s) then XorPart(air, r.toggleMask, lo, bits) else air;
    forall j | 0 <= j < 64
      ensures u[j] == (Mask(w, bits)[j] != (j >= 64 - bits && !SameParity(t, s) && r.toggleMask[j - lo]))
    {
      PartBit(r, t, s, w, bits, done, lo, j);
    }
    if MaskIn(r, lo, bits) {
      var n :| 64 - lo - bits <= n < 64 - lo && r.toggleMask[n];
      assert u[n + lo] == (Mask(w, bits)[n + lo] != !SameParity(t, s));
    }
  }

  /** Whatever the sender's toggle state, a receiver gets the plain words just if it is of the same
      parity, or nothing that is sent is masked. */
  lemma UntoggleCancels(r: Remote, t: Toggles, s: State, code: Word)
    requires r.BitCount() <= 64 && Toggling(r)
    ensures Plaintext(r, s, Arrives(r, t, code)) == Frames(r.preData, Mask(code, r.bits), r.postData)
            <==> SameParity(t, s) || !MaskInFrame(r)
  {
    hide AirWord, XorPart, Mask, Toggling, MaskIn, SameParity;
    TogglingParts(r);
    MaskInParts(r);
    PartReceived(r, t, s, r.preData, r.preDataBits, 0, r.postDataBits + r.bits);
    PartReceived(r, t, s, code, r.bits, r.preDataBits, r.postDataBits);
    PartReceived(r, t, s, r.postData, r.postDataBits, r.preDataBits + r.bits, 0);
    NothingToggled(r, t);
  }

  lemma TogglingParts(r: Remote)
    requires Toggling(r)
    ensures r.BitCount() <= 64 && r.HasToggleMask() && !r.HasToggleBitMask()
    ensures Mask(r.preData, r.preDataBits) == r.preData && Mask(r.postData, r.postDataBits) == r.postData
  {
  }

  lemma NothingToggled(r: Remote, t: Toggles)
    requires Toggling(r)
    ensures !r.HasPre() ==> AirWord(r, t, r.preData, r.preDataBits, 0) == ZERO
    ensures !r.HasPost() ==> AirWord(r, t, r.postData, r.postDataBits, r.preDataBits + r.bits) == ZERO
  {
  }

  /** `f` is the first button with this code. */
  ghost predicate FirstButton(r: Remote, codes: seq<NCode>, code: Word, f: nat)
    requires r.BitCount() <= 64
  {
    && f < |codes| && Matches(r, codes[f].code, AsReceived(r, code))
    && forall i :: 0 <= i < f ==> !Matches(r, codes[i].code, AsReceived(r, code))
  }

  ghost predicate SingleCodes(codes: seq<NCode>) {
    forall i :: 0 <= i < |codes| ==> codes[i].next == [] && codes[i].current == 0
  }

  lemma GenCodeMasks(r: Remote, code: Word)
    requires r.BitCount() <= 64
    ensures GenCode(r, r.preData, Mask(code, r.bits), r.postData) == AsReceived(r, code)
  {
    assert Low(Mask(code, r.bits), r.bits) == Low(code, r.bits);
  }

  lemma FirstIsReported(r: Remote, codes: seq<NCode>, all: Word, f: nat, found: Option<nat>)
    requires r.BitCount() <= 64 && SingleCodes(codes) && f < |codes| && Matches(r, codes[f].code, all)
    requires forall i :: 0 <= i < f ==> !Matches(r, codes[i].code, all)
    requires Reported(r, codes, all, found)
    ensures found == Some(f)
  {
    hide Matches;
    assert forall i :: 0 <= i < |codes| ==> (Completes(r, codes[i], all) <==> Matches(r, codes[i].code, all));
    assert Completes(r, codes[f], all);
  }

  lemma ReportsFirst(r: Remote, codes: seq<NCode>, code: Word, f: nat, found: Option<nat>)
    requires r.BitCount() <= 64 && SingleCodes(codes) && FirstButton(r, codes, code, f)
    requires Reported(r, codes, AsReceived(r, code), found)
    ensures found == Some(f)
  {
    hide Matches, AsReceived, Reported;
    FirstIsReported(r, codes, AsReceived(r, code), f, found);
  }

  /** One frame at the same parity: it is the button that was sent. */
  lemma FrameIsButton(r: Remote, s: State, codes: seq<NCode>, code: Word, f: nat, t: Toggles, time: Timing,
                      u: State, e: Option<Event>)
    requires Toggling(r) && SingleCodes(codes) && FirstButton(r, codes, code, f) && SameParity(t, s)
    requires Step(r, s, codes, Arrives(r, t, code), time, u, e)
    ensures Outcome(r, s, codes, AsReceived(r, code), Some(f), time, u, e)
  {
    hide Plaintext, Matches, AsReceived, Outcome, Reported, Arrives, GenCode;
    UntoggleCancels(r, t, s, code);
    GenCodeMasks(r, code);
    assert WholeCode(r, Plaintext(r, s, Arrives(r, t, code))) == AsReceived(r, code);
    var found :| Reported(r, codes, AsReceived(r, code), found)
                 && Outcome(r, s, codes, AsReceived(r, code), found, time, u, e);
    ReportsFirst(r, codes, code, f, found);
  }

  /** The sender's toggle state for frame `k` of a button. */
  function MaskAt(r: Remote, t: Toggles, k: nat): Toggles {
    if k == 0 then t else Sending.StepMask(r, MaskAt(r, t, k - 1))
  }

  /** The states a receiver goes through, and the events it announces, while the sender sends
      the frames of one button; every frame but the first is recognised as a repetition. */
  ghost predicate Receiving(r: Remote, codes: seq<NCode>, code: Word, t: Toggles, times: seq<Timing>,
                            states: seq<State>, events: seq<Option<Event>>)
    requires r.BitCount() <= 64 && AllValid(codes)
  {
    && |states| == |times| + 1 && |events| == |times|
    && (forall k :: 0 <= k < |times| ==>
          Step(r, states[k], codes, Arrives(r, MaskAt(r, t, k), code), times[k], states[k + 1], events[k]))
    && (forall k :: 0 < k < |times| ==> times[k] == Timing(true, true, true))
    && (|times| > 0 ==> !times[0].repeatFlag)
  }

  /** What is announced at the `n`-th repetition. */
  function Counted(r: Remote, f: nat, n: nat): Option<Event> {
    if n == 0 then Some(Event(f, 0))
    else if n <= r.suppressRepeat then None
    else Some(Event(f, n - r.suppressRepeat))
  }

  /** The mask states are 0, 1, 2, 3, 2, 3, ... */
  function MaskNumber(k: nat): nat {
    if k < 2 then k else if k % 2 == 0 then 2 else 3
  }

  lemma {:induction false} MaskNumbers(r: Remote, t: Toggles, k: nat)
    requires r.HasToggleMask() && t.maskState == 0
    ensures MaskAt(r, t, k).maskState == MaskNumber(k)
  {
    if k == 0 {
    } else {
      MaskNumbers(r, t, k - 1);
    }
  }

  /** The receiver after `k` frames of button `f`: in step with the sender. */
  predicate InStep(f: nat, k: nat, s: State) {
    if k == 0 then s.maskState % 2 == 0
    else
      && s.maskState == MaskNumber(k)
      && s.lastCode == Some(f) && !s.releaseDetected
      && (k % 2 == 1 ==> s.toggleCode == Some(f))
      && s.reps == (if k < 2 then 0 else k / 2 - 1)
  }

  lemma StepsTogether(r: Remote, s: State, codes: seq<NCode>, code: Word, f: nat, t: Toggles, k: nat, time: Timing,
                      u: State, e: Option<Event>)
    requires Toggling(r) && SingleCodes(codes) && FirstButton(r, codes, code, f) && t.maskState == 0
    requires InStep(f, k, s)
    requires if k == 0 then !time.repeatFlag else time == Timing(true, true, true)
    requires Step(r, s, codes, Arrives(r, MaskAt(r, t, k), code), time, u, e)
    ensures InStep(f, k + 1, u)
    ensures e == if k % 2 == 0 then None else Counted(r, f, k / 2)
  {
    hide Arrives, AsReceived, Step, FirstButton, MaskAt, Toggling, Matches, Plaintext;
    TogglingParts(r);
    MaskNumbers(r, t, k);
    FrameIsButton(r, s, codes, code, f, MaskAt(r, t, k), time, u, e);
    assert f < |codes| by { FirstInRange(r, codes, code, f); }
    assert Advance(r, codes[f], AsReceived(r, code)).current == 0;
  }

  lemma FirstInRange(r: Remote, codes: seq<NCode>, code: Word, f: nat)
    requires r.BitCount() <= 64 && FirstButton(r, codes, code, f)
    ensures f < |codes|
  {
  }

  /** The toggle mask lock, over any number of frames. */
  lemma {:induction false} SenderAndReceiverLock(r: Remote, codes: seq<NCode>, code: Word, f: nat, t: Toggles,
                                                 times: seq<Timing>, states: seq<State>,
                                                 events: seq<Option<Event>>, k: nat)
    requires Toggling(r) && SingleCodes(codes) && FirstButton(r, codes, code, f) && t.maskState == 0
    requires Receiving(r, codes, code, t, times, states, events) && states[0].maskState % 2 == 0
    requires k <= |times|
    ensures k > 0 ==> states[k].maskState == MaskAt(r, t, k).maskState
    ensures forall i :: 0 <= i < k ==> events[i] == if i % 2 == 0 then None else Counted(r, f, i / 2)
    ensures InStep(f, k, states[k])
  {
    hide Step, Arrives, FirstButton, Counted, MaskAt;
    MaskNumbers(r, t, k);
    if k == 0 {
    } else {
      SenderAndReceiverLock(r, codes, code, f, t, times, states, events, k - 1);
      StepsTogether(r, states[k - 1], codes, code, f, t, k - 1, times[k - 1], states[k], events[k - 1]);
    }
  }
}
