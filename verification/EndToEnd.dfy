/** From the button sent to the event announced: the encoder, the transmit buffer, the decoder and
    the recogniser together. */
module EndToEnd {
  import opened Options
  import opened Words
  import opened SendBuffers
  import opened Signals
  import opened Remotes
  import opened Transmit
  import opened RecBuffers
  import opened Receive
  import opened FrameRoundTrip
  import opened RepeatCodes
  import opened DecodeRoundTrip
  import opened CodeSurvives
  import opened ToggleLock
  import opened ToggleBits
  import opened Repetitions
  import Recognising = Recogniser
  import Deciding = Decode

  /** What the recogniser of the receiving side makes of a decoded frame. */
  ghost predicate Handled(r: Remote, before: Deciding.State, codes: seq<Recognising.NCode>, f: Frame, same: bool,
                          recent: bool, after: Deciding.State, e: Option<Deciding.Event>)
    requires r.BitCount() <= 64 && Recognising.AllValid(codes)
  {
    Deciding.Step(r, before, codes, Deciding.Frames(f.pre, f.code, f.post),
                  Deciding.Timing(f.repeatFlag, same, recent), after, e)
  }

  /** A button of a single code, of a remote without toggle mask, is sent as a first frame by a
      transmitter and received by a daemon with the same configuration, whatever that heard
      before (where a repeat code is looked for first, the frame has to be told from one): the
      frame is decoded, the button is recognised with its toggle bits flipped or not, and its event
      has the repeat count that the state before asks for. */
  lemma SentButtonIsAnnounced(s: Rx, r: Remote, t: Toggles, code: Word, c: Context, gap: nat, tail: seq<Sig>, u: Tx,
                              codes: seq<Recognising.NCode>, f: nat, before: Deciding.State, same: bool, recent: bool,
                              after: Deciding.State, e: Option<Deciding.Event>)
    requires Sound(r) && BeginsWithPulse(r) && Synchronises(r, c, gap)
    requires Recognisable(r, t) && DataFits(r, code)
    requires Sent(r, t, code, u) && Delivers(s, gap, Levels(u.buf), tail) && Ends(r, u.sum - Discount(r), tail)
    requires Told(r, c, FrameSignals(r, t, code, false), tail)
    requires SingleCodes(codes) && FirstButton(r, codes, code, f)
    requires var d := ReceiveDecode(s, r, c);
             d.frame.Some? ==> Handled(r, before, codes, d.frame.value, same, recent, after, e)
    ensures var d := ReceiveDecode(s, r, c);
            var bits := Deciding.And(OnArrival(r, t, code), r.toggleBitMask);
            && d.frame.Some?
            && after.lastCode == Some(f) && (r.HasToggleBitMask() ==> after.bitMaskState == bits)
            && after.reps == (if d.frame.value.repeatFlag && same && recent && !before.releaseDetected
                                 && before.lastCode == Some(f)
                                 && (!r.HasToggleBitMask() || bits == before.bitMaskState)
                              then before.reps + 1 else 0)
            && e == Counted(r, f, after.reps)
  {
    hide Sound, ReceiveDecode, Sent, Ends, Synchronises, BeginsWithPulse, Deciding.Step, FirstButton,
         Recognising.AsReceived, Told, Transmissible, FrameSignals, AirWord, Recognisable, DataFits, OnArrival;
    SoundSplits(r);
    BeginsTransmissible(r, t, code);
    FramePositive(r, t, code);
    DecodeUndoesSendBuffer(s, r, t, code, c, gap, tail, u);
    var frame := ReceiveDecode(s, r, c).frame.value;
    SentButtonIsFound(r, before, codes, code, f, t, Deciding.Timing(frame.repeatFlag, same, recent), after, e);
    NoMask(r, t);
    assert Recognising.Advance(r, codes[f], OnArrival(r, t, code)).current == 0;
  }

  lemma NoMask(r: Remote, t: Toggles)
    requires Recognisable(r, t)
    ensures !r.HasToggleMask()
  {
  }

  // ----- a toggle mask over a whole run -----

  /** One frame as it reaches the receiver: the receiver's buffer and context, the gap before the
      frame and what follows it, and how it relates to what was decoded last. */
  datatype Reception = Reception(s: Rx, c: Context, gap: nat, tail: seq<Sig>, same: bool, recent: bool)

  /** What is on the air is frame `k` of the button, whole and followed by a gap. */
  predicate Reaches(r: Remote, t: Toggles, code: Word, k: nat, x: Reception)
    requires r.BitCount() <= 64
  {
    var f := FrameSignals(r, t, code, k > 0);
    && Synchronises(r, x.c, x.gap) && Delivers(x.s, x.gap, Air(f), x.tail)
    && if k == 0 then
         Transmissible(r, t, code) && Told(r, x.c, f, x.tail) && Ends(r, Total(Air(f)) - Discount(r), x.tail)
       else
         && WithFoot(r) && Repeatable(r, t, code, x.gap, x.tail) && ToldRepetition(r, t, code, x.c, x.tail)
         && Ends(r, Total(Air(f)), x.tail)
  }

  lemma WholeRepetitionLeads(r: Remote, t: Toggles, code: Word, gap: nat, tail: seq<Sig>)
    requires r.BitCount() <= 64 && WithFoot(r) && Repeatable(r, t, code, gap, tail)
    requires HeaderRepeated(r) ==> !r.noHeadRep
    ensures HeaderLeads(r, FrameSignals(r, t, code, true))
  {
    hide AfterHeader, FrameSignals, HeaderLeads, Air;
    SameFoot(r);
    RepetitionLeads(r, t, code);
  }

  // ----- a mask state that is out of step -----

  /** The gap is too long to be one after a frame of the remote decoded last (`sync_rec_buffer`). */
  predicate Late(r: Remote, c: Context, gap: nat) {
    !r.protocol.Rcmm? && c.last.Last? && !c.last.remote.ExpectAtMost(gap, c.last.maxRemainingGap)
  }

  /** Such a gap makes the toggle mask start over. */
  function Resynced(r: Remote, c: Context, gap: nat, s: Deciding.State): Deciding.State {
    if r.HasToggleMask() && Late(r, c, gap) then s.(maskState := 0, toggleCode := None) else s
  }

  /** The remote decoded last is this one, and the gap expected after its frame is that of the
      context. */
  predicate OwnLast(r: Remote, c: Context) {
    c.last.Last? && c.last.remote == r && c.last.maxRemainingGap == c.maxRemainingGap
  }

  /** What is no repetition of the own last frame comes late. */
  lemma NewFrameIsLate(r: Remote, c: Context, gap: nat)
    requires OwnLast(r, c) && !r.HasRepeat() && !r.protocol.Rcmm? && !IsRepeat(r, c, gap)
    ensures Late(r, c, gap)
  {
  }

  /** So a new press begins with an even mask state, whatever was left behind by the last one; RC-MM
      remotes are not resynchronised. */
  lemma NewPressIsResynced(r: Remote, c: Context, gap: nat, s: Deciding.State)
    requires r.HasToggleMask() && OwnLast(r, c) && !r.HasRepeat() && !IsRepeat(r, c, gap)
    ensures !r.protocol.Rcmm? ==>
              Resynced(r, c, gap, s).maskState == 0 && Resynced(r, c, gap, s).toggleCode == None
    ensures r.protocol.Rcmm? ==> Resynced(r, c, gap, s) == s
  {
    hide IsRepeat;
    if !r.protocol.Rcmm? { NewFrameIsLate(r, c, gap); }
  }

  /** It is decoded to the words that the toggle lock is about, and taken for a repetition just if
      the gap before it says so. */
  lemma FrameReaches(r: Remote, t: Toggles, code: Word, k: nat, x: Reception)
    requires Sound(r) && Reaches(r, t, code, k, x) && Safe(x.s.tape)
    ensures var d := ReceiveDecode(x.s, r, x.c);
            && d.frame.Some? && d.frame.value.repeatFlag == IsRepeat(r, x.c, x.gap)
            && Deciding.Frames(d.frame.value.pre, d.frame.value.code, d.frame.value.post) == Arrives(r, t, code)
  {
    hide Sound, ReceiveDecode, FrameSignals, Air, Transmissible, Ends, Repeatable, Synchronises, AirWord, IsRepeat,
         Told, HeaderLeads;
    SoundSplits(r);
    var f := FrameSignals(r, t, code, k > 0);
    if k == 0 {
      FrameLeads(r, t, code);
    } else if r.HasRepeat() && x.c.own {
      WholeRepetitionLeads(r, t, code, x.gap, x.tail);
    }
    DecodeFlag(x.s, r, x.c, x.gap, f, x.tail);
    if k == 0 {
      DecodeUndoesSend(x.s, r, t, code, x.c, x.gap, x.tail);
    } else {
      DecodeUndoesRepetition(x.s, r, t, code, x.c, x.gap, x.tail);
    }
  }

  /** The receiver's states and events over the frames `heard`: the first is no repetition, all
      others are. */
  ghost predicate Follows(r: Remote, codes: seq<Recognising.NCode>, code: Word, t: Toggles, heard: seq<Reception>,
                          states: seq<Deciding.State>, events: seq<Option<Deciding.Event>>)
    requires r.BitCount() <= 64 && Decodable(r) && Recognising.AllValid(codes)
  {
    && |states| == |heard| + 1 && |events| == |heard|
    && (forall k :: 0 <= k < |heard| ==> FollowsAt(r, codes, code, t, k, heard[k], states[k], states[k + 1], events[k]))
  }

  ghost predicate FollowsAt(r: Remote, codes: seq<Recognising.NCode>, code: Word, t: Toggles, k: nat, x: Reception,
                            before: Deciding.State, after: Deciding.State, e: Option<Deciding.Event>)
    requires r.BitCount() <= 64 && Decodable(r) && Recognising.AllValid(codes)
  {
    && Safe(x.s.tape) && Reaches(r, MaskAt(r, t, k), code, k, x)
    && (if k == 0 then !IsRepeat(r, x.c, x.gap)
        else IsRepeat(r, x.c, x.gap) && x.same && x.recent && OwnLast(r, x.c))
    && var d := ReceiveDecode(x.s, r, x.c);
       d.frame.Some? ==>
         Handled(r, Resynced(r, x.c, x.gap, before), codes, d.frame.value, x.same, x.recent, after, e)
  }

  function Times(r: Remote, heard: seq<Reception>): (times: seq<Deciding.Timing>)
    ensures |times| == |heard|
  {
    seq(|heard|, k requires 0 <= k < |heard| =>
      Deciding.Timing(IsRepeat(r, heard[k].c, heard[k].gap), heard[k].same, heard[k].recent))
  }

  lemma FollowsStep(r: Remote, codes: seq<Recognising.NCode>, code: Word, t: Toggles, k: nat, x: Reception,
                    before: Deciding.State, after: Deciding.State, e: Option<Deciding.Event>)
    requires Sound(r) && r.BitCount() <= 64 && Decodable(r) && Recognising.AllValid(codes)
    requires FollowsAt(r, codes, code, t, k, x, before, after, e)
    ensures Deciding.Step(r, Resynced(r, x.c, x.gap, before), codes, Arrives(r, MaskAt(r, t, k), code),
                          Deciding.Timing(IsRepeat(r, x.c, x.gap), x.same, x.recent), after, e)
  {
    hide Deciding.Step, Sound, Reaches, ReceiveDecode, Arrives, IsRepeat, MaskAt, Resynced;
    FrameReaches(r, MaskAt(r, t, k), code, k, x);
  }

  /** A button held on a remote with a toggle mask: frame after frame sent, decoded and recognised,
      exactly every second one makes an event, and these are numbered in order. An odd mask state
      to begin with does no harm if the first frame comes late enough. */
  lemma ToggledButtonIsAnnounced(r: Remote, codes: seq<Recognising.NCode>, code: Word, f: nat, t: Toggles,
                                 heard: seq<Reception>, states: seq<Deciding.State>,
                                 events: seq<Option<Deciding.Event>>)
    requires Sound(r) && Toggling(r) && Decodable(r) && SingleCodes(codes) && FirstButton(r, codes, code, f)
    requires t.maskState == 0 && Follows(r, codes, code, t, heard, states, events)
    requires heard != [] ==> Resynced(r, heard[0].c, heard[0].gap, states[0]).maskState % 2 == 0
    ensures forall k :: 0 <= k < |events| ==> events[k] == if k % 2 == 0 then None else Counted(r, f, k / 2)
  {
    hide Sound, Toggling, Deciding.Step, Arrives, IsRepeat, FirstButton, Counted, FollowsAt, Decodable, Resynced;
    TogglingSplits(r);
    if heard == [] { return; }
    var times := Times(r, heard);
    var synced := states[0 := Resynced(r, heard[0].c, heard[0].gap, states[0])];
    forall k | 0 <= k < |heard|
      ensures Deciding.Step(r, synced[k], codes, Arrives(r, MaskAt(r, t, k), code), times[k], synced[k + 1], events[k])
      ensures k == 0 ==> !times[k].repeatFlag
      ensures k > 0 ==> times[k] == Deciding.Timing(true, true, true)
    {
      FollowsStep(r, codes, code, t, k, heard[k], states[k], states[k + 1], events[k]);
      FollowsTiming(r, codes, code, t, k, heard[k], states[k], states[k + 1], events[k]);
    }
    SenderAndReceiverLock(r, codes, code, f, t, times, synced, events, |times|);
  }

  lemma TogglingSplits(r: Remote)
    requires Toggling(r)
    ensures r.BitCount() <= 64
  {
  }

  lemma FollowsTiming(r: Remote, codes: seq<Recognising.NCode>, code: Word, t: Toggles, k: nat, x: Reception,
                      before: Deciding.State, after: Deciding.State, e: Option<Deciding.Event>)
    requires r.BitCount() <= 64 && Decodable(r) && Recognising.AllValid(codes)
    requires FollowsAt(r, codes, code, t, k, x, before, after, e)
    ensures if k == 0 then !IsRepeat(r, x.c, x.gap) else IsRepeat(r, x.c, x.gap) && x.same && x.recent
    ensures k > 0 ==> Resynced(r, x.c, x.gap, before) == before
  {
    hide Reaches, ReceiveDecode, Handled;
  }

  // ----- a button held -----

  /** What is on the air is a repeat code, followed by a gap, after a frame of the same remote. */
  predicate RepeatReaches(r: Remote, x: Reception) {
    var f := RepeatSignals(r);
    && x.c.own && Synchronises(r, x.c, x.gap) && Delivers(x.s, x.gap, Air(f), x.tail)
    && RepeatEnds(r, Total(Air(f)), x.tail)
  }

  /** The last code the decoder knows of is that of the button recognised last. */
  predicate LastCodeIs(codes: seq<Recognising.NCode>, s: Deciding.State, c: Context) {
    c.lastCode == if s.lastCode.Some? && s.lastCode.value < |codes| then Some(codes[s.lastCode.value].code) else None
  }

  /** The frame of a button, and after that its repeat codes, or the frame again if there is no
      repeat code, with the same toggle bits. */
  ghost predicate HeldAt(r: Remote, codes: seq<Recognising.NCode>, code: Word, t: Toggles, k: nat, x: Reception,
                         before: Deciding.State, after: Deciding.State, e: Option<Deciding.Event>)
    requires r.BitCount() <= 64 && Decodable(r) && Recognising.AllValid(codes)
  {
    && Safe(x.s.tape)
    && (if k == 0 then Reaches(r, t, code, 0, x) && !IsRepeat(r, x.c, x.gap)
        else if r.HasRepeat() then RepeatReaches(r, x) && LastCodeIs(codes, before, x.c) && x.same && x.recent
        else Reaches(r, t, code, k, x) && IsRepeat(r, x.c, x.gap) && x.same && x.recent)
    && var d := ReceiveDecode(x.s, r, x.c);
       d.frame.Some? ==> Handled(r, before, codes, d.frame.value, x.same, x.recent, after, e)
  }

  ghost predicate Held(r: Remote, codes: seq<Recognising.NCode>, code: Word, t: Toggles, heard: seq<Reception>,
                       states: seq<Deciding.State>, events: seq<Option<Deciding.Event>>)
    requires r.BitCount() <= 64 && Decodable(r) && Recognising.AllValid(codes)
  {
    && |states| == |heard| + 1 && |events| == |heard|
    && (forall k :: 0 <= k < |heard| ==> HeldAt(r, codes, code, t, k, heard[k], states[k], states[k + 1], events[k]))
  }

  /** The remotes this is about, and the button; a repeat code has no toggle bits. */
  ghost predicate HeldButton(r: Remote, t: Toggles, codes: seq<Recognising.NCode>, code: Word, f: nat) {
    && Sound(r) && Recognisable(r, t) && DataFits(r, code)
    && (r.HasRepeat() ==> !r.IsBiphase() && !r.HasToggleBitMask())
    && SingleCodes(codes) && FirstButton(r, codes, code, f) && codes[f].code == code
  }

  lemma HeldStep(r: Remote, codes: seq<Recognising.NCode>, code: Word, f: nat, t: Toggles, k: nat, x: Reception,
                 before: Deciding.State, after: Deciding.State, e: Option<Deciding.Event>)
    returns (time: Deciding.Timing)
    requires HeldButton(r, t, codes, code, f) && (k > 0 ==> before.lastCode == Some(f))
    requires r.BitCount() <= 64 && Decodable(r) && HeldAt(r, codes, code, t, k, x, before, after, e)
    ensures if k == 0 then !time.repeatFlag else time == Deciding.Timing(true, true, true)
    ensures Deciding.Step(r, before, codes, Arrives(r, t, code), time, after, e)
  {
    hide Deciding.Step, Sound, Reaches, ReceiveDecode, Arrives, IsRepeat, FirstButton, DataFits, Air, RepeatSignals,
         Synchronises, Delivers, RepeatEnds, Recognisable;
    SoundSplits(r);
    var d := ReceiveDecode(x.s, r, x.c);
    if k > 0 && r.HasRepeat() {
      FirstInRange(r, codes, code, f);
      RepeatCodeIsReceived(x.s, r, x.c, x.gap, x.tail);
      NoMask(r, t);
      PlainOnArrival(r, t, code);
      time := Deciding.Timing(true, true, true);
    } else {
      FrameReaches(r, t, code, k, x);
      time := Deciding.Timing(d.frame.value.repeatFlag, x.same, x.recent);
    }
  }

  /** The state of the receiver after `k` of them. */
  predicate Counting(r: Remote, t: Toggles, code: Word, f: nat, k: nat, s: Deciding.State)
    requires r.BitCount() <= 64
  {
    k > 0 ==>
      && s.lastCode == Some(f) && s.reps == k - 1 && !s.releaseDetected
      && (r.HasToggleBitMask() ==> s.bitMaskState == Deciding.And(OnArrival(r, t, code), r.toggleBitMask))
  }

  lemma StepCounts(r: Remote, codes: seq<Recognising.NCode>, code: Word, f: nat, t: Toggles, k: nat,
                   time: Deciding.Timing, before: Deciding.State, after: Deciding.State, e: Option<Deciding.Event>)
    requires HeldButton(r, t, codes, code, f) && r.BitCount() <= 64 && Counting(r, t, code, f, k, before)
    requires if k == 0 then !time.repeatFlag else time == Deciding.Timing(true, true, true)
    requires Deciding.Step(r, before, codes, Arrives(r, t, code), time, after, e)
    ensures Counting(r, t, code, f, k + 1, after) && e == Counted(r, f, k)
  {
    hide Sound, Deciding.Step, FirstButton, DataFits, Recognisable, OnArrival, Arrives;
    SentButtonIsFound(r, before, codes, code, f, t, time, after, e);
    NoMask(r, t);
    assert Recognising.Advance(r, codes[f], OnArrival(r, t, code)).current == 0;
  }

  /** A button held on a remote without toggle mask: the frame and each repeat code or repetition
      after it is announced, numbered in order. */
  lemma {:induction false} HeldButtonIsAnnounced(r: Remote, codes: seq<Recognising.NCode>, code: Word, f: nat,
                                                 t: Toggles, heard: seq<Reception>, states: seq<Deciding.State>,
                                                 events: seq<Option<Deciding.Event>>, k: nat)
    requires HeldButton(r, t, codes, code, f) && r.BitCount() <= 64 && Decodable(r)
    requires Held(r, codes, code, t, heard, states, events) && k <= |heard|
    ensures Counting(r, t, code, f, k, states[k])
    ensures forall i :: 0 <= i < k ==> events[i] == Counted(r, f, i)
  {
    hide HeldButton, HeldAt, Deciding.Step, Counted, Arrives, OnArrival;
    if k == 0 {
    } else {
      HeldButtonIsAnnounced(r, codes, code, f, t, heard, states, events, k - 1);
      var time :=
        HeldStep(r, codes, code, f, t, k - 1, heard[k - 1], states[k - 1], states[k], events[k - 1]);
      StepCounts(r, codes, code, f, t, k - 1, time, states[k - 1], states[k], events[k - 1]);
    }
  }
}
