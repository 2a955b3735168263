/** What can be told of the frames of a pass from the configuration alone: whether they begin with
    a pulse, and whether there is a pulse in them at all. */
module FrameShapes {
  import opened Words
  import opened Signals
  import opened SendBuffers
  import opened Remotes
  import opened Transmit
  import opened RoundTrip
  import opened FrameRoundTrip
  import opened DecodeRoundTrip
  import opened CodeSurvives
  import opened Passes

  /** The frames of this remote begin with a pulse, are without empty signals, and are followed by
      a gap. */
  predicate Wellformed(r: Remote) {
    && Sendable(r) && r.MinGap() > 0
    && (BodyBegins(r) || (r.HasHeader() && (!r.noHeadRep || r.HasRepeat())))
  }

  lemma PassWellformed(r: Remote, b: Button, t: Turn)
    requires Wellformed(r) && InSequence(b, t)
    ensures StartsPulse(PassSignals(r, b, t)) && Positive(PassSignals(r, b, t))
  {
    hide FrameSignals, AfterHeader, RepeatSignals, BodyBegins, Positive;
    if SendsCode(r, t) {
      AnyFramePositive(r, t.toggles, CodeOf(b, t), t.repeat);
      AnyFrameNested(r, t.toggles, CodeOf(b, t), t.repeat);
      if BodyBegins(r) {
        BodyStartsPulse(r, t.toggles, CodeOf(b, t), if !t.repeat || !r.noFootRep then FootSignals(r) else []);
      }
    } else {
      RepeatParts(r);
    }
  }

  // ----- frames that fill the buffer -----

  predicate HasPulse(f: seq<Sig>) {
    exists i :: 0 <= i < |f| && f[i].Pulse? && f[i].len > 0
  }

  lemma HasPulseConcat(a: seq<Sig>, b: seq<Sig>)
    ensures HasPulse(a + b) <==> HasPulse(a) || HasPulse(b)
  {
    if i :| 0 <= i < |a| && a[i].Pulse? && a[i].len > 0 { assert (a + b)[i] == a[i]; }
    if i :| 0 <= i < |b| && b[i].Pulse? && b[i].len > 0 { assert (a + b)[|a| + i] == b[i]; }
    if i :| 0 <= i < |a + b| && (a + b)[i].Pulse? && (a + b)[i].len > 0 {
      if i < |a| { assert a[i] == (a + b)[i]; } else { assert b[i - |a|] == (a + b)[i]; }
    }
  }

  /** XMP sends a symbol of such data. */
  predicate SendsNibbles(r: Remote, bits: nat, done: nat) {
    r.pzero > 0 && bits >= 4 && bits % 4 == 0 && done % 4 == 0
  }

  /** Something in a frame is a pulse: the first of these parts is in every frame, the second may
      be left out of a repetition. */
  predicate PulseInMiddle(r: Remote) {
    || r.plead > 0 || r.ptrail > 0 || SendsNibbles(r, r.bits, r.preDataBits)
    || (r.HasPre() && (SendsNibbles(r, r.preDataBits, 0) || (r.preP > 0 && r.preS > 0)))
    || (r.HasPost() && (SendsNibbles(r, r.postDataBits, r.preDataBits + r.bits) || (r.postP > 0 && r.postS > 0)))
  }

  predicate PulseInFrame(r: Remote, repeat: bool) {
    || PulseInMiddle(r)
    || (r.HasHeader() && (!repeat || !r.noHeadRep)) || (r.HasFoot() && (!repeat || !r.noFootRep))
  }

  lemma {:induction false} NibblesPulse(r: Remote, bs: seq<bool>)
    ensures HasPulse(EncodeNibbles(r, bs)) <==> |bs| >= 4 && r.pzero > 0
    decreases |bs|
  {
    if |bs| >= 4 {
      var e := EncodeNibble(r, bs[..4]);
      HasPulseConcat(e, EncodeNibbles(r, bs[4..]));
      NibblesPulse(r, bs[4..]);
      assert e[0] == Pulse(r.pzero);
    }
  }

  lemma DataPulse(r: Remote, t: Toggles, w: Word, bits: nat, done: nat)
    requires r.protocol.Xmp? && done + bits <= r.BitCount() <= 64
    ensures HasPulse(DataSignals(r, t, w, bits, done)) <==> SendsNibbles(r, bits, done)
  {
    NibblesPulse(r, Low(w, bits));
  }

  lemma PairPulse(p: nat, d: nat)
    ensures HasPulse([Pulse(p), Space(d)]) <==> p > 0
    ensures HasPulse([Space(d), Pulse(p)]) <==> p > 0
    ensures HasPulse([Pulse(p)]) <==> p > 0
    ensures !HasPulse([])
  {
    assert [Pulse(p), Space(d)][0] == Pulse(p) && [Space(d), Pulse(p)][1] == Pulse(p) && [Pulse(p)][0] == Pulse(p);
  }

  lemma BeforeDataPulse(r: Remote, t: Toggles, repeat: bool)
    requires r.protocol.Xmp? && r.BitCount() <= 64
    ensures HasPulse(BeforeData(r, t, repeat)) <==>
            || (r.HasHeader() && (!repeat || !r.noHeadRep)) || r.plead > 0
            || (r.HasPre() && (SendsNibbles(r, r.preDataBits, 0) || (r.preP > 0 && r.preS > 0)))
  {
    hide HasPulse, DataSignals, SendsNibbles;
    var head := if !repeat || !r.noHeadRep then HeaderSignals(r) else [];
    PairPulse(r.phead, r.shead);
    PairPulse(r.plead, 0);
    PairPulse(r.preP, r.preS);
    DataPulse(r, t, r.preData, r.preDataBits, 0);
    HasPulseConcat(DataSignals(r, t, r.preData, r.preDataBits, 0),
                   if r.preP > 0 && r.preS > 0 then [Pulse(r.preP), Space(r.preS)] else []);
    HasPulseConcat(head, LeadSignals(r));
    HasPulseConcat(head + LeadSignals(r), PreSignals(r, t));
  }

  lemma AfterDataPulse(r: Remote, t: Toggles, repeat: bool)
    requires r.protocol.Xmp? && r.BitCount() <= 64
    ensures HasPulse(AfterData(r, t, repeat)) <==>
            || (r.HasFoot() && (!repeat || !r.noFootRep)) || r.ptrail > 0
            || (r.HasPost() && (SendsNibbles(r, r.postDataBits, r.preDataBits + r.bits)
                                || (r.postP > 0 && r.postS > 0)))
  {
    hide HasPulse, DataSignals, SendsNibbles;
    var foot := if !repeat || !r.noFootRep then FootSignals(r) else [];
    PairPulse(r.pfoot, r.sfoot);
    PairPulse(r.ptrail, 0);
    PairPulse(r.postP, r.postS);
    DataPulse(r, t, r.postData, r.postDataBits, r.preDataBits + r.bits);
    HasPulseConcat(if r.postP > 0 && r.postS > 0 then [Pulse(r.postP), Space(r.postS)] else [],
                   DataSignals(r, t, r.postData, r.postDataBits, r.preDataBits + r.bits));
    HasPulseConcat(PostSignals(r, t), TrailSignals(r));
    HasPulseConcat(PostSignals(r, t) + TrailSignals(r), foot);
  }

  /** Whether an XMP frame has a pulse can be told from the configuration alone. */
  lemma FramePulse(r: Remote, t: Toggles, code: Word, repeat: bool)
    requires r.protocol.Xmp? && r.BitCount() <= 64
    ensures HasPulse(FrameSignals(r, t, code, repeat)) <==> PulseInFrame(r, repeat)
  {
    hide HasPulse, DataSignals, SendsNibbles, FrameSignals, BeforeData, AfterData;
    var before, data, after :=
      BeforeData(r, t, repeat), DataSignals(r, t, code, r.bits, r.preDataBits), AfterData(r, t, repeat);
    BeforeDataPulse(r, t, repeat);
    AfterDataPulse(r, t, repeat);
    DataPulse(r, t, code, r.bits, r.preDataBits);
    HasPulseConcat(before, data);
    HasPulseConcat(before + data, after);
    FrameParts(r, t, code, repeat);
  }

  /** Repetitions put at least one pulse and one gap into the buffer. */
  predicate FillsBuffer(r: Remote) {
    r.MinGap() > 0 && (r.HasRepeat() || PulseInFrame(r, true))
  }

  /** The XMP remote of the repository fills the buffer, and its passes are proper. */
  lemma GenericXmpFills(preData: Word)
    ensures FillsBuffer(GenericXmp(preData)) && Wellformed(GenericXmp(preData))
  {
  }

  /** The entries a buffer has once a pulse held back is in it. */
  function Entries(t: Tx): nat {
    |t.buf| + if t.pendingp > 0 then 1 else 0
  }

  lemma SendEntries(t: Tx, x: Sig)
    requires !Send(t, x).tooLong
    ensures Entries(Send(t, x)) >= Entries(t) && |Send(t, x).buf| >= |t.buf|
    ensures x.Pulse? && x.len > 0 ==> Entries(Send(t, x)) >= |t.buf| + 1
  {
  }

  lemma {:induction false} SendAllEntries(t: Tx, f: seq<Sig>)
    requires !SendAll(t, f).tooLong
    ensures Entries(SendAll(t, f)) >= Entries(t)
    ensures HasPulse(f) ==> Entries(SendAll(t, f)) >= |t.buf| + 1
    decreases |f|
  {
    hide Send;
    if f == [] {
    } else {
      var u := Send(t, f[0]);
      if u.tooLong { SendAllKeepsTooLong(u, f[1..]); }
      SendEntries(t, f[0]);
      SendAllEntries(u, f[1..]);
      assert f == [f[0]] + f[1..];
      HasPulseConcat([f[0]], f[1..]);
    }
  }
}
