/** Whole frames: `receive_decode` on the durations built by `send_code` gives back the code. */
module FrameRoundTrip {
  import opened Words
  import opened Signals
  import opened SendBuffers
  import opened Remotes
  import opened Transmit
  import opened RecBuffers
  import opened Receive
  import opened RoundTrip
  import opened Patterns
  import opened BitRoundTrip
  import opened SymbolRoundTrip

  /** Data of this many bits can be split into symbols. */
  predicate Splits(r: Remote, bits: nat) {
    (r.protocol.Rcmm? ==> bits % 2 == 0) && (r.protocol.Xmp? ==> bits % 4 == 0)
  }

  lemma SplitsSum(r: Remote, a: nat, b: nat)
    requires Splits(r, a) && Splits(r, b)
    ensures Splits(r, a + b)
  {
  }

  /** What a configuration has to satisfy for its codes to survive sending and receiving. */
  predicate Sound(r: Remote) {
    && r.BitCount() <= 64 && r.preDataBits < 64 && r.bits < 64 && r.postDataBits < 64 && Decodable(r)
    && Splits(r, r.preDataBits) && Splits(r, r.bits) && Splits(r, r.postDataBits)
    && match r.protocol
       case Rcmm => PairsTimed(r) && PairsDistinct(r) && r.plead == 0 && r.ptrail > 0
       case Xmp => r.pzero > 0 && r.szero > 0 && r.sone > 0 && r.plead == 0 && r.ptrail > 0
       case _ => Timed(r) && Unambiguous(r)
  }

  /** What a configuration has to satisfy for its frames to be sent without empty signals. */
  predicate Sendable(r: Remote) {
    r.BitCount() <= 64
    && match r.protocol
       case Rcmm => PairsTimed(r)
       case Xmp => r.pzero > 0 && r.szero > 0
       case _ => Timed(r)
  }

  /** The word a receiver gets for the data word `w`: its low bits, toggles applied. */
  function AirWord(r: Remote, t: Toggles, w: Word, bits: nat, done: nat): Word
    requires done + bits <= r.BitCount() <= 64
  {
    if r.protocol.Rcmm? || r.protocol.Xmp? then Mask(w, bits)
    else FromBits(AirBits(r, t, done, Low(w, bits)))
  }

  lemma AirWordWithoutToggles(r: Remote, t: Toggles, w: Word, bits: nat, done: nat)
    requires done + bits <= r.BitCount() <= 64
    requires !r.HasToggleMask() && !r.HasToggleBitMask()
    ensures AirWord(r, t, w, bits, done) == Mask(w, bits)
  {
    assert AirBits(r, t, done, Low(w, bits)) == Low(w, bits);
  }

  lemma ShortWordSucceeds(bs: seq<bool>)
    requires |bs| < 64
    ensures FromBits(bs) != FAILED && ShiftInAll(ZERO, bs) == FromBits(bs)
  {
    assert !FromBits(bs)[0] && FAILED[0];
  }

  lemma SymbolsStartPulse(r: Remote, bs: seq<bool>, c: seq<Sig>)
    ensures StartsPulse(c) || |bs| >= 2 ==> StartsPulse(EncodePairs(r, bs) + c)
    ensures StartsPulse(c) || |bs| >= 4 ==> StartsPulse(EncodeNibbles(r, bs) + c)
  {
  }

  /** Each bit or symbol begins with its pulse. */
  predicate PulseFirst(r: Remote) {
    r.protocol.Rcmm? || r.protocol.Xmp? || !r.IsBiphase()
  }

  /** The bits of one symbol. */
  function SymbolBits(r: Remote): (n: nat)
    ensures n > 0
  {
    match r.protocol
    case Rcmm => 2
    case Xmp => 4
    case _ => 1
  }

  /** Data of this many bits at this place is sent. */
  predicate SendsSymbols(r: Remote, bits: nat, done: nat) {
    bits > 0 && bits % SymbolBits(r) == 0 && done % SymbolBits(r) == 0
  }

  lemma DataStartsPulse(r: Remote, t: Toggles, w: Word, bits: nat, done: nat, c: seq<Sig>)
    requires done + bits <= r.BitCount() <= 64 && PulseFirst(r)
    requires StartsPulse(c) || SendsSymbols(r, bits, done)
    ensures StartsPulse(DataSignals(r, t, w, bits, done) + c)
  {
    if r.protocol.Rcmm? || r.protocol.Xmp? {
      SymbolsStartPulse(r, Low(w, bits), c);
    } else {
      EncodeBitsStartPulse(r, done, AirBits(r, t, done, Low(w, bits)), c);
    }
  }

  /** The space owed before a pulse, if any, has been read. */
  lemma SpaceSettled(s: Rx, r: Remote, c: seq<Sig>, tail: seq<Sig>)
    requires Sees(s, c, tail) && StartsPulse(c)
    ensures var y := SyncSpace(s, r);
            y.ok && Sees(y.s, c, tail) && Same(s.tape, y.s.tape) && y.s.pendings == 0 && y.s.pendingp == s.pendingp
  {
    if s.pendings > 0 { SyncSpaceExact(s, r, c, tail); }
  }

  lemma DataRoundTrip(s: Rx, r: Remote, t: Toggles, w: Word, bits: nat, done: nat, c: seq<Sig>, tail: seq<Sig>)
    requires Sound(r) && done + bits <= r.BitCount() && bits < 64 && Splits(r, bits) && Splits(r, done)
    requires Sees(s, DataSignals(r, t, w, bits, done) + c, tail) && OwedPulse(s, r)
    requires NeedsPulse(r) ==> StartsPulse(c)
    ensures Received(s, r, GetData(s, r, bits, done), AirWord(r, t, w, bits, done), c, tail)
    ensures AirWord(r, t, w, bits, done) != FAILED
  {
    var low := Low(w, bits);
    if r.protocol.Rcmm? || r.protocol.Xmp? {
      ShortWordSucceeds(low);
      DataStartsPulse(r, t, w, bits, done, c);
      SpaceSettled(s, r, DataSignals(r, t, w, bits, done) + c, tail);
      var u := SyncSpace(s, r).s;
      if r.protocol.Rcmm? {
        PairsRoundTrip(u, r, low, bits / 2, ZERO, c, tail);
        ReceivedFrom(s, u, r, GetPairs(u, r, bits, ZERO), FromBits(low), c, tail);
      } else {
        NibblesRoundTrip(u, r, low, bits / 4, ZERO, c, tail);
        ReceivedFrom(s, u, r, GetNibbles(u, r, bits, ZERO), FromBits(low), c, tail);
      }
    } else {
      var bs := AirBits(r, t, done, low);
      ShortWordSucceeds(bs);
      BitsRoundTrip(s, r, bs, done, ZERO, c, tail);
    }
  }

  // ----- the other parts of a frame -----

  /** A step succeeded, and `c` is seen next. */
  predicate Passed(s: Rx, x: Step, c: seq<Sig>, tail: seq<Sig>) {
    Safe(s.tape) && x.ok && Sees(x.s, c, tail) && Same(s.tape, x.s.tape)
  }

  lemma LeadSeen(s: Rx, r: Remote, c: seq<Sig>, tail: seq<Sig>)
    requires Sound(r) && Sees(s, LeadSignals(r) + c, tail) && s.pendingp == 0
    ensures Passed(s, GetLead(s, r), c, tail) && OwedPulse(GetLead(s, r).s, r)
  {
    if r.plead == 0 {
      OwedNothing(c);
    } else {
      SpaceSettled(s, r, [Pulse(r.plead)] + c, tail);
      OwePulse(SyncSpace(s, r).s, r.plead, c, tail);
    }
  }

  function Divider(p: nat, d: nat): seq<Sig> {
    if p > 0 && d > 0 then [Pulse(p), Space(d)] else []
  }

  /** A pulse that is checked and a space that is left owing, as between the parts of a code. */
  lemma PulseThenOwed(s: Rx, r: Remote, p: nat, d: nat, c: seq<Sig>, tail: seq<Sig>)
    requires Sees(s, [Pulse(p)] + ([Space(d)] + c), tail) && p > 0 && d > 0
    ensures var x := ExpectPulse(s, r, p);
            Passed(s, Step(x.s.(pendings := d), x.ok), c, tail) && x.s.pendingp == 0
  {
    PulseTry(s, r, p, p, [Space(d)] + c, tail);
    ExpectExact(r, p);
    OweSpace(ExpectPulse(s, r, p).s, d, c, tail);
  }

  lemma DividerSeen(s: Rx, r: Remote, p: nat, d: nat, c: seq<Sig>, tail: seq<Sig>)
    requires Sees(s, Divider(p, d) + c, tail) && OwedPulse(s, r)
    ensures Passed(s, GetDivider(s, r, p, d), c, tail) && OwedPulse(GetDivider(s, r, p, d).s, r)
  {
    if p > 0 && d > 0 {
      assert [Pulse(p), Space(d)] + c == [Pulse(p)] + ([Space(d)] + c);
      PulseThenOwed(s, r, p, d, c, tail);
    } else {
      OwedNothing(c);
    }
  }

  lemma PreSeen(s: Rx, r: Remote, t: Toggles, c: seq<Sig>, tail: seq<Sig>)
    requires Sound(r) && OwedPulse(s, r) && (NeedsPulse(r) ==> StartsPulse(c))
    requires Sees(s, DataSignals(r, t, r.preData, r.preDataBits, 0) + (Divider(r.preP, r.preS) + c), tail)
    ensures Received(s, r, GetPre(s, r), AirWord(r, t, r.preData, r.preDataBits, 0), c, tail)
    ensures AirWord(r, t, r.preData, r.preDataBits, 0) != FAILED
  {
    var rest := Divider(r.preP, r.preS) + c;
    DataRoundTrip(s, r, t, r.preData, r.preDataBits, 0, rest, tail);
    DividerSeen(GetData(s, r, r.preDataBits, 0).s, r, r.preP, r.preS, c, tail);
  }

  lemma DataFrom(s: Rx, u: Rx, r: Remote, t: Toggles, w: Word, bits: nat, done: nat, d: Data, c: seq<Sig>,
                 tail: seq<Sig>)
    requires Sound(r) && done + bits <= r.BitCount() && bits < 64 && Splits(r, bits) && Splits(r, done)
    requires Safe(s.tape) && Same(s.tape, u.tape)
    requires Sees(u, DataSignals(r, t, w, bits, done) + c, tail) && OwedPulse(u, r)
    requires NeedsPulse(r) ==> StartsPulse(c)
    requires d == GetData(u, r, bits, done)
    ensures Received(s, r, d, AirWord(r, t, w, bits, done), c, tail)
    ensures AirWord(r, t, w, bits, done) != FAILED
  {
    DataRoundTrip(u, r, t, w, bits, done, c, tail);
    ReceivedFrom(s, u, r, d, AirWord(r, t, w, bits, done), c, tail);
  }

  lemma PostSeen(s: Rx, r: Remote, t: Toggles, c: seq<Sig>, tail: seq<Sig>)
    requires Sound(r) && OwedPulse(s, r) && (NeedsPulse(r) ==> StartsPulse(c))
    requires Sees(s, Divider(r.postP, r.postS)
                     + (DataSignals(r, t, r.postData, r.postDataBits, r.preDataBits + r.bits) + c), tail)
    ensures Received(s, r, GetPost(s, r), AirWord(r, t, r.postData, r.postDataBits, r.preDataBits + r.bits), c, tail)
    ensures AirWord(r, t, r.postData, r.postDataBits, r.preDataBits + r.bits) != FAILED
  {
    hide GetData, DataSignals, AirWord, GetDivider, Air, Sound, Whole, NeedsPulse, Decodable;
    SoundSplits(r);
    var done := r.preDataBits + r.bits;
    var rest := DataSignals(r, t, r.postData, r.postDataBits, done) + c;
    DividerSeen(s, r, r.postP, r.postS, rest, tail);
    SplitsSum(r, r.preDataBits, r.bits);
    DataFrom(s, GetDivider(s, r, r.postP, r.postS).s, r, t, r.postData, r.postDataBits, done, GetPost(s, r), c, tail);
  }

  lemma TrailSeen(s: Rx, r: Remote, c: seq<Sig>, tail: seq<Sig>)
    requires Sees(s, TrailSignals(r) + c, tail) && !StartsPulse(c)
    ensures Passed(s, GetTrail(s, r), c, tail) && GetTrail(s, r).s.pendingp == 0
    ensures r.ptrail > 0 ==> GetTrail(s, r).s.pendings == 0
  {
    if r.ptrail != 0 {
      PulseTry(s, r, r.ptrail, r.ptrail, c, tail);
      ExpectExact(r, r.ptrail);
    } else {
      OwedNothing(c);
      if s.pendingp > 0 { SyncPulseExact(s, r, c, tail); }
    }
  }

  lemma FootSeen(s: Rx, r: Remote, c: seq<Sig>, tail: seq<Sig>)
    requires r.HasFoot() && !StartsPulse(c)
    requires Sees(s, [Space(r.sfoot)] + ([Pulse(r.pfoot)] + c), tail)
    ensures Passed(s, GetFoot(s, r), c, tail) && GetFoot(s, r).s.pendingp == 0
  {
    SpaceTry(s, r, r.sfoot, r.sfoot, [Pulse(r.pfoot)] + c, tail);
    ExpectExact(r, r.sfoot);
    PulseTry(ExpectSpace(s, r, r.sfoot).s, r, r.pfoot, r.pfoot, c, tail);
    ExpectExact(r, r.pfoot);
  }

  /** Whether a decision on the header is needed before anything else has been read. */
  predicate HeaderAtOnce(r: Remote) {
    r.noHeadRep || r.protocol.Rcmm?
  }

  lemma HeaderSeen(s: Rx, r: Remote, c: seq<Sig>, tail: seq<Sig>)
    requires r.HasHeader() && Owed(s) == [] && (HeaderAtOnce(r) ==> StartsPulse(c))
    requires Sees(s, [Pulse(r.phead)] + ([Space(r.shead)] + c), tail)
    ensures Passed(s, GetHeader(s, r), c, tail) && GetHeader(s, r).s.pendingp == 0
    ensures GetHeader(s, r).s.pendings == if HeaderAtOnce(r) then 0 else r.shead
  {
    hide Air, Delivered, NextInternal, ExpectPulse, Remote.Expect, Total;
    if r.protocol.Rcmm? {
      SymbolRead(s, r.phead, r.shead, r.phead, r.shead, c, tail);
      ExpectExact(r, r.phead + r.shead);
    } else if r.noHeadRep {
      PulseTry(s, r, r.phead, r.phead, [Space(r.shead)] + c, tail);
      ExpectExact(r, r.phead);
      ExpectExact(r, r.shead);
      var u := ExpectPulse(s, r, r.phead).s;
      SpaceIsAhead(u, r.shead, c, tail);
      NextReads(u.tape, r.shead, Space(r.shead), Air(c) + tail);
      OwedNothing(c);
    } else {
      PulseThenOwed(s, r, r.phead, r.shead, c, tail);
    }
  }

  lemma AirOfOwed(s: Rx)
    requires s.pendingp == 0
    ensures Air(Owed(s) + []) == []
  {
  }

  /** The device has as much to deliver to both. */
  predicate SameInput(s: Rx, u: Rx) {
    && Safe(s.tape) && Safe(u.tape) && Whole(s.tape) == Whole(u.tape)
    && |s.tape.buf| + |s.tape.feed| == |u.tape.buf| + |u.tape.feed|
  }

  /** A receiver that began as `s` is at the end of a frame: `tail` is ahead, and its first signal has
      been in the buffer. */
  predicate Leaves(s: Rx, d: Rx, tail: seq<Sig>) {
    SameInput(s, d) && Ahead(d.tape) == tail && (tail != [] ==> d.tape.rptr < |d.tape.buf|)
  }

  lemma LeavesFrom(s: Rx, u: Rx, d: Rx, tail: seq<Sig>)
    requires SameInput(s, u) && Leaves(u, d, tail)
    ensures Leaves(s, d, tail)
  {
  }

  lemma SameIsInput(s: Rx, u: Rx)
    requires Same(s.tape, u.tape)
    ensures SameInput(s, u)
  {
  }

  /** At the end of a frame the decoder asks for silence, or a space that is long enough. */
  lemma GapDecides(s: Rx, r: Remote, gap: nat, tail: seq<Sig>)
    requires Sees(s, [], tail) && s.pendingp == 0
    ensures var g := GetGap(s, r, gap);
            && g.ok == GapFits(r, gap, tail)
            && (g.ok ==> g.s.tape.sum == Clock(s.tape) - Total(tail))
            && (g.ok && (tail == [] || tail[0] != NOTHING) ==> Leaves(s, g.s, tail))
  {
    hide Air, Total, Whole, GetGap, Remote.ExpectAtLeast, GapFits;
    AirOfOwed(s);
    assert Ahead(s.tape) == tail;
    GapTried(s, r, gap);
  }

  /** Such an end is found. */
  lemma GapSeen(s: Rx, r: Remote, gap: nat, tail: seq<Sig>)
    requires Sees(s, [], tail) && s.pendingp == 0
    requires tail == [] || (tail[0].len >= gap && tail[0].len > 0)
    ensures GetGap(s, r, gap).ok
    ensures GetGap(s, r, gap).s.tape.sum == Clock(s.tape) - Total(tail)
    ensures Leaves(s, GetGap(s, r, gap).s, tail)
  {
    hide Air, Total, Whole, GetGap, Remote.ExpectAtLeast, Leaves;
    GapDecides(s, r, gap, tail);
    if tail != [] { ExpectAtLeastMore(r, tail[0].len, gap); }
  }

  // ----- the frame as a whole -----

  /** What is left of a frame after its data, after its pre-data, after its header; a repetition
      may have no foot. */
  function AfterCode(r: Remote, t: Toggles, foot: seq<Sig>): seq<Sig>
    requires r.BitCount() <= 64
  {
    PostSignals(r, t) + (TrailSignals(r) + foot)
  }

  function AfterPre(r: Remote, t: Toggles, code: Word, foot: seq<Sig>): seq<Sig>
    requires r.BitCount() <= 64
  {
    DataSignals(r, t, code, r.bits, r.preDataBits) + AfterCode(r, t, foot)
  }

  function AfterHeader(r: Remote, t: Toggles, code: Word, foot: seq<Sig>): seq<Sig>
    requires r.BitCount() <= 64
  {
    LeadSignals(r) + (PreSignals(r, t) + AfterPre(r, t, code, foot))
  }

  lemma FrameNested(r: Remote, t: Toggles, code: Word)
    requires r.BitCount() <= 64
    ensures FrameSignals(r, t, code, false) == HeaderSignals(r) + AfterHeader(r, t, code, FootSignals(r))
  {
    hide HeaderSignals, LeadSignals, PreSignals, DataSignals, PostSignals, TrailSignals, FootSignals;
  }

  /** The rest of a frame begins with a pulse wherever the data needs one after it. */
  lemma RestStartsPulse(r: Remote, t: Toggles, code: Word, foot: seq<Sig>)
    requires r.BitCount() <= 64 && NeedsPulse(r) && r.ptrail > 0
    ensures StartsPulse(TrailSignals(r) + foot)
    ensures StartsPulse(AfterCode(r, t, foot))
    ensures StartsPulse(AfterPre(r, t, code, foot))
  {
    hide DataSignals;
    var f := TrailSignals(r) + foot;
    DataStartsPulse(r, t, r.postData, r.postDataBits, r.preDataBits + r.bits, f);
    DataStartsPulse(r, t, code, r.bits, r.preDataBits, AfterCode(r, t, foot));
  }

  /** The words a receiver gets for pre-data and post-data, 0 if there are none. */
  function PreWord(r: Remote, t: Toggles): Word
    requires r.BitCount() <= 64
  {
    if r.HasPre() then AirWord(r, t, r.preData, r.preDataBits, 0) else ZERO
  }

  function PostWord(r: Remote, t: Toggles): Word
    requires r.BitCount() <= 64
  {
    if r.HasPost() then AirWord(r, t, r.postData, r.postDataBits, r.preDataBits + r.bits) else ZERO
  }

  function MaybePre(s: Rx, r: Remote): (d: Data)
    requires Ready(s.tape) && Decodable(r)
    ensures Ready(d.s.tape)
  {
    if r.HasPre() then GetPre(s, r) else Data(s, ZERO)
  }

  function MaybePost(s: Rx, r: Remote): (d: Data)
    requires Ready(s.tape) && Decodable(r)
    ensures Ready(d.s.tape)
  {
    if r.HasPost() then GetPost(s, r) else Data(s, ZERO)
  }

  function MaybeFoot(s: Rx, r: Remote): (x: Step)
    requires Ready(s.tape)
    ensures Ready(x.s.tape)
  {
    if r.HasFoot() then GetFoot(s, r) else Step(s, true)
  }

  lemma Regrouped(a: seq<Sig>, b: seq<Sig>, c: seq<Sig>)
    ensures a + b + c == a + (b + c)
  {
  }

  lemma MaybePreSeen(s: Rx, r: Remote, t: Toggles, c: seq<Sig>, tail: seq<Sig>)
    requires Sound(r) && OwedPulse(s, r) && (NeedsPulse(r) ==> StartsPulse(c))
    requires Sees(s, PreSignals(r, t) + c, tail)
    ensures Received(s, r, MaybePre(s, r), PreWord(r, t), c, tail) && PreWord(r, t) != FAILED
  {
    hide DataSignals, AirWord, Air, GetPre, Sound, Whole, NeedsPulse, OwedPulse, ShiftInAll;
    SoundSplits(r);
    if r.HasPre() {
      var data := DataSignals(r, t, r.preData, r.preDataBits, 0);
      assert PreSignals(r, t) == data + Divider(r.preP, r.preS);
      Regrouped(data, Divider(r.preP, r.preS), c);
      PreSeen(s, r, t, c, tail);
    } else {
      OwedNothing(c);
      ShortWordSucceeds([]);
    }
  }

  lemma MaybePostSeen(s: Rx, r: Remote, t: Toggles, c: seq<Sig>, tail: seq<Sig>)
    requires Sound(r) && OwedPulse(s, r) && (NeedsPulse(r) ==> StartsPulse(c))
    requires Sees(s, PostSignals(r, t) + c, tail)
    ensures Received(s, r, MaybePost(s, r), PostWord(r, t), c, tail) && PostWord(r, t) != FAILED
  {
    hide DataSignals, AirWord, Air, GetPost, Sound, Whole, NeedsPulse, OwedPulse, ShiftInAll;
    SoundSplits(r);
    if r.HasPost() {
      var data := DataSignals(r, t, r.postData, r.postDataBits, r.preDataBits + r.bits);
      assert PostSignals(r, t) == Divider(r.postP, r.postS) + data;
      Regrouped(Divider(r.postP, r.postS), data, c);
      PostSeen(s, r, t, c, tail);
    } else {
      OwedNothing(c);
      ShortWordSucceeds([]);
    }
  }

  lemma MaybeFootSeen(s: Rx, r: Remote, tail: seq<Sig>)
    requires Sees(s, FootSignals(r), tail) && s.pendingp == 0
    ensures Passed(s, MaybeFoot(s, r), [], tail) && MaybeFoot(s, r).s.pendingp == 0
  {
    hide GetFoot, Air;
    if r.HasFoot() {
      assert FootSignals(r) == [Space(r.sfoot)] + ([Pulse(r.pfoot)] + []);
      FootSeen(s, r, [], tail);
    }
  }

  lemma BodySteps(s: Rx, r: Remote, lead: Step, pre: Data, code: Data, post: Data, trail: Step, foot: Step)
    requires Ready(s.tape) && Decodable(r)
    requires lead == GetLead(s, r) && lead.ok
    requires pre == MaybePre(lead.s, r) && pre.code != FAILED
    requires code == GetData(pre.s, r, r.bits, r.preDataBits) && code.code != FAILED
    requires post == MaybePost(code.s, r) && post.code != FAILED
    requires trail == GetTrail(post.s, r) && trail.ok
    requires foot == MaybeFoot(trail.s, r)
    ensures GetBody(s, r) == Body(foot.s, pre.code, code.code, post.code, foot.ok)
  {
    hide GetLead, GetPre, GetData, GetPost, GetTrail, GetFoot;
  }

  /** The state before the foot of a frame is looked for. */
  function AfterTrail(s: Rx, r: Remote): (v: Rx)
    requires Ready(s.tape) && Decodable(r)
    ensures Ready(v.tape)
  {
    GetTrail(MaybePost(GetData(MaybePre(GetLead(s, r).s, r).s, r, r.bits, r.preDataBits).s, r).s, r).s
  }

  /** A body is read up to its foot. */
  lemma BodyToTrail(s: Rx, r: Remote, t: Toggles, code: Word, foot: seq<Sig>, tail: seq<Sig>) returns (v: Rx)
    requires Sound(r) && s.pendingp == 0 && !StartsPulse(foot) && Sees(s, AfterHeader(r, t, code, foot), tail)
    ensures Sees(v, foot, tail) && v.pendingp == 0 && Same(s.tape, v.tape) && (r.ptrail > 0 ==> v.pendings == 0)
    ensures v == AfterTrail(s, r)
    ensures var f := MaybeFoot(v, r);
            GetBody(s, r) == Body(f.s, PreWord(r, t), AirWord(r, t, code, r.bits, r.preDataBits), PostWord(r, t), f.ok)
  {
    hide GetLead, MaybePre, GetData, MaybePost, GetTrail, MaybeFoot, GetBody, Air, Sound, DataSignals, PreSignals,
         PostSignals, LeadSignals, TrailSignals, FootSignals, AirWord;
    SoundSplits(r);
    if NeedsPulse(r) { RestStartsPulse(r, t, code, foot); }
    LeadSeen(s, r, PreSignals(r, t) + AfterPre(r, t, code, foot), tail);
    var lead := GetLead(s, r);
    MaybePreSeen(lead.s, r, t, AfterPre(r, t, code, foot), tail);
    var pre := MaybePre(lead.s, r);
    DataRoundTrip(pre.s, r, t, code, r.bits, r.preDataBits, AfterCode(r, t, foot), tail);
    var data := GetData(pre.s, r, r.bits, r.preDataBits);
    MaybePostSeen(data.s, r, t, TrailSignals(r) + foot, tail);
    var post := MaybePost(data.s, r);
    TrailSeen(post.s, r, foot, tail);
    var trail := GetTrail(post.s, r);
    v := trail.s;
    BodySteps(s, r, lead, pre, data, post, trail, MaybeFoot(trail.s, r));
  }

  lemma BodySeen(s: Rx, r: Remote, t: Toggles, code: Word, tail: seq<Sig>)
    requires Sound(r) && s.pendingp == 0 && Sees(s, AfterHeader(r, t, code, FootSignals(r)), tail)
    ensures var b := GetBody(s, r);
            && b.ok && b.pre == PreWord(r, t) && b.post == PostWord(r, t)
            && b.code == AirWord(r, t, code, r.bits, r.preDataBits)
            && Sees(b.s, [], tail) && b.s.pendingp == 0 && Same(s.tape, b.s.tape)
  {
    hide MaybeFoot, GetBody, Air, Sound, FootSignals, AirWord, AfterHeader;
    SoundSplits(r);
    FootStartsSpace(r);
    var v := BodyToTrail(s, r, t, code, FootSignals(r), tail);
    MaybeFootSeen(v, r, tail);
  }

  lemma SoundSplits(r: Remote)
    requires Sound(r)
    ensures Decodable(r) && r.BitCount() <= 64 && r.bits < 64 && r.preDataBits < 64 && r.postDataBits < 64
    ensures Splits(r, r.bits) && Splits(r, r.preDataBits) && Splits(r, r.postDataBits)
    ensures Sendable(r) && (NeedsPulse(r) ==> r.ptrail > 0)
  {
  }

  lemma FootStartsSpace(r: Remote)
    ensures !StartsPulse(FootSignals(r))
  {
  }

  /** The header is discounted by the receiver when it found one. */
  function Discount(r: Remote): nat {
    if r.HasHeader() && r.constLength && r.noHeadRep then r.phead + r.shead else 0
  }

  lemma FrameSteps(s: Rx, r: Remote, c: Context, sync: nat, head: Step, b: Body, g: Step)
    requires Ready(s.tape) && Decodable(r)
    requires head == (if r.HasHeader() then GetHeader(s, r) else Step(s, false)) && (r.HasHeader() ==> head.ok)
    requires b == GetBody(head.s, r) && b.ok
    requires g == GetGap(DiscountHeader(b.s, r, head.ok), r, GapAfter(r, b.s.tape.sum - Discount(r)))
    ensures var f := GetFrame(s, r, c, sync);
            && (f.frame.Some? <==> g.ok) && f.s == g.s
            && (g.ok ==>
                  && f.frame.value.pre == b.pre && f.frame.value.code == b.code && f.frame.value.post == b.post
                  && f.frame.value.minRemaining
                     == (if r.constLength then Remaining(r.MinGap(), g.s.tape.sum) else r.MinGap())
                  && f.frame.value.maxRemaining
                     == (if r.constLength then Remaining(r.MaxGap(), g.s.tape.sum) else r.MaxGap()))
  {
    hide GetHeader, GetBody, GetGap;
  }

  /** The clock of the receiver with the header taken off. */
  lemma DiscountSeen(s: Rx, r: Remote, tail: seq<Sig>)
    requires Sees(s, [], tail) && s.pendingp == 0
    ensures var u := DiscountHeader(s, r, r.HasHeader());
            && Sees(u, [], tail) && u.pendingp == s.pendingp && SameInput(s, u)
            && Clock(u.tape) == Clock(s.tape) - Discount(r)
            && u.tape.sum == Clock(s.tape) - Total(tail) - Discount(r)
  {
    hide Air, Whole, Total, Sees, SameInput;
    EndOfFrame(s, tail);
    SumIsFree(s, s.tape.sum - Discount(r), tail);
    assert DiscountHeader(s, r, r.HasHeader()) == s.(tape := s.tape.(sum := s.tape.sum - Discount(r)));
  }

  /** The clock may be set. */
  lemma SumIsFree(s: Rx, sum: int, tail: seq<Sig>)
    requires Sees(s, [], tail) && s.pendingp == 0
    ensures var u := s.(tape := s.tape.(sum := sum));
            && Sees(u, [], tail) && SameInput(s, u) && Clock(u.tape) == Clock(s.tape) - s.tape.sum + sum
  {
    hide Air, Total, Delivered;
    assert Ahead(s.tape.(sum := sum)) == Ahead(s.tape);
  }

  lemma MaybeHeaderSeen(s: Rx, r: Remote, c: seq<Sig>, tail: seq<Sig>)
    requires Sees(s, HeaderSignals(r) + c, tail) && Owed(s) == []
    requires r.HasHeader() && HeaderAtOnce(r) ==> StartsPulse(c)
    ensures var head := if r.HasHeader() then GetHeader(s, r) else Step(s, false);
            && (r.HasHeader() ==> head.ok) && Sees(head.s, c, tail) && Same(s.tape, head.s.tape)
            && head.s.pendingp == 0
            && head.s.pendings == (if r.HasHeader() && !HeaderAtOnce(r) then r.shead else 0)
  {
    hide GetHeader, Air;
    if r.HasHeader() {
      assert HeaderSignals(r) + c == [Pulse(r.phead)] + ([Space(r.shead)] + c);
      HeaderSeen(s, r, c, tail);
    } else {
      OwedNothing(c);
    }
  }

  /** What is decoded from a frame: the words sent, and the gap that has to follow. */
  predicate Gives(d: Decoded, r: Remote, t: Toggles, code: Word, length: int)
    requires r.BitCount() <= 64
  {
    && d.frame.Some?
    && d.frame.value.pre == PreWord(r, t)
    && d.frame.value.code == AirWord(r, t, code, r.bits, r.preDataBits)
    && d.frame.value.post == PostWord(r, t)
    && d.frame.value.minRemaining == (if r.constLength then Remaining(r.MinGap(), length) else r.MinGap())
    && d.frame.value.maxRemaining == (if r.constLength then Remaining(r.MaxGap(), length) else r.MaxGap())
  }

  /** A frame is read up to the gap after it, on which all depends then. */
  lemma FrameToGap(s: Rx, r: Remote, t: Toggles, code: Word, c: Context, sync: nat, tail: seq<Sig>) returns (g: Step)
    requires Sound(r) && Sees(s, FrameSignals(r, t, code, false), tail) && Owed(s) == []
    requires r.HasHeader() && HeaderAtOnce(r) ==> StartsPulse(AfterHeader(r, t, code, FootSignals(r)))
    ensures g.ok == GapFits(r, GapAfter(r, Clock(s.tape) - Total(tail) - Discount(r)), tail)
    ensures var d := GetFrame(s, r, c, sync);
            && (d.frame.Some? <==> g.ok)
            && (g.ok ==> Gives(d, r, t, code, Clock(s.tape) - Total(tail) - Discount(r)))
            && (g.ok && (tail == [] || tail[0] != NOTHING) ==> Leaves(s, d.s, tail))
  {
    hide GetHeader, GetBody, GetGap, GetFrame, Air, Sound, FrameSignals, HeaderSignals, AfterHeader, AirWord,
         PreWord, PostWord, Remaining, GapAfter, Discount, Total, Whole, Ahead, StartsPulse, Leaves, SameInput, GapFits;
    SoundSplits(r);
    FrameNested(r, t, code);
    MaybeHeaderSeen(s, r, AfterHeader(r, t, code, FootSignals(r)), tail);
    var head := if r.HasHeader() then GetHeader(s, r) else Step(s, false);
    BodySeen(head.s, r, t, code, tail);
    var b := GetBody(head.s, r);
    DiscountSeen(b.s, r, tail);
    var u := DiscountHeader(b.s, r, head.ok);
    var gap := GapAfter(r, b.s.tape.sum - Discount(r));
    EndOfFrame(b.s, tail);
    GapDecides(u, r, gap, tail);
    g := GetGap(u, r, gap);
    FrameSteps(s, r, c, sync, head, b, g);
    if g.ok && (tail == [] || tail[0] != NOTHING) {
      SameIsInput(s, head.s);
      SameIsInput(head.s, b.s);
      LeavesFrom(b.s, u, g.s, tail);
      LeavesFrom(head.s, b.s, g.s, tail);
      LeavesFrom(s, head.s, g.s, tail);
    }
  }

  /** The clock at the end of a frame. */
  lemma EndOfFrame(s: Rx, tail: seq<Sig>)
    requires Sees(s, [], tail) && s.pendingp == 0
    ensures s.tape.sum == Clock(s.tape) - Total(tail)
  {
    AirOfOwed(s);
    assert Ahead(s.tape) == tail;
  }

  lemma FrameSeen(s: Rx, r: Remote, t: Toggles, code: Word, c: Context, sync: nat, tail: seq<Sig>)
    requires Sound(r) && Sees(s, FrameSignals(r, t, code, false), tail) && Owed(s) == []
    requires r.HasHeader() && HeaderAtOnce(r) ==> StartsPulse(AfterHeader(r, t, code, FootSignals(r)))
    requires Ends(r, Clock(s.tape) - Total(tail) - Discount(r), tail)
    ensures Gives(GetFrame(s, r, c, sync), r, t, code, Clock(s.tape) - Total(tail) - Discount(r))
    ensures Leaves(s, GetFrame(s, r, c, sync).s, tail)
  {
    hide GetFrame, Air, Sound, FrameSignals, AfterHeader, GapAfter, Discount, Total, Gives, Leaves, Ahead,
         Remote.ExpectAtLeast;
    SoundSplits(r);
    var gap := GapAfter(r, Clock(s.tape) - Total(tail) - Discount(r));
    var g := FrameToGap(s, r, t, code, c, sync, tail);
    if tail != [] { ExpectAtLeastMore(r, tail[0].len, gap); }
  }

  /** The device is about to deliver a space, a frame, and whatever follows it. */
  predicate Delivers(s: Rx, gap: nat, frame: seq<Sig>, tail: seq<Sig>) {
    && Safe(s.tape)
    && Whole(Rewind(s).tape) == [Space(gap)] + (frame + tail)
    && gap > 0 && !StartsPulse(tail) && (tail == [] ==> Quiet(Rewind(s).tape))
  }

  /** The space is taken for the gap after the last frame. */
  predicate Synchronises(r: Remote, c: Context, gap: nat) {
    c.last.NoLast? || r.protocol.Rcmm? || c.last.remote.ExpectAtLeast(gap, c.last.minRemainingGap)
  }

  lemma SyncSeen(s: Rx, r: Remote, c: Context, gap: nat, frame: seq<Sig>, tail: seq<Sig>)
    requires Delivers(s, gap, Air(frame), tail) && Synchronises(r, c, gap)
    ensures var y := SyncBuffer(Rewind(s), r, c.last);
            && y.len == gap && Sees(y.s, frame, tail) && Owed(y.s) == []
            && Clock(y.s.tape) == Total(Air(frame)) + Total(tail)
            && SameInput(Rewind(s), y.s)
  {
    hide Air;
    var t := Rewind(s);
    var rest := Air(frame) + tail;
    assert Ahead(t.tape) == [Space(gap)] + rest;
    NextReads(t.tape, 1000000, Space(gap), rest);
    assert SyncBuffer(t, r, c.last) == Length(RestartSum(NextSpace(t, 1000000).s), gap);
    OwedNothing(frame);
    TotalConcat(Air(frame), tail);
  }

  /** The conditions on one transmission: a sound remote, a frame that begins with a pulse (a
      leading space would be lost), a header that can be decided on, and an end. */
  predicate Transmissible(r: Remote, t: Toggles, code: Word)
    requires r.BitCount() <= 64
  {
    && StartsPulse(FrameSignals(r, t, code, false))
    && (r.HasHeader() && HeaderAtOnce(r) ==> StartsPulse(AfterHeader(r, t, code, FootSignals(r))))
  }

  predicate Ends(r: Remote, length: int, tail: seq<Sig>) {
    tail == [] || (tail[0].len > 0 && tail[0].len >= GapAfter(r, length))
  }

  /** The frame as a receiver sees it. */
  function OnAir(r: Remote, t: Toggles, code: Word): seq<Sig>
    requires r.BitCount() <= 64
  {
    Air(FrameSignals(r, t, code, false))
  }

  // ----- what comes after the gap -----

  function Marks(c: seq<Sig>): seq<Event> {
    seq(|c|, i requires 0 <= i < |c| => Mark(c[i]))
  }

  lemma {:induction false} DeliveredMarks(c: seq<Sig>, x: seq<Event>, room: nat)
    requires Positive(c) && |c| <= room
    ensures Delivered(Marks(c) + x, room) == c + Delivered(x, room - |c|)
  {
    if c == [] {
      assert Marks(c) + x == x;
    } else {
      var feed := Marks(c) + x;
      assert feed[1..] == Marks(c[1..]) + x;
      DeliveredMarks(c[1..], x, room - 1);
      assert c == [c[0]] + c[1..];
    }
  }

  lemma {:induction false} AirPositive(c: seq<Sig>)
    requires Positive(c)
    ensures Positive(Air(c))
    decreases |c|
  {
    if |c| >= 2 { AirPositive(if SameLevel(c[0], c[1]) then [Join(c[0], c[1])] + c[2..] else c[1..]); }
  }

  /** The transmit buffer after `send_code` and synchronisation, nothing lost. */
  predicate Sent(r: Remote, t: Toggles, code: Word, u: Tx)
    requires r.BitCount() <= 64
  {
    u == Sync(SendAll(CLEARED, FrameSignals(r, t, code, false))) && !Bad(u)
  }

  lemma SentFrame(f: seq<Sig>)
    requires Positive(f) && StartsPulse(f) && !Bad(Sync(SendAll(CLEARED, f)))
    ensures var u := Sync(SendAll(CLEARED, f));
            Levels(u.buf) == Air(f) && u.sum == Total(Air(f))
  {
    hide Air, Runs, Sync, SendAll, Queued, Represents, Positive, Total, Levels, DropLeadingSpaces;
    var v := SendAll(CLEARED, f);
    StartClear();
    PulseFirstKept(f);
    SyncKeepsTooLong(v);
    SendAllRefinesRuns(CLEARED, [], f);
    SyncGivesAir(v, f);
  }

  lemma PulseFirstKept(f: seq<Sig>)
    requires StartsPulse(f)
    ensures DropLeadingSpaces(f) == f && [] + f == f
  {
  }
}
