/** From a code word to the signals of one frame (transmit.c). */
module Transmit {
  import opened Words
  import opened Signals
  import opened SendBuffers
  import opened Remotes

  /** The toggle fields of a remote while sending. */
  datatype Toggles = Toggles(bitMaskState: Word, maskState: nat)

  function BitsSet(bs: seq<bool>): nat {
    if bs == [] then 0 else (if bs[0] then 1 else 0) + BitsSet(bs[1..])
  }

  /** Bit `k` of a frame as it goes on the air: toggle bits and the toggle mask applied. */
  function AirBit(r: Remote, t: Toggles, k: nat, b: bool): bool
    requires k < r.BitCount() <= 64
  {
    var p := r.BitCount() - 1 - k;
    var c :=
      if r.HasToggleBitMask() && TestBit(r.toggleBitMask, p) then
        if BitsSet(r.toggleBitMask) == 1 then TestBit(t.bitMaskState, p)
        else b != TestBit(t.bitMaskState, p)
      else b;
    if r.HasToggleMask() && TestBit(r.toggleMask, p) && t.maskState % 2 == 1 then !c else c
  }

  function AirBits(r: Remote, t: Toggles, done: nat, bs: seq<bool>): (a: seq<bool>)
    requires done + |bs| <= r.BitCount() <= 64
    ensures |a| == |bs|
  {
    seq(|bs|, i requires 0 <= i < |bs| => AirBit(r, t, done + i, bs[i]))
  }

  function EncodeBit(r: Remote, k: nat, b: bool): seq<Sig> {
    if !b then [Pulse(r.Stretch(k, r.pzero)), Space(r.Stretch(k, r.szero))]
    else if r.IsBiphase() then [Space(r.Stretch(k, r.sone)), Pulse(r.Stretch(k, r.pone))]
    else [Pulse(r.pone), Space(r.sone)]
  }

  /** Bits `done`, `done + 1`, ... of a frame, most significant first. */
  function EncodeBits(r: Remote, done: nat, bs: seq<bool>): seq<Sig>
    decreases |bs|
  {
    if bs == [] then [] else EncodeBit(r, done, bs[0]) + EncodeBits(r, done + 1, bs[1..])
  }

  /** An RC-MM symbol stands for two bits. */
  function EncodePair(r: Remote, hi: bool, lo: bool): seq<Sig> {
    if !hi && !lo then [Pulse(r.pzero), Space(r.szero)]
    else if !hi then [Pulse(r.pone), Space(r.sone)]
    else if !lo then [Pulse(r.ptwo), Space(r.stwo)]
    else [Pulse(r.pthree), Space(r.sthree)]
  }

  function EncodePairs(r: Remote, bs: seq<bool>): seq<Sig>
    decreases |bs|
  {
    if |bs| < 2 then [] else EncodePair(r, bs[0], bs[1]) + EncodePairs(r, bs[2..])
  }

  function Nibble(bs: seq<bool>): (n: nat)
    requires |bs| == 4
    ensures n < 16
  {
    (if bs[0] then 8 else 0) + (if bs[1] then 4 else 0) + (if bs[2] then 2 else 0) + (if bs[3] then 1 else 0)
  }

  function XmpSpace(r: Remote, n: nat): nat {
    r.szero + n * r.sone
  }

  /** An XMP symbol stands for four bits; its space grows with their value. */
  function EncodeNibble(r: Remote, bs: seq<bool>): seq<Sig>
    requires |bs| == 4
  {
    [Pulse(r.pzero), Space(XmpSpace(r, Nibble(bs)))]
  }

  function EncodeNibbles(r: Remote, bs: seq<bool>): seq<Sig>
    decreases |bs|
  {
    if |bs| < 4 then [] else EncodeNibble(r, bs[..4]) + EncodeNibbles(r, bs[4..])
  }

  /** The signals `send_data` asks for: `bits` low bits of `w`, `done` bits having gone before. */
  function DataSignals(r: Remote, t: Toggles, w: Word, bits: nat, done: nat): seq<Sig>
    requires done + bits <= r.BitCount() <= 64
  {
    match r.protocol
    case Rcmm => if bits % 2 != 0 || done % 2 != 0 then [] else EncodePairs(r, Low(w, bits))
    case Xmp => if bits % 4 != 0 || done % 4 != 0 then [] else EncodeNibbles(r, Low(w, bits))
    case _ => EncodeBits(r, done, AirBits(r, t, done, Low(w, bits)))
  }

  function HeaderSignals(r: Remote): seq<Sig> {
    if r.HasHeader() then [Pulse(r.phead), Space(r.shead)] else []
  }

  function LeadSignals(r: Remote): seq<Sig> {
    if r.plead != 0 then [Pulse(r.plead)] else []
  }

  function PreSignals(r: Remote, t: Toggles): seq<Sig>
    requires r.BitCount() <= 64
  {
    if !r.HasPre() then []
    else DataSignals(r, t, r.preData, r.preDataBits, 0)
           + if r.preP > 0 && r.preS > 0 then [Pulse(r.preP), Space(r.preS)] else []
  }

  function PostSignals(r: Remote, t: Toggles): seq<Sig>
    requires r.BitCount() <= 64
  {
    if !r.HasPost() then []
    else (if r.postP > 0 && r.postS > 0 then [Pulse(r.postP), Space(r.postS)] else [])
           + DataSignals(r, t, r.postData, r.postDataBits, r.preDataBits + r.bits)
  }

  function TrailSignals(r: Remote): seq<Sig> {
    if r.ptrail != 0 then [Pulse(r.ptrail)] else []
  }

  function FootSignals(r: Remote): seq<Sig> {
    if r.HasFoot() then [Space(r.sfoot), Pulse(r.pfoot)] else []
  }

  /** One whole frame; a repetition may come without its header or foot. */
  function FrameSignals(r: Remote, t: Toggles, code: Word, repeat: bool): seq<Sig>
    requires r.BitCount() <= 64
  {
    (if !repeat || !r.noHeadRep then HeaderSignals(r) else [])
      + LeadSignals(r) + PreSignals(r, t)
      + DataSignals(r, t, code, r.bits, r.preDataBits)
      + PostSignals(r, t) + TrailSignals(r)
      + if !repeat || !r.noFootRep then FootSignals(r) else []
  }

  /** The frame a remote with a repeat code sends while a button is held. */
  function RepeatSignals(r: Remote): seq<Sig> {
    (if r.repeatHeader then HeaderSignals(r) else [])
      + LeadSignals(r) + [Pulse(r.prepeat), Space(r.srepeat)] + TrailSignals(r)
  }

  /** A first frame that must not count its header has it taken off the sum. */
  function HeaderDiscount(r: Remote, repeat: bool): nat {
    if !repeat && r.noHeadRep && r.constLength then r.phead + r.shead else 0
  }

  lemma {:induction false} EncodeBitsAppend(r: Remote, done: nat, bs: seq<bool>, b: bool)
    ensures EncodeBits(r, done, bs + [b]) == EncodeBits(r, done, bs) + EncodeBit(r, done + |bs|, b)
    decreases |bs|
  {
    if bs == [] {
      assert EncodeBits(r, done + 1, []) == [];
    } else {
      assert (bs + [b])[1..] == bs[1..] + [b];
      EncodeBitsAppend(r, done + 1, bs[1..], b);
    }
  }

  lemma {:induction false} EncodePairsAppend(r: Remote, bs: seq<bool>, k: nat, hi: bool, lo: bool)
    requires |bs| == 2 * k
    ensures EncodePairs(r, bs + [hi, lo]) == EncodePairs(r, bs) + EncodePair(r, hi, lo)
    decreases |bs|
  {
    if bs == [] {
      assert EncodePairs(r, [hi, lo][2..]) == [];
    } else {
      assert (bs + [hi, lo])[2..] == bs[2..] + [hi, lo];
      EncodePairsAppend(r, bs[2..], k - 1, hi, lo);
    }
  }

  lemma {:induction false} EncodeNibblesAppend(r: Remote, bs: seq<bool>, k: nat, n: seq<bool>)
    requires |bs| == 4 * k && |n| == 4
    ensures EncodeNibbles(r, bs + n) == EncodeNibbles(r, bs) + EncodeNibble(r, n)
    decreases |bs|
  {
    if bs == [] {
      assert bs + n == n && n[..4] == n;
      assert EncodeNibbles(r, n[4..]) == [];
    } else {
      assert (bs + n)[4..] == bs[4..] + n && (bs + n)[..4] == bs[..4];
      EncodeNibblesAppend(r, bs[4..], k - 1, n);
    }
  }

  method SendBit(b: SendBuffer, r: Remote, k: nat, bit: bool)
    requires b.Valid() && k < r.BitCount() <= 64
    modifies b, b.data
    ensures b.Valid() && b.View() == SendAll(old(b.View()), EncodeBit(r, k, bit))
  {
    var doubled := TestBit(r.rc6Mask, r.BitCount() - 1 - k);
    if bit {
      if r.IsBiphase() {
        if doubled {
          b.PushSpace(2 * r.sone);
          b.PushPulse(2 * r.pone);
        } else {
          b.PushSpace(r.sone);
          b.PushPulse(r.pone);
        }
      } else {
        b.PushPulse(r.pone);
        b.PushSpace(r.sone);
      }
    } else if doubled {
      b.PushPulse(2 * r.pzero);
      b.PushSpace(2 * r.szero);
    } else {
      b.PushPulse(r.pzero);
      b.PushSpace(r.szero);
    }
    SendOneTwo(old(b.View()), EncodeBit(r, k, bit)[0], EncodeBit(r, k, bit)[1]);
  }

  method SendSymbol(b: SendBuffer, p: nat, s: nat)
    requires b.Valid()
    modifies b, b.data
    ensures b.Valid() && b.View() == SendAll(old(b.View()), [Pulse(p), Space(s)])
  {
    b.PushPulse(p);
    b.PushSpace(s);
    SendOneTwo(old(b.View()), Pulse(p), Space(s));
  }

  /** `send_data`: the word is reversed first and then taken from its low end. */
  method SendData(b: SendBuffer, r: Remote, t: Toggles, w: Word, bits: nat, done: nat)
    requires b.Valid() && done + bits <= r.BitCount() <= 64
    modifies b, b.data
    ensures b.Valid() && b.View() == SendAll(old(b.View()), DataSignals(r, t, w, bits, done))
  {
    if r.protocol.Rcmm? {
      SendPairs(b, r, w, bits, done);
    } else if r.protocol.Xmp? {
      SendNibbles(b, r, w, bits, done);
    } else {
      SendBits(b, r, t, w, bits, done);
    }
  }

  /** Each toggle bit acts on the low end of the data just before it is sent. */
  method ApplyToggles(d: Word, r: Remote, t: Toggles, k: nat) returns (e: Word)
    requires k < r.BitCount() <= 64
    ensures e[63] == AirBit(r, t, k, d[63]) && e[..63] == d[..63]
  {
    e := d;
    var p := r.BitCount() - 1 - k;
    if r.HasToggleBitMask() && TestBit(r.toggleBitMask, p) {
      if BitsSet(r.toggleBitMask) == 1 {
        e := e[63 := TestBit(t.bitMaskState, p)];
      } else if TestBit(t.bitMaskState, p) {
        e := e[63 := !e[63]];
      }
    }
    if r.HasToggleMask() && TestBit(r.toggleMask, p) && t.maskState % 2 == 1 {
      e := e[63 := !e[63]];
    }
  }

  lemma SendNoBits(v: Tx, r: Remote, done: nat)
    ensures SendAll(v, EncodeBits(r, done, [])) == v
  {
  }

  lemma SendBitNext(v: Tx, r: Remote, done: nat, air: seq<bool>, i: nat)
    requires i < |air|
    ensures SendAll(SendAll(v, EncodeBits(r, done, air[..i])), EncodeBit(r, done + i, air[i]))
         == SendAll(v, EncodeBits(r, done, air[..i + 1]))
  {
    EncodeBitsAppend(r, done, air[..i], air[i]);
    SendAllConcat(v, EncodeBits(r, done, air[..i]), EncodeBit(r, done + i, air[i]));
    assert air[..i + 1] == air[..i] + [air[i]];
  }

  method SendBits(b: SendBuffer, r: Remote, t: Toggles, w: Word, bits: nat, done: nat)
    requires b.Valid() && done + bits <= r.BitCount() <= 64
    modifies b, b.data
    ensures b.Valid()
    ensures b.View() == SendAll(old(b.View()), EncodeBits(r, done, AirBits(r, t, done, Low(w, bits))))
  {
    hide SendAll, EncodeBits, EncodeBit, Upcoming, AirBit, ReverseWord;
    SendNoBits(b.View(), r, done);
    ghost var v, low, air := b.View(), Low(w, bits), AirBits(r, t, done, Low(w, bits));
    assert air[..0] == [];
    var d := Reverse(w, bits);
    ReversedUpcoming(w, bits);
    for i := 0 to bits
      invariant b.Valid() && b.View() == SendAll(v, EncodeBits(r, done, air[..i]))
      invariant Upcoming(d, low, i)
    {
      var e := ApplyToggles(d, r, t, done + i);
      ShiftOut(d, e, low, i, 1);
      assert e[63] == air[i];
      SendBit(b, r, done + i, e[63]);
      assert b.View() == SendAll(SendAll(v, EncodeBits(r, done, air[..i])), EncodeBit(r, done + i, air[i]));
      SendBitNext(v, r, done, air, i);
      d := ShiftRight(e, 1);
    }
    assert air[..bits] == air;
  }

  lemma SendPairNext(v: Tx, r: Remote, air: seq<bool>, i: nat, k: nat)
    requires i == 2 * k && i + 2 <= |air|
    ensures SendAll(SendAll(v, EncodePairs(r, air[..i])), EncodePair(r, air[i], air[i + 1]))
         == SendAll(v, EncodePairs(r, air[..i + 2]))
  {
    EncodePairsAppend(r, air[..i], k, air[i], air[i + 1]);
    SendAllConcat(v, EncodePairs(r, air[..i]), EncodePair(r, air[i], air[i + 1]));
    assert air[..i + 2] == air[..i] + [air[i], air[i + 1]];
  }

  method SendPairs(b: SendBuffer, r: Remote, w: Word, bits: nat, done: nat)
    requires b.Valid() && bits <= 64
    modifies b, b.data
    ensures b.Valid()
    ensures b.View() == SendAll(old(b.View()),
                                if bits % 2 != 0 || done % 2 != 0 then [] else EncodePairs(r, Low(w, bits)))
  {
    hide Upcoming, ReverseWord;
    ghost var v, air := b.View(), Low(w, bits);
    var d := Reverse(w, bits);
    ReversedUpcoming(w, bits);
    if bits % 2 != 0 || done % 2 != 0 {
      return;
    }
    var i := 0;
    ghost var k := 0;
    while i < bits
      decreases bits - i
      invariant i == 2 * k <= bits
      invariant b.Valid() && b.View() == SendAll(v, EncodePairs(r, air[..i]))
      invariant Upcoming(d, air, i)
    {
      ShiftOut(d, d, air, i, 2);
      // 2 and 1 are swapped by the reversal
      match (d[62], d[63]) {
        case (false, false) => SendSymbol(b, r.pzero, r.szero);
        case (true, false) => SendSymbol(b, r.pone, r.sone);
        case (false, true) => SendSymbol(b, r.ptwo, r.stwo);
        case (true, true) => SendSymbol(b, r.pthree, r.sthree);
      }
      SendPairNext(v, r, air, i, k);
      d := ShiftRight(d, 2);
      i, k := i + 2, k + 1;
    }
    assert air[..bits] == air;
  }

  /** The nibble at the low end of the reversed data. */
  method TakeNibble(d: Word) returns (n: nat)
    ensures n == Nibble(Reversed(d[60..]))
  {
    var nibble := Reverse(FromBits(d[60..]), 4);
    LowOfFromBits(d[60..]);
    LowOfFromBits(Reversed(d[60..]));
    n := Nibble(Low(nibble, 4));
  }

  lemma SendNibbleNext(v: Tx, r: Remote, air: seq<bool>, i: nat, k: nat)
    requires i == 4 * k && i + 4 <= |air|
    ensures SendAll(SendAll(v, EncodeNibbles(r, air[..i])), EncodeNibble(r, air[i..i + 4]))
         == SendAll(v, EncodeNibbles(r, air[..i + 4]))
  {
    EncodeNibblesAppend(r, air[..i], k, air[i..i + 4]);
    SendAllConcat(v, EncodeNibbles(r, air[..i]), EncodeNibble(r, air[i..i + 4]));
    assert air[..i + 4] == air[..i] + air[i..i + 4];
  }

  method SendNibbles(b: SendBuffer, r: Remote, w: Word, bits: nat, done: nat)
    requires b.Valid() && bits <= 64
    modifies b, b.data
    ensures b.Valid()
    ensures b.View() == SendAll(old(b.View()),
                                if bits % 4 != 0 || done % 4 != 0 then [] else EncodeNibbles(r, Low(w, bits)))
  {
    ghost var v, air := b.View(), Low(w, bits);
    var d := Reverse(w, bits);
    ReversedUpcoming(w, bits);
    if bits % 4 != 0 || done % 4 != 0 {
      return;
    }
    var i := 0;
    ghost var k := 0;
    while i < bits
      decreases bits - i
      invariant i == 4 * k <= bits
      invariant b.Valid() && b.View() == SendAll(v, EncodeNibbles(r, air[..i]))
      invariant Upcoming(d, air, i)
    {
      var n := TakeNibble(d);
      ShiftOut(d, d, air, i, 4);
      ReversedTwice(air[i..i + 4]);
      SendSymbol(b, r.pzero, XmpSpace(r, n));
      assert b.View() == SendAll(SendAll(v, EncodeNibbles(r, air[..i])), EncodeNibble(r, air[i..i + 4]));
      SendNibbleNext(v, r, air, i, k);
      d := ShiftRight(d, 4);
      i, k := i + 4, k + 1;
    }
    assert air[..bits] == air;
  }

  method SendHeader(b: SendBuffer, r: Remote)
    requires b.Valid()
    modifies b, b.data
    ensures b.Valid() && b.View() == SendAll(old(b.View()), HeaderSignals(r))
  {
    if r.HasHeader() {
      SendSymbol(b, r.phead, r.shead);
    }
  }

  method SendLead(b: SendBuffer, r: Remote)
    requires b.Valid()
    modifies b, b.data
    ensures b.Valid() && b.View() == SendAll(old(b.View()), LeadSignals(r))
  {
    if r.plead != 0 {
      b.PushPulse(r.plead);
      SendOneTwo(old(b.View()), Pulse(r.plead), Pulse(0));
    }
  }

  method SendPre(b: SendBuffer, r: Remote, t: Toggles)
    requires b.Valid() && r.BitCount() <= 64
    modifies b, b.data
    ensures b.Valid() && b.View() == SendAll(old(b.View()), PreSignals(r, t))
  {
    if r.HasPre() {
      SendData(b, r, t, r.preData, r.preDataBits, 0);
      ghost var data := DataSignals(r, t, r.preData, r.preDataBits, 0);
      assert data + [] == data;
      if r.preP > 0 && r.preS > 0 {
        SendSymbol(b, r.preP, r.preS);
        SendAllConcat(old(b.View()), data, [Pulse(r.preP), Space(r.preS)]);
      }
    }
  }

  method SendPost(b: SendBuffer, r: Remote, t: Toggles)
    requires b.Valid() && r.BitCount() <= 64
    modifies b, b.data
    ensures b.Valid() && b.View() == SendAll(old(b.View()), PostSignals(r, t))
  {
    hide DataSignals;
    if r.HasPost() {
      ghost var data := DataSignals(r, t, r.postData, r.postDataBits, r.preDataBits + r.bits);
      assert [] + data == data;
      if r.postP > 0 && r.postS > 0 {
        SendSymbol(b, r.postP, r.postS);
        SendAllConcat(old(b.View()), [Pulse(r.postP), Space(r.postS)], data);
      }
      SendData(b, r, t, r.postData, r.postDataBits, r.preDataBits + r.bits);
    }
  }

  method SendTrail(b: SendBuffer, r: Remote)
    requires b.Valid()
    modifies b, b.data
    ensures b.Valid() && b.View() == SendAll(old(b.View()), TrailSignals(r))
  {
    if r.ptrail != 0 {
      b.PushPulse(r.ptrail);
      SendOneTwo(old(b.View()), Pulse(r.ptrail), Pulse(0));
    }
  }

  method SendFoot(b: SendBuffer, r: Remote)
    requires b.Valid()
    modifies b, b.data
    ensures b.Valid() && b.View() == SendAll(old(b.View()), FootSignals(r))
  {
    if r.HasFoot() {
      b.PushSpace(r.sfoot);
      b.PushPulse(r.pfoot);
      SendOneTwo(old(b.View()), Space(r.sfoot), Pulse(r.pfoot));
    }
  }

  method SendRepeat(b: SendBuffer, r: Remote)
    requires b.Valid()
    modifies b, b.data
    ensures b.Valid() && b.View() == SendAll(old(b.View()), RepeatSignals(r))
  {
    ghost var v := b.View();
    if r.repeatHeader && r.HasHeader() {
      SendHeader(b, r);
    }
    SendLead(b, r);
    SendSymbol(b, r.prepeat, r.srepeat);
    SendTrail(b, r);
    var h := if r.repeatHeader then HeaderSignals(r) else [];
    SendAllConcat(v, h, LeadSignals(r));
    SendAllConcat(v, h + LeadSignals(r), [Pulse(r.prepeat), Space(r.srepeat)]);
    SendAllConcat(v, h + LeadSignals(r) + [Pulse(r.prepeat), Space(r.srepeat)], TrailSignals(r));
  }

  /** `send_code` queues exactly the frame. */
  method SendCode(b: SendBuffer, r: Remote, t: Toggles, code: Word, repeat: bool)
    requires b.Valid() && r.BitCount() <= 64
    modifies b, b.data
    ensures b.Valid()
    ensures b.View() ==
            var v := SendAll(old(b.View()), FrameSignals(r, t, code, repeat));
            v.(sum := v.sum - HeaderDiscount(r, repeat))
  {
    SendBeforeData(b, r, t, repeat);
    SendData(b, r, t, code, r.bits, r.preDataBits);
    SendAfterData(b, r, t, repeat);
    ghost var head, data, rest :=
      BeforeData(r, t, repeat), DataSignals(r, t, code, r.bits, r.preDataBits), AfterData(r, t, repeat);
    SendAllConcat(old(b.View()), head, data);
    SendAllConcat(old(b.View()), head + data, rest);
    FrameParts(r, t, code, repeat);
    if !repeat && r.noHeadRep && r.constLength {
      b.sum := b.sum - (r.phead + r.shead);
    }
  }

  function BeforeData(r: Remote, t: Toggles, repeat: bool): seq<Sig>
    requires r.BitCount() <= 64
  {
    (if !repeat || !r.noHeadRep then HeaderSignals(r) else []) + LeadSignals(r) + PreSignals(r, t)
  }

  function AfterData(r: Remote, t: Toggles, repeat: bool): seq<Sig>
    requires r.BitCount() <= 64
  {
    PostSignals(r, t) + TrailSignals(r) + if !repeat || !r.noFootRep then FootSignals(r) else []
  }

  lemma FrameParts(r: Remote, t: Toggles, code: Word, repeat: bool)
    requires r.BitCount() <= 64
    ensures FrameSignals(r, t, code, repeat)
         == BeforeData(r, t, repeat) + DataSignals(r, t, code, r.bits, r.preDataBits) + AfterData(r, t, repeat)
  {
  }

  method SendBeforeData(b: SendBuffer, r: Remote, t: Toggles, repeat: bool)
    requires b.Valid() && r.BitCount() <= 64
    modifies b, b.data
    ensures b.Valid() && b.View() == SendAll(old(b.View()), BeforeData(r, t, repeat))
  {
    ghost var v := b.View();
    if !repeat || !r.noHeadRep {
      SendHeader(b, r);
    }
    SendLead(b, r);
    SendPre(b, r, t);
    ghost var h := if !repeat || !r.noHeadRep then HeaderSignals(r) else [];
    SendAllConcat(v, h, LeadSignals(r));
    SendAllConcat(v, h + LeadSignals(r), PreSignals(r, t));
  }

  method SendAfterData(b: SendBuffer, r: Remote, t: Toggles, repeat: bool)
    requires b.Valid() && r.BitCount() <= 64
    modifies b, b.data
    ensures b.Valid() && b.View() == SendAll(old(b.View()), AfterData(r, t, repeat))
  {
    ghost var v := b.View();
    SendPost(b, r, t);
    SendTrail(b, r);
    if !repeat || !r.noFootRep {
      SendFoot(b, r);
    }
    ghost var f := if !repeat || !r.noFootRep then FootSignals(r) else [];
    SendAllConcat(v, PostSignals(r, t), TrailSignals(r));
    SendAllConcat(v, PostSignals(r, t) + TrailSignals(r), f);
  }
}
