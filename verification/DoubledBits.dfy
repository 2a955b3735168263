/** RC-6 sends some bits of a frame twice as long as the others: which ones, and how long data takes. */
module DoubledBits {
  import opened Words
  import opened Signals
  import opened Remotes
  import opened Transmit
  import opened Receive
  import opened Tolerance
  import opened NoisyFrames

  /** Bit `p` of the whole word, counted from its low end, is set in rc6_mask. */
  predicate Doubled(r: Remote, p: nat)
    requires p < 64
  {
    r.rc6Mask[63 - p]
  }

  function Times(d: nat, twice: bool): nat {
    if twice then d + d else d
  }

  /** What a bit looks like on the air, in terms of the configured lengths alone. */
  function BitShape(r: Remote, b: bool, twice: bool): (Sig, Sig) {
    if !b then (Pulse(Times(r.pzero, twice)), Space(Times(r.szero, twice)))
    else if r.IsBiphase() then (Space(Times(r.sone, twice)), Pulse(Times(r.pone, twice)))
    else (Pulse(r.pone), Space(r.sone))
  }

  lemma BitSent(r: Remote, k: nat, b: bool)
    requires k < r.BitCount() <= 64
    ensures var (x, y) := BitShape(r, b, Doubled(r, r.BitCount() - 1 - k));
            EncodeBit(r, k, b) == [x, y]
  {
  }

  lemma {:induction false} BitsSent(r: Remote, done: nat, bs: seq<bool>, j: nat)
    requires j < |bs| && done + |bs| <= r.BitCount() <= 64
    ensures var e := EncodeBits(r, done, bs);
            && |e| == 2 * |bs|
            && (e[2 * j], e[2 * j + 1]) == BitShape(r, bs[j], Doubled(r, r.BitCount() - 1 - (done + j)))
    decreases |bs|
  {
    hide EncodeBit, BitShape, Doubled;
    var e, rest := EncodeBit(r, done, bs[0]), EncodeBits(r, done + 1, bs[1..]);
    BitSent(r, done, bs[0]);
    assert EncodeBits(r, done, bs) == e + rest;
    BitsLength(r, done + 1, bs[1..]);
    if j > 0 {
      BitsSent(r, done + 1, bs[1..], j - 1);
      assert (e + rest)[2 * j] == rest[2 * (j - 1)] && (e + rest)[2 * j + 1] == rest[2 * (j - 1) + 1];
    }
  }

  lemma {:induction false} BitsLength(r: Remote, done: nat, bs: seq<bool>)
    ensures |EncodeBits(r, done, bs)| == 2 * |bs|
    decreases |bs|
  {
    if bs != [] { BitsLength(r, done + 1, bs[1..]); }
  }

  lemma DataIsBits(r: Remote, t: Toggles, w: Word, bits: nat, done: nat)
    requires OneBitSymbols(r) && done + bits <= r.BitCount() <= 64
    ensures var bs := AirBits(r, t, done, Low(w, bits));
            |bs| == bits && DataSignals(r, t, w, bits, done) == EncodeBits(r, done, bs)
  {
  }

  /** Bit `p` of the whole word goes on the air with both of its halves twice as long if and only if
      bit `p` of rc6_mask is set. */
  lemma DoubledOnAir(r: Remote, t: Toggles, w: Word, bits: nat, done: nat, p: nat)
    requires OneBitSymbols(r) && done + bits <= r.BitCount() <= 64
    requires r.BitCount() - done - bits <= p < r.BitCount() - done
    ensures var e, j := DataSignals(r, t, w, bits, done), r.BitCount() - 1 - done - p;
            && |e| == 2 * bits && |AirBits(r, t, done, Low(w, bits))| == bits
            && (e[2 * j], e[2 * j + 1]) == BitShape(r, AirBits(r, t, done, Low(w, bits))[j], Doubled(r, p))
  {
    hide BitShape, Doubled, EncodeBits, AirBits;
    DataIsBits(r, t, w, bits, done);
    BitsSent(r, done, AirBits(r, t, done, Low(w, bits)), r.BitCount() - 1 - done - p);
  }

  /** The time of the bits if none were doubled, and of those that are. */
  function PlainTime(r: Remote, bs: seq<bool>): nat {
    if bs == [] then 0 else (if bs[0] then r.pone + r.sone else r.pzero + r.szero) + PlainTime(r, bs[1..])
  }

  function DoubledTime(r: Remote, p: nat, bs: seq<bool>): nat
    requires |bs| <= p <= 64
  {
    if bs == [] then 0
    else (if Doubled(r, p - 1) then if bs[0] then r.pone + r.sone else r.pzero + r.szero else 0)
         + DoubledTime(r, p - 1, bs[1..])
  }

  /** Data takes the time of all its bits, and that of the doubled ones once more. */
  lemma {:induction false} DataTakes(r: Remote, done: nat, bs: seq<bool>)
    requires done + |bs| <= r.BitCount() <= 64
    ensures Total(EncodeBits(r, done, bs)) == PlainTime(r, bs) + DoubledTime(r, r.BitCount() - done, bs)
    decreases |bs|
  {
    hide EncodeBit, BitShape, Doubled, Total, EncodeBits;
    BitsFollow(r, done, bs);
    if bs != [] {
      DataTakes(r, done + 1, bs[1..]);
      TotalConcat(EncodeBit(r, done, bs[0]), EncodeBits(r, done + 1, bs[1..]));
      BitTakes(r, done, bs[0]);
    }
  }

  lemma BitsFollow(r: Remote, done: nat, bs: seq<bool>)
    ensures bs != [] ==> EncodeBits(r, done, bs) == EncodeBit(r, done, bs[0]) + EncodeBits(r, done + 1, bs[1..])
    ensures bs == [] ==> Total(EncodeBits(r, done, bs)) == 0
  {
  }

  lemma TotalOfTwo(x: Sig, y: Sig)
    ensures Total([x, y]) == x.len + y.len
  {
    assert [x, y][1..] == [y] && [y][1..] == [];
    assert Total([]) == 0 && Total([y]) == y.len;
  }

  lemma BitTakes(r: Remote, k: nat, b: bool)
    requires k < r.BitCount() <= 64
    ensures var half := if b then r.pone + r.sone else r.pzero + r.szero;
            Total(EncodeBit(r, k, b)) == half + if Doubled(r, r.BitCount() - 1 - k) then half else 0
  {
    hide EncodeBit;
    BitSent(r, k, b);
    var (x, y) := BitShape(r, b, Doubled(r, r.BitCount() - 1 - k));
    TotalOfTwo(x, y);
    if !r.IsBiphase() { assert !ZERO[63 - (r.BitCount() - 1 - k)]; }
  }

  // ----- a configuration -----

  /** A word of which one bit is set. */
  function OnlyBit(p: nat): Word
    requires p < 64
  {
    seq(64, i => i == 63 - p)
  }

  /** The RC-6 remote of remotes/mceusb/lircd.conf.mceusb, with any pre-data; its toggle bit 22 is
      bit 15 of the whole word. */
  function Mce(preData: Word): Remote {
    BLANK.(protocol := Rc6, bits := 16, constLength := true, eps := 30, aeps := 100, phead := 2667, shead := 889,
           pone := 444, sone := 444, pzero := 444, szero := 444, preDataBits := 21, preData := preData, gap := 105000,
           toggleBitMask := OnlyBit(15), rc6Mask := OnlyBit(32))
  }

  /** It doubles the fifth of its pre-data bits and no other bit. */
  lemma MceData(preData: Word, t: Toggles, k: nat)
    requires k < 21
    ensures var r := Mce(preData);
            var e, b, d := DataSignals(r, t, preData, 21, 0), AirBits(r, t, 0, Low(preData, 21)),
                           if k == 4 then 888 else 444;
            && |e| == 42 && |b| == 21
            && (e[2 * k], e[2 * k + 1]) == if b[k] then (Space(d), Pulse(d)) else (Pulse(d), Space(d))
  {
    DoubledOnAir(Mce(preData), t, preData, 21, 0, 36 - k);
  }

  lemma MceCode(preData: Word, t: Toggles, code: Word, k: nat)
    requires k < 16
    ensures var r := Mce(preData);
            var e, b := DataSignals(r, t, code, 16, 21), AirBits(r, t, 21, Low(code, 16));
            && |e| == 32 && |b| == 16
            && (e[2 * k], e[2 * k + 1]) == if b[k] then (Space(444), Pulse(444)) else (Pulse(444), Space(444))
  {
    DoubledOnAir(Mce(preData), t, code, 16, 21, 15 - k);
  }

  /** Its frames survive noise up to its tolerance. */
  lemma MceIsResilient(preData: Word)
    ensures Resilient(Mce(preData)) && Mce(preData).IsBiphase()
  {
    var r := Mce(preData);
    assert Slack(r, 444) == 133 && Slack(r, 888) == 266 && Slack(r, 889) == 266;
  }
}
