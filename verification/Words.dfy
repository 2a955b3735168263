/** Code words. The daemon keeps a code in an unsigned 64-bit `ir_code`; here it is the list of
    its 64 bits, most significant first, so that shifts are slices and bitwise operators act
    position by position. */
module Words {

  type Word = w: seq<bool> | |w| == 64 witness seq(64, _ => false)

  function Zeros(n: nat): seq<bool> {
    seq(n, _ => false)
  }

  function Ones(n: nat): seq<bool> {
    seq(n, _ => true)
  }

  const ZERO: Word := Zeros(64)

  /** `(ir_code) -1`, which the receiver returns for "no data". */
  const FAILED: Word := Ones(64)

  /** `code << 1 | b` */
  function ShiftIn(w: Word, b: bool): Word {
    w[1..] + [b]
  }

  /** `code << |bs|`, with the bits `bs` put in. */
  function ShiftInAll(w: Word, bs: seq<bool>): Word
    requires |bs| <= 64
  {
    w[|bs|..] + bs
  }

  /** `w & (1 << k)` as a truth value. */
  predicate TestBit(w: Word, k: nat)
    requires k < 64
  {
    w[63 - k]
  }

  /** The `n` low bits, most significant first. */
  function Low(w: Word, n: nat): (bs: seq<bool>)
    requires n <= 64
  {
    w[64 - n..]
  }

  function FromBits(bs: seq<bool>): Word
    requires |bs| <= 64
  {
    Zeros(64 - |bs|) + bs
  }

  /** `w & gen_mask(n)` */
  function Mask(w: Word, n: nat): Word
    requires n <= 64
  {
    FromBits(Low(w, n))
  }

  predicate Fits(w: Word, n: nat)
    requires n <= 64
  {
    w == Mask(w, n)
  }

  function Xor(a: seq<bool>, b: seq<bool>): (c: seq<bool>)
    requires |a| == |b|
    ensures |c| == |a|
  {
    seq(|a|, i requires 0 <= i < |a| => a[i] != b[i])
  }

  function Reversed(bs: seq<bool>): (r: seq<bool>)
    ensures |r| == |bs|
  {
    seq(|bs|, i requires 0 <= i < |bs| => bs[|bs| - 1 - i])
  }

  /** What `reverse(data, n)` computes: the `n` low bits in the opposite order. */
  function ReverseWord(w: Word, n: nat): Word
    requires n <= 64
  {
    FromBits(Reversed(Low(w, n)))
  }

  /** `reverse` as the source writes it: bit `i` of the data goes to bit `n - 1 - i`. */
  method Reverse(data: Word, n: nat) returns (c: Word)
    requires n <= 64
    ensures c == ReverseWord(data, n)
  {
    c := ZERO;
    for i := 0 to n
      invariant forall j :: 0 <= j < 64 ==>
        c[j] == (64 - n <= j < 64 - n + i && data[127 - n - j])
    {
      c := c[63 - (n - 1 - i) := c[63 - (n - 1 - i)] || TestBit(data, i)];
    }
    assert forall j :: 64 - n <= j < 64 ==> ReverseWord(data, n)[j] == data[127 - n - j];
  }

  /** `w >> k` */
  function ShiftRight(w: Word, k: nat): Word
    requires k <= 64
  {
    Zeros(k) + w[..64 - k]
  }

  /** The low end of `d` holds `bs[i..]` in reverse: the next bit to shift out is `bs[i]`. */
  ghost predicate Upcoming(d: Word, bs: seq<bool>, i: nat) {
    i <= |bs| <= 64 && Low(d, |bs| - i) == Reversed(bs[i..])
  }

  lemma ReversedUpcoming(w: Word, n: nat)
    requires n <= 64
    ensures Upcoming(ReverseWord(w, n), Low(w, n), 0)
  {
    LowOfFromBits(Reversed(Low(w, n)));
    assert Low(w, n)[0..] == Low(w, n);
  }

  /** Shifting out of the low end of a reversed word takes the bits in their original order. */
  lemma ShiftOut(d: Word, e: Word, bs: seq<bool>, i: nat, k: nat)
    requires Upcoming(d, bs, i) && i + k <= |bs|
    requires e[..64 - k] == d[..64 - k]
    ensures d[64 - k..] == Reversed(bs[i..i + k])
    ensures k >= 1 ==> d[63] == bs[i]
    ensures k >= 2 ==> d[62] == bs[i + 1]
    ensures Upcoming(ShiftRight(e, k), bs, i + k)
  {
    var n := |bs| - i;
    ReverseConcat(bs[i..i + k], bs[i + k..]);
    assert bs[i..i + k] + bs[i + k..] == bs[i..];
    assert d[64 - k..] == Low(d, n)[n - k..];
    assert k >= 1 ==> d[63] == d[64 - k..][k - 1];
    assert k >= 2 ==> d[62] == d[64 - k..][k - 2];
    assert Low(ShiftRight(e, k), n - k) == e[..64 - k][64 - n..] == Low(d, n)[..n - k];
  }

  lemma ReverseInvolution(w: Word, n: nat)
    requires n <= 64
    ensures ReverseWord(ReverseWord(w, n), n) == Mask(w, n)
  {
    assert Low(ReverseWord(w, n), n) == Reversed(Low(w, n));
  }

  lemma ReverseConcat(a: seq<bool>, b: seq<bool>)
    ensures Reversed(a + b) == Reversed(b) + Reversed(a)
  {
  }

  lemma ReversedTwice(a: seq<bool>)
    ensures Reversed(Reversed(a)) == a
  {
  }

  lemma LowOfFromBits(bs: seq<bool>)
    requires |bs| <= 64
    ensures Low(FromBits(bs), |bs|) == bs && Fits(FromBits(bs), |bs|)
  {
    assert Low(FromBits(bs), |bs|) == bs;
  }
}
