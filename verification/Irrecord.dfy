/** The code of irrecord.c that factors common bits out of a new remote, in place. */
module Irrecord {
  import opened Words
  import opened Factor
  import Sending = Passes

  /** `mask & ~(a ^ b)` */
  function Agreeing(mask: Word, a: Word, b: Word): Word {
    seq(64, j requires 0 <= j < 64 => mask[j] && a[j] == b[j])
  }

  lemma CommonNext(ws: seq<Word>, w: Word)
    requires ws != []
    ensures Common(ws + [w]) == Agreeing(Common(ws), ws[|ws| - 1], w)
  {
    var vs := ws + [w];
    forall j | 0 <= j < 64
      ensures Common(vs)[j] == (Common(ws)[j] && ws[|ws| - 1][j] == w[j])
    {
      assert vs[0] == ws[0] && vs[|ws|] == w && ws[|ws| - 1] == vs[|ws| - 1];
      if Common(vs)[j] {
        forall i | 0 <= i < |ws|
          ensures ws[i][j] == ws[0][j]
        {
          assert ws[i] == vs[i];
        }
      }
    }
  }

  /** The bits in which all codes agree, each compared with the one before it. */
  method CompareCodes(codes: array<Button>) returns (mask: Word, last: Word)
    requires codes.Length > 0
    ensures mask == Common(Compared(codes[..])) && last == LastCompared(codes[..])
  {
    hide Common, Agreeing, LastCompared;
    mask, last := Ones(64), codes[0].code;
    ghost var ws := [last];
    OneAgrees(last);
    assert codes[..1] == [codes[0]];
    for i := 1 to codes.Length
      invariant ws == Compared(codes[..i]) && mask == Common(ws) && last == ws[|ws| - 1]
    {
      ghost var before := ws;
      var b := codes[i];
      CommonNext(ws, b.code);
      mask, last, ws := Agreeing(mask, last, b.code), b.code, ws + [b.code];
      for k := 0 to |b.next|
        invariant ws == before + WordsOf(b)[..k + 1] && mask == Common(ws) && last == ws[|ws| - 1]
      {
        CommonNext(ws, b.next[k]);
        mask, last, ws := Agreeing(mask, last, b.next[k]), b.next[k], ws + [b.next[k]];
        assert WordsOf(b)[..k + 2] == WordsOf(b)[..k + 1] + [b.next[k]];
      }
      assert WordsOf(b)[..|b.next| + 1] == WordsOf(b);
      assert codes[..i + 1] == codes[..i] + [b];
    }
    assert codes[..codes.Length] == codes[..];
    ComparedEnds(codes[..]);
  }

  lemma OneAgrees(w: Word)
    ensures Common([w]) == Ones(64)
  {
  }

  /** The ones at the high end of the mask, which are shifted out one by one. */
  method CountLeading(mask: Word) returns (count: nat)
    ensures count == Leading(mask)
  {
    count := 0;
    var m := mask;
    while m[0]
      invariant count <= 64 && m == mask[count..] + Zeros(count) && Leading(mask) == count + Leading(mask[count..])
      decreases 64 - count
    {
      assert mask[count..][1..] == mask[count + 1..];
      count, m := count + 1, m[1..] + [false];
    }
  }

  lemma ShiftedFurther(w: Word, k: nat)
    requires k < 64
    ensures ShiftRight(ShiftRight(w, k), 1) == ShiftRight(w, k + 1)
    ensures ShiftRight(w, k)[63] == w[63 - k] && !ShiftRight(w, 64)[63]
  {
  }

  lemma TrailingNext(w: Word, k: nat)
    requires k < 64
    ensures Trailing(w[..64 - k]) == if w[63 - k] then 1 + Trailing(w[..63 - k]) else 0
  {
    assert w[..64 - k][..63 - k] == w[..63 - k];
  }

  method CountTrailing(mask: Word) returns (count: nat)
    ensures count == Trailing(mask)
  {
    hide Trailing, ShiftRight;
    count := 0;
    var m := ShiftRight(mask, 0);
    assert mask[..64] == mask;
    ShiftedFurther(mask, 0);
    TrailingNext(mask, 0);
    while m[63]
      invariant count <= 64 && m == ShiftRight(mask, count)
      invariant Trailing(mask) == count + if m[63] then Trailing(mask[..64 - count]) else 0
      decreases 64 - count
    {
      ShiftedFurther(mask, count);
      TrailingNext(mask, count);
      if count < 63 {
        ShiftedFurther(mask, count + 1);
        TrailingNext(mask, count + 1);
      }
      count, m := count + 1, ShiftRight(m, 1);
    }
  }

  /** Changes every code of every button. */
  method ChangeAll(codes: array<Button>, f: Word -> Word)
    modifies codes
    ensures codes[..] == MapAll(old(codes[..]), f)
  {
    for i := 0 to codes.Length
      invariant forall j :: 0 <= j < i ==> codes[j] == MapButton(old(codes[j]), f)
      invariant forall j :: i <= j < codes.Length ==> codes[j] == old(codes[j])
    {
      var b := codes[i];
      var next := b.next;
      for k := 0 to |next|
        invariant |next| == |b.next|
        invariant forall m :: 0 <= m < k ==> next[m] == f(b.next[m])
        invariant forall m :: k <= m < |next| ==> next[m] == b.next[m]
      {
        next := next[k := f(next[k])];
      }
      assert next == MapButton(b, f).next;
      codes[i] := Sending.Button(f(b.code), next);
    }
  }

  class Recording {
    var bits: nat
    var preDataBits: nat
    var preData: Word
    var postDataBits: nat
    var postData: Word
    const preP: nat
    const preS: nat
    const codes: array<Button>

    function View(): Profile
      reads this, codes
    {
      Profile(bits, preDataBits, preData, postDataBits, postData, preP, preS, codes[..])
    }

    constructor (p: Profile, codes: array<Button>)
      ensures this.codes == codes && View() == p.(codes := codes[..])
    {
      bits := p.bits;
      preDataBits, preData := p.preDataBits, p.preData;
      postDataBits, postData := p.postDataBits, p.postData;
      preP, preS := p.preP, p.preS;
      this.codes := codes;
    }

    method GetPreData()
      requires bits <= 64
      modifies this, codes
      ensures View() == FactorPre(old(View()))
    {
      hide Common, Compared, LastCompared, MapAll, Leading;
      if bits == 0 || codes.Length < 2 {
        return;
      }
      var mask, last := CompareCodes(codes);
      var leading := CountLeading(mask);
      var count := Rounded(leading - (64 - bits), bits);
      if count > 0 {
        var lo, hi := 64 - bits, 64 - bits + count;
        bits := bits - count;
        preDataBits := count;
        preData := FromBits(last[lo..hi]);
        ChangeAll(codes, Clearing(lo, hi));
      }
    }

    method GetPostData()
      requires bits <= 64 && Differing(View())
      modifies this, codes
      ensures View() == FactorPost(old(View()))
    {
      hide Common, Compared, LastCompared, MapAll, Trailing;
      if bits == 0 || codes.Length < 2 {
        return;
      }
      var mask, last := CompareCodes(codes);
      var trailing := CountTrailing(mask);
      var count := Rounded(trailing, bits);
      if count > 0 {
        bits := bits - count;
        postDataBits := count;
        postData := FromBits(Low(last, count));
        ChangeAll(codes, Shifting(count));
      }
    }

    method RemovePreData()
      requires bits <= 64
      modifies this, codes
      ensures View() == RestorePre(old(View()))
    {
      if preDataBits == 0 || preP != 0 || preS != 0 {
        return;
      }
      ChangeAll(codes, Prefixing(preData, bits));
      bits := bits + preDataBits;
      preData, preDataBits := ZERO, 0;
    }

    method RemovePostData()
      requires postDataBits <= 64
      modifies this, codes
      ensures View() == RestorePost(old(View()))
    {
      if postDataBits == 0 {
        return;
      }
      ChangeAll(codes, Postfixing(postData, postDataBits));
      bits := bits + postDataBits;
      postData, postDataBits := ZERO, 0;
    }
  }
}
