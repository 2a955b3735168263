/** Remotes of the old REVERSE kind: their values are reversed once when the configuration file is
    read (config_file.c), and the code reported to clients is reversed back as a whole
    (`set_code` in ir_remote.c). */
module ReverseCompat {
  import opened Words
  import opened Remotes
  import opened Recogniser

  function ShiftLeft(w: Word, n: nat): Word
    requires n <= 64
  {
    w[n..] + Zeros(n)
  }

  /** The code `set_code` reports; `compat` is the COMPAT_REVERSE flag. */
  function ReportedCode(r: Remote, code: Word, compat: bool): Word
    requires r.BitCount() <= 64
  {
    var a := if r.HasPre() then ShiftLeft(r.preData, r.bits) else ZERO;
    var b := Or(a, code);
    var c := if r.HasPost() then Or(ShiftLeft(b, r.postDataBits), r.postData) else b;
    if compat then ReverseWord(c, r.BitCount()) else c
  }

  /** The remote after its REVERSE flag was handled. */
  function Kicked(r: Remote): Remote
    requires r.BitCount() <= 64
  {
    r.(preData := if r.HasPre() then ReverseWord(r.preData, r.preDataBits) else r.preData,
       postData := if r.HasPost() then ReverseWord(r.postData, r.postDataBits) else r.postData)
  }

  /** Kicks the REVERSE flag: pre-data, post-data and the code of every button. The further codes
      of a sequence are left as they are. */
  method KickReverse(r: Remote, codes: array<NCode>) returns (kicked: Remote)
    requires r.BitCount() <= 64
    modifies codes
    ensures kicked == Kicked(r)
    ensures forall i :: 0 <= i < codes.Length ==>
              codes[i] == old(codes[i]).(code := ReverseWord(old(codes[i]).code, r.bits))
  {
    kicked := r;
    if r.HasPre() {
      var pre := Reverse(r.preData, r.preDataBits);
      kicked := kicked.(preData := pre);
    }
    if r.HasPost() {
      var post := Reverse(r.postData, r.postDataBits);
      kicked := kicked.(postData := post);
    }
    for i := 0 to codes.Length
      invariant forall j :: 0 <= j < i ==> codes[j] == old(codes[j]).(code := ReverseWord(old(codes[j]).code, r.bits))
      invariant forall j :: i <= j < codes.Length ==> codes[j] == old(codes[j])
    {
      var code := Reverse(codes[i].code, r.bits);
      codes[i] := codes[i].(code := code);
    }
  }

  lemma OrJoins(a: seq<bool>, b: seq<bool>)
    requires |a| + |b| <= 64
    ensures Or(ShiftLeft(FromBits(a), |b|), FromBits(b)) == FromBits(a + b)
    ensures Or(ZERO, FromBits(b)) == FromBits(b)
  {
  }

  /** Of values that fit, the whole word is reported: that which `gen_ir_code` makes of them. */
  lemma ReportsWholeWord(r: Remote, code: Word)
    requires r.BitCount() <= 64
    requires Fits(r.preData, r.preDataBits) && Fits(code, r.bits) && Fits(r.postData, r.postDataBits)
    ensures ReportedCode(r, code, false) == GenCode(r, r.preData, code, r.postData)
  {
    hide ShiftLeft, FromBits, Or;
    var a, b, c := Low(r.preData, r.preDataBits), Low(code, r.bits), Low(r.postData, r.postDataBits);
    OrJoins(a, b);
    OrJoins(a + b, c);
    NoBits(r.preData, code);
    assert !r.HasPost() ==> c == [];
    assert !r.HasPost() ==> a + b + c == a + b;
    assert !r.HasPre() ==> a + b == b;
  }

  lemma NoBits(w: Word, v: Word)
    ensures Low(w, 0) == [] && FromBits([]) == ZERO
  {
  }

  lemma ReversedFits(w: Word, n: nat)
    requires n <= 64
    ensures Fits(ReverseWord(w, n), n) && Low(ReverseWord(w, n), n) == Reversed(Low(w, n))
  {
    LowOfFromBits(Reversed(Low(w, n)));
  }

  lemma ReversedParts(a: seq<bool>, b: seq<bool>, c: seq<bool>)
    ensures Reversed(Reversed(a) + Reversed(b) + Reversed(c)) == c + b + a
  {
    ReverseConcat(Reversed(a) + Reversed(b), Reversed(c));
    ReverseConcat(Reversed(a), Reversed(b));
    ReversedTwice(a);
    ReversedTwice(b);
    ReversedTwice(c);
  }

  /** What is reported for a button of a REVERSE remote are the values as they are written in the
      file, in the order post-data, code, pre-data. */
  lemma ReverseReportsFileOrder(r: Remote, code: Word)
    requires r.BitCount() <= 64 && (!r.HasPre() ==> r.preData == ZERO) && (!r.HasPost() ==> r.postData == ZERO)
    ensures ReportedCode(Kicked(r), ReverseWord(code, r.bits), true)
         == FromBits(Low(r.postData, r.postDataBits) + Low(code, r.bits) + Low(r.preData, r.preDataBits))
  {
    hide ShiftLeft, FromBits, Or, Low, Reversed;
    var k, w := Kicked(r), ReverseWord(code, r.bits);
    var a, b, c := Low(r.preData, r.preDataBits), Low(code, r.bits), Low(r.postData, r.postDataBits);
    ReversedFits(r.preData, r.preDataBits);
    ReversedFits(code, r.bits);
    ReversedFits(r.postData, r.postDataBits);
    NothingReversed(r.preData);
    NothingReversed(r.postData);
    ReportsWholeWord(k, w);
    var all := Reversed(a) + Reversed(b) + Reversed(c);
    AllBits(r, code, a, b, c);
    assert ReportedCode(k, w, false) == FromBits(all);
    LowOfFromBits(all);
    ReversedParts(a, b, c);
  }

  lemma AllBits(r: Remote, code: Word, a: seq<bool>, b: seq<bool>, c: seq<bool>)
    requires r.BitCount() <= 64
    requires a == Low(r.preData, r.preDataBits) && b == Low(code, r.bits) && c == Low(r.postData, r.postDataBits)
    ensures |Reversed(a) + Reversed(b) + Reversed(c)| == r.BitCount()
  {
  }

  lemma NothingReversed(w: Word)
    ensures Low(w, 0) == Reversed(Low(w, 0)) == [] && Fits(ZERO, 0)
  {
  }
}
