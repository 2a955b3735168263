/** Factoring the bits that all codes have in common out of them, into pre-data and post-data
    (irrecord.c), and putting them back. */
module Factor {
  import opened Words
  import Sending = Passes

  type Button = Sending.Button

  /** The part of a remote that is rewritten. */
  datatype Profile = Profile(bits: nat, preDataBits: nat, preData: Word, postDataBits: nat, postData: Word,
                             preP: nat, preS: nat, codes: seq<Button>)
  {
    function BitCount(): nat { preDataBits + bits + postDataBits }
  }

  /** The code of a button and the further codes of its sequence. */
  function WordsOf(b: Button): (ws: seq<Word>)
    ensures |ws| == |b.next| + 1
  {
    [b.code] + b.next
  }

  /** What is sent for the data word `w`: pre-data, data and post-data. */
  function WholeWord(p: Profile, w: Word): seq<bool>
    requires p.BitCount() <= 64
  {
    Low(p.preData, p.preDataBits) + Low(w, p.bits) + Low(p.postData, p.postDataBits)
  }

  /** The codes whose bits are compared: of the first button only its first code. */
  function Compared(codes: seq<Button>): seq<Word> {
    if codes == [] then []
    else if |codes| == 1 then [codes[0].code]
    else Compared(codes[..|codes| - 1]) + WordsOf(codes[|codes| - 1])
  }

  /** The positions in which all words are alike. */
  function Common(ws: seq<Word>): Word {
    seq(64, j requires 0 <= j < 64 => forall i :: 0 <= i < |ws| ==> ws[i][j] == ws[0][j])
  }

  function Leading(bs: seq<bool>): (n: nat)
    ensures n <= |bs| && (forall j :: 0 <= j < n ==> bs[j]) && (n < |bs| ==> !bs[n])
  {
    if bs == [] || !bs[0] then 0 else 1 + Leading(bs[1..])
  }

  function Trailing(bs: seq<bool>): (n: nat)
    ensures n <= |bs| && (forall j :: |bs| - n <= j < |bs| ==> bs[j]) && (n < |bs| ==> !bs[|bs| - 1 - n])
  {
    if bs == [] || !bs[|bs| - 1] then 0 else 1 + Trailing(bs[..|bs| - 1])
  }

  /** Only whole bytes are taken, unless whole bytes are left. */
  function Rounded(count: int, bits: int): (n: int)
    ensures count > 0 ==> 0 <= n <= count
    ensures count <= 0 ==> n <= 0
  {
    if count > 0 && count % 8 != 0 && (bits - count) % 8 != 0 then count - count % 8 else count
  }

  /** All common bits are taken if they are whole bytes, or if whole bytes are left; otherwise as many
      whole bytes as there are in them. */
  lemma WholeBytesAreTaken(count: nat, bits: int)
    ensures var n := Rounded(count, bits);
            && (n == count <==> count % 8 == 0 || (bits - count) % 8 == 0)
            && (n != count ==> n % 8 == 0 && n <= count < n + 8)
  {
  }

  function Clear(w: Word, lo: nat, hi: nat): Word {
    seq(64, j requires 0 <= j < 64 => w[j] && !(lo <= j < hi))
  }

  function Clearing(lo: nat, hi: nat): Word -> Word {
    w => Clear(w, lo, hi)
  }

  function Shifting(count: nat): Word -> Word
    requires count <= 64
  {
    w => ShiftRight(w, count)
  }

  function MapButton(b: Button, f: Word -> Word): (c: Button)
    ensures |c.next| == |b.next|
  {
    Sending.Button(f(b.code), seq(|b.next|, i requires 0 <= i < |b.next| => f(b.next[i])))
  }

  function MapAll(codes: seq<Button>, f: Word -> Word): (after: seq<Button>)
    ensures |after| == |codes|
  {
    seq(|codes|, i requires 0 <= i < |codes| => MapButton(codes[i], f))
  }

  /** How many bits `get_pre_data` takes off the front. */
  function PreCount(p: Profile): int {
    Rounded(Leading(Common(Compared(p.codes))) - (64 - p.bits), p.bits)
  }

  function PostCount(p: Profile): int {
    Rounded(Trailing(Common(Compared(p.codes))), p.bits)
  }

  /** The bits that are taken off, if there is anything to compare. */
  function PreTaken(p: Profile): nat
    requires p.bits <= 64
  {
    if p.bits == 0 || |p.codes| < 2 || PreCount(p) <= 0 then 0 else PreCount(p)
  }

  function PostTaken(p: Profile): nat {
    if p.bits == 0 || |p.codes| < 2 || PostCount(p) <= 0 then 0 else PostCount(p)
  }

  function LastCompared(codes: seq<Button>): Word
    requires codes != []
  {
    var b := codes[|codes| - 1];
    if |codes| == 1 then b.code else WordsOf(b)[|b.next|]
  }

  /** `get_pre_data` */
  function FactorPre(p: Profile): Profile
    requires p.bits <= 64
  {
    var count := PreCount(p);
    if p.bits == 0 || |p.codes| < 2 || count <= 0 then p
    else
      var hi := 64 - p.bits + count;
      p.(bits := p.bits - count, preDataBits := count,
         preData := FromBits(LastCompared(p.codes)[64 - p.bits..hi]),
         codes := MapAll(p.codes, Clearing(64 - p.bits, hi)))
  }

  /** There is something to compare, and not all of it is alike. */
  predicate Differing(p: Profile) {
    p.bits > 0 && |p.codes| >= 2 ==> Trailing(Common(Compared(p.codes))) <= p.bits
  }

  /** `get_post_data` */
  function FactorPost(p: Profile): Profile
    requires p.bits <= 64 && Differing(p)
  {
    var count := PostCount(p);
    if p.bits == 0 || |p.codes| < 2 || count <= 0 then p
    else p.(bits := p.bits - count, postDataBits := count,
            postData := FromBits(Low(LastCompared(p.codes), count)),
            codes := MapAll(p.codes, Shifting(count)))
  }

  // ----- what is sent stays the same -----

  /** Every code of every button still stands for the same word on the air. */
  predicate Keeps(p: Profile, q: Profile)
    requires p.BitCount() <= 64 && q.BitCount() <= 64
  {
    && |q.codes| == |p.codes|
    && forall i :: 0 <= i < |p.codes| ==> KeepsButton(p, q, p.codes[i], q.codes[i])
  }

  predicate KeepsButton(p: Profile, q: Profile, b: Button, c: Button)
    requires p.BitCount() <= 64 && q.BitCount() <= 64
  {
    && |c.next| == |b.next|
    && forall k :: 0 <= k <= |b.next| ==> WholeWord(q, WordsOf(c)[k]) == WholeWord(p, WordsOf(b)[k])
  }

  /** `w` and `v` are alike from bit position `lo` up to `hi`, counted from the front. */
  predicate Alike(w: Word, v: Word, lo: nat, hi: nat)
    requires lo <= hi <= 64
  {
    w[lo..hi] == v[lo..hi]
  }

  /** The further codes of the first button, which were not compared, have the bits taken off. */
  predicate FirstAgrees(p: Profile, lo: nat, hi: nat)
    requires |p.codes| > 0 && lo <= hi <= 64
  {
    forall k :: 0 <= k < |p.codes[0].next| ==> Alike(p.codes[0].next[k], LastCompared(p.codes), lo, hi)
  }

  lemma {:induction false} ComparedEnds(codes: seq<Button>)
    requires codes != []
    ensures Compared(codes) != [] && Compared(codes)[0] == codes[0].code
    ensures LastCompared(codes) == Compared(codes)[|Compared(codes)| - 1]
    decreases |codes|
  {
    if |codes| > 1 {
      ComparedEnds(codes[..|codes| - 1]);
    }
  }

  lemma {:induction false} AllCompared(codes: seq<Button>, i: nat, k: nat)
    requires i < |codes| && k <= |codes[i].next| && (i == 0 ==> k == 0)
    ensures WordsOf(codes[i])[k] in Compared(codes)
    decreases |codes|
  {
    if |codes| > 1 {
      if i < |codes| - 1 {
        AllCompared(codes[..|codes| - 1], i, k);
      } else {
        assert WordsOf(codes[i])[k] in WordsOf(codes[i]);
      }
    }
  }

  lemma ComparedAlike(codes: seq<Button>, i: nat, k: nat, lo: nat, hi: nat)
    requires i < |codes| && k <= |codes[i].next| && (i == 0 ==> k == 0)
    requires lo <= hi <= 64 && forall j :: lo <= j < hi ==> Common(Compared(codes))[j]
    ensures Alike(WordsOf(codes[i])[k], LastCompared(codes), lo, hi)
  {
    hide Compared, LastCompared, WordsOf;
    var ws, w := Compared(codes), WordsOf(codes[i])[k];
    ComparedEnds(codes);
    AllCompared(codes, i, k);
    var m :| 0 <= m < |ws| && ws[m] == w;
    forall j | lo <= j < hi
      ensures w[j] == LastCompared(codes)[j]
    {
      assert Common(ws)[j];
    }
  }

  lemma MapWord(b: Button, f: Word -> Word, k: nat)
    requires k <= |b.next|
    ensures WordsOf(MapButton(b, f))[k] == f(WordsOf(b)[k])
  {
  }

  /** If every word is kept exactly when it is alike to the last one in the bits taken, the whole
      profile is kept exactly when the first button's sequence is. */
  lemma KeptIfFirstAgrees(p: Profile, q: Profile, f: Word -> Word, lo: nat, hi: nat)
    requires p.BitCount() <= 64 && q.BitCount() <= 64 && |p.codes| >= 2 && lo <= hi <= 64
    requires q.codes == MapAll(p.codes, f)
    requires forall j :: lo <= j < hi ==> Common(Compared(p.codes))[j]
    requires forall w: Word :: WholeWord(q, f(w)) == WholeWord(p, w) <==> Alike(w, LastCompared(p.codes), lo, hi)
    ensures Keeps(p, q) <==> FirstAgrees(p, lo, hi)
  {
    hide Common, Compared, LastCompared, WholeWord, Alike, WordsOf;
    var last := LastCompared(p.codes);
    forall i, k | 0 <= i < |p.codes| && 0 <= k <= |p.codes[i].next|
      ensures WordsOf(q.codes[i])[k] == f(WordsOf(p.codes[i])[k])
      ensures (i == 0 ==> k == 0) ==> Alike(WordsOf(p.codes[i])[k], last, lo, hi)
    {
      MapWord(p.codes[i], f, k);
      if i == 0 ==> k == 0 { ComparedAlike(p.codes, i, k, lo, hi); }
    }
    var b := p.codes[0];
    forall k | 0 <= k < |b.next|
      ensures WordsOf(b)[k + 1] == b.next[k]
    {
      NextWord(b, k);
    }
    if Keeps(p, q) {
      assert KeepsButton(p, q, b, q.codes[0]);
      forall k | 0 <= k < |b.next|
        ensures Alike(b.next[k], last, lo, hi)
      {
        assert WholeWord(q, WordsOf(q.codes[0])[k + 1]) == WholeWord(p, WordsOf(b)[k + 1]);
      }
    }
    if FirstAgrees(p, lo, hi) {
      forall k | 0 <= k <= |b.next|
        ensures Alike(WordsOf(b)[k], last, lo, hi)
      {
        if k > 0 { assert WordsOf(b)[k - 1 + 1] == b.next[k - 1]; }
      }
    }
  }

  lemma NextWord(b: Button, k: nat)
    requires k < |b.next|
    ensures WordsOf(b)[k + 1] == b.next[k]
  {
  }

  /** Two lists of the same length between common parts. */
  lemma SameMiddle(a: seq<bool>, b: seq<bool>, pre: seq<bool>, rest: seq<bool>)
    requires |a| == |b|
    ensures pre + a + rest == pre + b + rest <==> a == b
  {
    var n := |pre|;
    assert (pre + a + rest)[n..n + |a|] == a && (pre + b + rest)[n..n + |a|] == b;
  }

  lemma SameFront(a: seq<bool>, b: seq<bool>, rest: seq<bool>)
    requires |a| == |b|
    ensures b + rest + [] == [] + (a + rest) + [] <==> a == b
  {
    SameMiddle(a, b, [], rest);
    assert b + rest + [] == [] + b + rest && [] + (a + rest) + [] == [] + a + rest;
  }

  lemma SameBack(a: seq<bool>, b: seq<bool>, pre: seq<bool>, mid: seq<bool>)
    requires |a| == |b|
    ensures pre + mid + b == pre + (mid + a) + [] <==> a == b
  {
    SameMiddle(a, b, pre + mid, []);
    assert pre + mid + b == pre + mid + b + [] && pre + (mid + a) + [] == pre + mid + a + [];
  }

  lemma ClearedBits(w: Word, lo: nat, hi: nat, n: nat)
    requires lo <= hi <= 64 && n == 64 - hi
    ensures Low(Clear(w, lo, hi), n) == w[hi..64]
    ensures Fits(w, 64 - lo) ==> Fits(Clear(w, lo, hi), n)
  {
  }

  lemma LowParts(w: Word, n: nat, mid: nat)
    requires n <= 64 && 64 - n <= mid <= 64
    ensures Low(w, n) == w[64 - n..mid] + w[mid..64] && Low(w, 0) == []
  {
  }

  lemma ClearedWord(p: Profile, last: Word, w: Word, count: nat)
    requires p.preDataBits == 0 && p.postDataBits == 0 && count <= p.bits <= 64
    ensures var lo := 64 - p.bits;
            var hi := lo + count;
            var q := p.(bits := p.bits - count, preDataBits := count, preData := FromBits(last[lo..hi]));
            && (WholeWord(q, Clear(w, lo, hi)) == WholeWord(p, w) <==> Alike(w, last, lo, hi))
            && (Fits(w, p.bits) ==> Fits(Clear(w, lo, hi), q.bits))
  {
    hide Clear, Fits, FromBits, Low;
    var lo := 64 - p.bits;
    var hi := lo + count;
    LowOfFromBits(last[lo..hi]);
    ClearedBits(w, lo, hi, p.bits - count);
    LowParts(w, p.bits, hi);
    LowParts(p.preData, 0, 64);
    LowParts(p.postData, 0, 64);
    SameFront(w[lo..hi], last[lo..hi], w[hi..64]);
  }

  lemma ShiftedBits(w: Word, count: nat, n: nat)
    requires count <= n <= 64
    ensures Low(ShiftRight(w, count), n - count) == w[64 - n..64 - count]
    ensures Fits(w, n) ==> Fits(ShiftRight(w, count), n - count)
  {
  }

  lemma LowAtEnd(w: Word, n: nat)
    requires n <= 64
    ensures Low(w, n) == w[64 - n..64]
  {
  }

  lemma ShiftedWord(p: Profile, last: Word, w: Word, count: nat)
    requires p.postDataBits == 0 && count <= p.bits && p.BitCount() <= 64
    ensures var q := p.(bits := p.bits - count, postDataBits := count, postData := FromBits(Low(last, count)));
            && (WholeWord(q, ShiftRight(w, count)) == WholeWord(p, w) <==> Alike(w, last, 64 - count, 64))
            && (Fits(w, p.bits) ==> Fits(ShiftRight(w, count), q.bits))
  {
    hide ShiftRight, Fits, FromBits, Low;
    var lo, mid := 64 - p.bits, 64 - count;
    LowAtEnd(last, count);
    LowOfFromBits(last[mid..64]);
    ShiftedBits(w, count, p.bits);
    LowParts(w, p.bits, mid);
    LowParts(p.postData, 0, 64);
    SameBack(w[mid..64], last[mid..64], Low(p.preData, p.preDataBits), w[lo..mid]);
  }

  /** `get_pre_data` keeps what is sent exactly if the further codes of the first button have the
      bits it takes off. */
  lemma FactorPreKeeps(p: Profile)
    requires p.bits <= 64 && p.preDataBits == 0 && p.postDataBits == 0 && p.codes != []
    ensures PreTaken(p) <= p.bits
    ensures var q := FactorPre(p);
            && q.BitCount() == p.BitCount()
            && q.bits == p.bits - PreTaken(p) && q.preDataBits == PreTaken(p)
            && (Keeps(p, q) <==> FirstAgrees(p, 64 - p.bits, 64 - p.bits + PreTaken(p)))
            && (AllFit(p) ==> AllFit(q))
  {
    hide Common, Compared, LastCompared, Keeps, FirstAgrees, Alike, Clear, WholeWord, Leading;
    var q := FactorPre(p);
    if q == p {
      Unchanged(p);
      NothingToAgree(p, 64 - p.bits);
    } else {
      var last, lo, hi := LastCompared(p.codes), 64 - p.bits, 64 - p.bits + q.preDataBits;
      var f := Clearing(lo, hi);
      forall w: Word
        ensures WholeWord(q, f(w)) == WholeWord(p, w) <==> Alike(w, last, lo, hi)
        ensures Fits(w, p.bits) ==> Fits(f(w), q.bits)
      {
        ClearedWord(p, last, w, q.preDataBits);
        WholeWordOf(q, p.(bits := q.bits, preDataBits := q.preDataBits, preData := q.preData), f(w));
      }
      KeptIfFirstAgrees(p, q, f, lo, hi);
      MapFits(p, q, f);
    }
  }

  /** `get_post_data` keeps what is sent exactly if the further codes of the first button end in
      the bits it takes off. */
  lemma FactorPostKeeps(p: Profile)
    requires p.BitCount() <= 64 && p.postDataBits == 0 && p.codes != [] && Differing(p)
    ensures PostTaken(p) <= p.bits
    ensures var q := FactorPost(p);
            && q.BitCount() == p.BitCount()
            && q.bits == p.bits - PostTaken(p) && q.postDataBits == PostTaken(p)
            && (Keeps(p, q) <==> FirstAgrees(p, 64 - PostTaken(p), 64))
            && (AllFit(p) ==> AllFit(q))
  {
    hide Common, Compared, LastCompared, Keeps, FirstAgrees, Alike, ShiftRight, WholeWord, Trailing;
    var q := FactorPost(p);
    if q == p {
      Unchanged(p);
      NothingToAgree(p, 64);
    } else {
      var last, count := LastCompared(p.codes), q.postDataBits;
      var f := Shifting(count);
      forall w: Word
        ensures WholeWord(q, f(w)) == WholeWord(p, w) <==> Alike(w, last, 64 - count, 64)
        ensures Fits(w, p.bits) ==> Fits(f(w), q.bits)
      {
        ShiftedWord(p, last, w, count);
        WholeWordOf(q, p.(bits := q.bits, postDataBits := count, postData := q.postData), f(w));
      }
      KeptIfFirstAgrees(p, q, f, 64 - count, 64);
      MapFits(p, q, f);
    }
  }

  predicate WordsFit(codes: seq<Button>, bits: nat)
    requires bits <= 64
  {
    forall i, k :: 0 <= i < |codes| && 0 <= k <= |codes[i].next| ==> Fits(WordsOf(codes[i])[k], bits)
  }

  predicate AllFit(p: Profile)
    requires p.bits <= 64
  {
    WordsFit(p.codes, p.bits)
  }

  lemma Unchanged(p: Profile)
    requires p.BitCount() <= 64
    ensures Keeps(p, p)
  {
  }

  lemma NothingToAgree(p: Profile, lo: nat)
    requires p.codes != [] && lo <= 64
    ensures FirstAgrees(p, lo, lo)
  {
  }

  lemma WholeWordOf(q: Profile, u: Profile, w: Word)
    requires q.BitCount() <= 64 && u == q.(codes := u.codes)
    ensures WholeWord(q, w) == WholeWord(u, w)
  {
  }

  lemma MapFits(p: Profile, q: Profile, f: Word -> Word)
    requires p.bits <= 64 && q.bits <= 64 && q.codes == MapAll(p.codes, f)
    requires forall w: Word :: Fits(w, p.bits) ==> Fits(f(w), q.bits)
    ensures AllFit(p) ==> AllFit(q)
  {
    hide WordsOf, Fits;
    forall i, k | 0 <= i < |p.codes| && 0 <= k <= |p.codes[i].next|
      ensures WordsOf(q.codes[i])[k] == f(WordsOf(p.codes[i])[k])
    {
      MapWord(p.codes[i], f, k);
    }
  }

  // ----- one after the other -----

  lemma ComparedMaps(codes: seq<Button>, f: Word -> Word)
    ensures |Compared(MapAll(codes, f))| == |Compared(codes)|
    ensures forall i :: 0 <= i < |Compared(codes)| ==> Compared(MapAll(codes, f))[i] == f(Compared(codes)[i])
    decreases |codes|
  {
    if |codes| > 1 {
      var init, b := codes[..|codes| - 1], codes[|codes| - 1];
      ComparedMaps(init, f);
      assert MapAll(codes, f)[..|codes| - 1] == MapAll(init, f);
      forall k | 0 <= k <= |b.next|
        ensures WordsOf(MapButton(b, f))[k] == f(WordsOf(b)[k])
      {
        MapWord(b, f, k);
      }
    }
  }

  lemma {:induction false} ComparedFit(codes: seq<Button>, bits: nat)
    requires bits <= 64 && WordsFit(codes, bits)
    ensures forall i :: 0 <= i < |Compared(codes)| ==> Fits(Compared(codes)[i], bits)
    decreases |codes|
  {
    hide Fits;
    if |codes| == 1 {
      assert Compared(codes) == [WordsOf(codes[0])[0]];
    } else if |codes| > 1 {
      ComparedFit(codes[..|codes| - 1], bits);
    }
  }

  /** The bits above those in use are all 0. */
  lemma UnusedBitsAgree(p: Profile)
    requires p.bits <= 64 && AllFit(p)
    ensures forall j :: 0 <= j < 64 - p.bits ==> Common(Compared(p.codes))[j]
  {
    hide Compared;
    var ws := Compared(p.codes);
    ComparedFit(p.codes, p.bits);
    forall i, j | 0 <= i < |ws| && 0 <= j < 64 - p.bits
      ensures !ws[i][j]
    {
      assert ws[i][j] == Mask(ws[i], p.bits)[j];
    }
  }

  lemma CommonAfterClearing(ws: seq<Word>, vs: seq<Word>, lo: nat, hi: nat, j: nat)
    requires |vs| == |ws| && hi <= j < 64 && forall i :: 0 <= i < |ws| ==> vs[i] == Clear(ws[i], lo, hi)
    ensures Common(vs)[j] == Common(ws)[j]
  {
    forall i | 0 <= i < |ws|
      ensures vs[i][j] == ws[i][j]
    {
    }
  }

  /** Once the front has been taken off, the codes are either used up or not all alike. */
  lemma FactorPreLeavesDiffering(p: Profile)
    requires p.bits <= 64 && AllFit(p)
    ensures Differing(FactorPre(p))
  {
    hide Compared, LastCompared, Common, Clear;
    var q, ws := FactorPre(p), Compared(p.codes);
    UnusedBitsAgree(p);
    var n := Leading(Common(ws));
    if q.bits > 0 && |q.codes| >= 2 {
      assert n < 64;
      if q != p {
        var lo, hi := 64 - p.bits, 64 - q.bits;
        ComparedMaps(p.codes, Clearing(lo, hi));
        CommonAfterClearing(ws, Compared(q.codes), lo, hi, n);
      }
    }
  }

  /** What is sent is the same after `get_pre_data` and `get_post_data`, for all codes of all
      buttons, if the first button is a single code. */
  lemma FactoringKeepsWords(p: Profile)
    requires p.bits <= 64 && p.preDataBits == 0 && p.postDataBits == 0 && AllFit(p)
    requires p.codes != [] && p.codes[0].next == []
    ensures Differing(FactorPre(p))
    ensures var q := FactorPost(FactorPre(p));
            q.BitCount() == p.BitCount() && Keeps(p, q) && AllFit(q)
  {
    hide Keeps, AllFit;
    FactorPreLeavesDiffering(p);
    FactorPreKeeps(p);
    var m := FactorPre(p);
    FactorPostKeeps(m);
    KeepsBoth(p, m, FactorPost(m));
  }

  lemma KeepsBoth(p: Profile, m: Profile, q: Profile)
    requires p.BitCount() <= 64 && m.BitCount() <= 64 && q.BitCount() <= 64
    requires Keeps(p, m) && Keeps(m, q)
    ensures Keeps(p, q)
  {
    hide WholeWord, WordsOf;
    forall i | 0 <= i < |p.codes|
      ensures KeepsButton(p, q, p.codes[i], q.codes[i])
    {
      assert KeepsButton(p, m, p.codes[i], m.codes[i]) && KeepsButton(m, q, m.codes[i], q.codes[i]);
    }
  }

  /** A sequence on the first button can lose bits: here all eight bits of the two codes compared
      are alike and become pre-data, and the second code of the first button, which differs,
      becomes the same as the first. */
  lemma SequenceOfFirstButtonIsLost()
    ensures var p := Profile(8, 0, ZERO, 0, ZERO, 0, 0,
                             [Sending.Button(ZERO, [FromBits([true])]), Sending.Button(ZERO, [])]);
            AllFit(p) && !Keeps(p, FactorPre(p))
  {
    hide Keeps;
    var w := FromBits([true]);
    var p := Profile(8, 0, ZERO, 0, ZERO, 0, 0, [Sending.Button(ZERO, [w]), Sending.Button(ZERO, [])]);
    var ws := Compared(p.codes);
    ComparedEnds(p.codes);
    assert p.codes[..1] == [Sending.Button(ZERO, [w])];
    assert ws == [ZERO, ZERO];
    assert Common(ws) == Ones(64);
    assert Leading(Common(ws)) == 64;
    LowOfFromBits([true]);
    assert Fits(ZERO, 8);
    assert Fits(w, 8);
    FactorPreKeeps(p);
    assert FactorPre(p).preDataBits == 8;
    assert w[56..64][7] != LastCompared(p.codes)[56..64][7];
    assert !Alike(p.codes[0].next[0], LastCompared(p.codes), 56, 64);
  }

  // ----- and back -----

  function Prefixed(pre: Word, bits: nat, w: Word): Word
    requires bits <= 64
  {
    seq(64, j requires 0 <= j < 64 => w[j] || (j < 64 - bits && pre[j + bits]))
  }

  function Prefixing(pre: Word, bits: nat): Word -> Word
    requires bits <= 64
  {
    w => Prefixed(pre, bits, w)
  }

  function Postfixed(post: Word, bits: nat, w: Word): Word
    requires bits <= 64
  {
    seq(64, j requires 0 <= j < 64 => (j < 64 - bits && w[j + bits]) || post[j])
  }

  function Postfixing(post: Word, bits: nat): Word -> Word
    requires bits <= 64
  {
    w => Postfixed(post, bits, w)
  }

  /** `remove_pre_data` */
  function RestorePre(p: Profile): Profile
    requires p.bits <= 64
  {
    if p.preDataBits == 0 || p.preP != 0 || p.preS != 0 then p
    else p.(bits := p.bits + p.preDataBits, preDataBits := 0, preData := ZERO,
            codes := MapAll(p.codes, Prefixing(p.preData, p.bits)))
  }

  /** `remove_post_data` */
  function RestorePost(p: Profile): Profile
    requires p.postDataBits <= 64
  {
    if p.postDataBits == 0 then p
    else p.(bits := p.bits + p.postDataBits, postDataBits := 0, postData := ZERO,
            codes := MapAll(p.codes, Postfixing(p.postData, p.postDataBits)))
  }

  /** Every word of every button is kept if the change keeps every word that fits. */
  lemma KeptIfAllFit(p: Profile, q: Profile, f: Word -> Word)
    requires p.BitCount() <= 64 && q.BitCount() <= 64 && q.codes == MapAll(p.codes, f) && AllFit(p)
    requires forall w: Word :: Fits(w, p.bits) ==> WholeWord(q, f(w)) == WholeWord(p, w) && Fits(f(w), q.bits)
    ensures Keeps(p, q) && AllFit(q)
  {
    hide WholeWord, WordsOf, Fits;
    forall i, k | 0 <= i < |p.codes| && 0 <= k <= |p.codes[i].next|
      ensures WordsOf(q.codes[i])[k] == f(WordsOf(p.codes[i])[k])
    {
      MapWord(p.codes[i], f, k);
    }
  }

  lemma PrefixedJoins(a: seq<bool>, b: seq<bool>)
    requires |a| + |b| <= 64
    ensures Prefixed(FromBits(a), |b|, FromBits(b)) == FromBits(a + b)
  {
  }

  lemma PostfixedJoins(a: seq<bool>, b: seq<bool>)
    requires |a| + |b| <= 64
    ensures Postfixed(FromBits(b), |b|, FromBits(a)) == FromBits(a + b)
  {
  }

  lemma PrefixedWord(p: Profile, w: Word)
    requires p.BitCount() <= 64 && Fits(p.preData, p.preDataBits) && Fits(w, p.bits)
    ensures var q := p.(bits := p.bits + p.preDataBits, preDataBits := 0, preData := ZERO);
            && WholeWord(q, Prefixed(p.preData, p.bits, w)) == WholeWord(p, w)
            && Fits(Prefixed(p.preData, p.bits, w), q.bits)
  {
    hide Prefixed, FromBits, Low;
    var a, b := Low(p.preData, p.preDataBits), Low(w, p.bits);
    assert |a| == p.preDataBits && |b| == p.bits by { LowLength(p.preData, p.preDataBits); LowLength(w, p.bits); }
    PrefixedJoins(a, b);
    LowOfFromBits(a + b);
    LowLength(ZERO, 0);
  }

  lemma LowLength(w: Word, n: nat)
    requires n <= 64
    ensures |Low(w, n)| == n
  {
  }

  lemma PostfixedWord(p: Profile, w: Word)
    requires p.BitCount() <= 64 && Fits(p.postData, p.postDataBits) && Fits(w, p.bits)
    ensures var q := p.(bits := p.bits + p.postDataBits, postDataBits := 0, postData := ZERO);
            && WholeWord(q, Postfixed(p.postData, p.postDataBits, w)) == WholeWord(p, w)
            && Fits(Postfixed(p.postData, p.postDataBits, w), q.bits)
  {
    hide Postfixed, FromBits, Low;
    var a, b := Low(w, p.bits), Low(p.postData, p.postDataBits);
    assert |a| == p.bits && |b| == p.postDataBits by { LowLength(p.postData, p.postDataBits); LowLength(w, p.bits); }
    PostfixedJoins(a, b);
    LowOfFromBits(a + b);
    LowLength(ZERO, 0);
    SeqJoin(Low(p.preData, p.preDataBits), a, b);
  }

  lemma SeqJoin<T>(a: seq<T>, b: seq<T>, c: seq<T>)
    ensures a + (b + c) == a + b + c
  {
  }

  lemma RestorePreKeeps(p: Profile)
    requires p.BitCount() <= 64 && Fits(p.preData, p.preDataBits) && AllFit(p)
    ensures var q := RestorePre(p); q.BitCount() == p.BitCount() && Keeps(p, q) && AllFit(q)
  {
    hide Keeps, AllFit, WholeWord, Fits;
    var q := RestorePre(p);
    if q == p {
      Unchanged(p);
    } else {
      var f := Prefixing(p.preData, p.bits);
      forall w: Word | Fits(w, p.bits)
        ensures WholeWord(q, f(w)) == WholeWord(p, w) && Fits(f(w), q.bits)
      {
        PrefixedWord(p, w);
        WholeWordOf(q, p.(bits := p.bits + p.preDataBits, preDataBits := 0, preData := ZERO), f(w));
      }
      KeptIfAllFit(p, q, f);
    }
  }

  lemma RestorePostKeeps(p: Profile)
    requires p.BitCount() <= 64 && Fits(p.postData, p.postDataBits) && AllFit(p)
    ensures var q := RestorePost(p); q.BitCount() == p.BitCount() && Keeps(p, q) && AllFit(q)
  {
    hide Keeps, AllFit, WholeWord, Fits;
    var q := RestorePost(p);
    if q == p {
      Unchanged(p);
    } else {
      var f := Postfixing(p.postData, p.postDataBits);
      forall w: Word | Fits(w, p.bits)
        ensures WholeWord(q, f(w)) == WholeWord(p, w) && Fits(f(w), q.bits)
      {
        PostfixedWord(p, w);
        WholeWordOf(q, p.(bits := p.bits + p.postDataBits, postDataBits := 0, postData := ZERO), f(w));
      }
      KeptIfAllFit(p, q, f);
    }
  }

  /** Words that fit and stand for the same word on the air, without pre-data and post-data, are equal. */
  lemma KeptCodesEqual(p: Profile, q: Profile)
    requires p.BitCount() <= 64 && q.BitCount() <= 64 && Keeps(p, q) && AllFit(p) && AllFit(q)
    requires p.preDataBits == q.preDataBits == 0 && p.postDataBits == q.postDataBits == 0 && p.bits == q.bits
    ensures q.codes == p.codes
  {
    forall i | 0 <= i < |p.codes|
      ensures q.codes[i] == p.codes[i]
    {
      var b, c := p.codes[i], q.codes[i];
      assert KeepsButton(p, q, b, c);
      forall k | 0 <= k <= |b.next|
        ensures WordsOf(c)[k] == WordsOf(b)[k]
      {
        assert WholeWord(p, WordsOf(b)[k]) == Low(WordsOf(b)[k], p.bits);
        assert WholeWord(q, WordsOf(c)[k]) == Low(WordsOf(c)[k], p.bits);
        assert Fits(WordsOf(b)[k], p.bits) && Fits(WordsOf(c)[k], p.bits);
      }
      assert c.code == WordsOf(c)[0] && b.code == WordsOf(b)[0];
      forall k | 0 <= k < |b.next|
        ensures c.next[k] == b.next[k]
      {
        NextWord(b, k);
        NextWord(c, k);
      }
      assert c.next == b.next;
    }
    assert q.codes == p.codes;
  }

  lemma FactoredFit(p: Profile)
    requires p.bits <= 64 && Differing(FactorPre(p))
    requires p.preDataBits == 0 && p.postDataBits == 0 && p.preData == ZERO && p.postData == ZERO
    ensures var q := FactorPost(FactorPre(p)); Fits(q.preData, q.preDataBits) && Fits(q.postData, q.postDataBits)
  {
    hide Common, Compared, LastCompared, MapAll;
    var m := FactorPre(p);
    if m.preDataBits > 0 { LowOfFromBits(LastCompared(p.codes)[64 - p.bits..64 - p.bits + m.preDataBits]); }
    var q := FactorPost(m);
    if q.postDataBits > 0 { LowOfFromBits(Low(LastCompared(m.codes), q.postDataBits)); }
  }

  /** `remove_pre_data` and `remove_post_data` undo `get_pre_data` and `get_post_data`. */
  lemma RestoreUndoesFactor(p: Profile)
    requires p.bits <= 64 && p.preDataBits == 0 && p.postDataBits == 0 && AllFit(p)
    requires p.preData == ZERO && p.postData == ZERO && p.preP == 0 && p.preS == 0
    requires p.codes != [] && p.codes[0].next == []
    ensures Differing(FactorPre(p)) && FactorPost(FactorPre(p)).BitCount() <= 64
    ensures RestorePost(RestorePre(FactorPost(FactorPre(p)))) == p
  {
    hide Keeps, AllFit, Differing, Fits;
    FactoringKeepsWords(p);
    FactoredFit(p);
    var q := FactorPost(FactorPre(p));
    FactorKeepsRest(p);
    RestorePreKeeps(q);
    var u := RestorePre(q);
    RestorePostKeeps(u);
    var v := RestorePost(u);
    KeepsBoth(p, q, u);
    KeepsBoth(p, u, v);
    KeptCodesEqual(p, v);
  }

  lemma FactorKeepsRest(p: Profile)
    requires p.bits <= 64 && Differing(FactorPre(p))
    requires p.preData == ZERO && p.postData == ZERO && p.preDataBits == 0 && p.postDataBits == 0
    ensures var q := FactorPost(FactorPre(p));
            && q.preP == p.preP && q.preS == p.preS
            && (q.preDataBits == 0 ==> q.preData == ZERO) && (q.postDataBits == 0 ==> q.postData == ZERO)
  {
  }
}
