/** Recognising buttons in a stream of received codes (`get_code` in ir_remote.c). A button is one
    code or a sequence of codes; each keeps its place in the sequence, and on a mismatch falls
    back to the longest beginning of the sequence that still fits. */
module Recogniser {
  import opened Options
  import opened Words
  import opened Remotes

  /** A button (`struct ir_ncode`). `current` counts the codes of the sequence that have been
      seen; 0 stands for the null pointer. */
  datatype NCode = NCode(code: Word, next: seq<Word>, current: nat) {
    function Sequence(): (w: seq<Word>)
      ensures |w| == |next| + 1
    {
      [code] + next
    }

    predicate Valid() {
      current <= |next|
    }
  }

  /** The whole word on the air (`gen_ir_code`), for codes that are not raw. */
  function GenCode(r: Remote, pre: Word, code: Word, post: Word): Word
    requires r.BitCount() <= 64
  {
    FromBits(Low(pre, r.preDataBits) + Low(code, r.bits) + Low(post, r.postDataBits))
  }

  function Or(a: seq<bool>, b: seq<bool>): (c: seq<bool>)
    requires |a| == |b|
    ensures |c| == |a|
  {
    seq(|a|, i requires 0 <= i < |a| => a[i] || b[i])
  }

  /** `match_ir_code`: equal up to ignored bits, with or without the toggle bits. */
  predicate MatchCode(r: Remote, a: Word, b: Word) {
    Or(r.ignoreMask, a) == Or(r.ignoreMask, b)
    || Or(r.ignoreMask, a) == Or(r.ignoreMask, Xor(b, r.toggleBitMask))
  }

  /** The received word `all` is the code `w` of this remote. */
  predicate Matches(r: Remote, w: Word, all: Word)
    requires r.BitCount() <= 64
  {
    MatchCode(r, GenCode(r, r.preData, w, r.postData), all)
  }

  /** The first `k` codes of the sequence end what has been seen, with `all` as the last of them:
      `k - 1` codes repeat at the end of those seen before. */
  predicate Fallback(r: Remote, c: NCode, all: Word, k: nat)
    requires r.BitCount() <= 64 && c.Valid()
  {
    && 1 <= k <= c.current
    && c.Sequence()[..k - 1] == c.Sequence()[c.current - k + 1..c.current]
    && Matches(r, c.Sequence()[k - 1], all)
  }

  function LongestFallback(r: Remote, c: NCode, all: Word, k: nat): (m: nat)
    requires r.BitCount() <= 64 && c.Valid() && k <= c.current
    ensures m <= k && (m > 0 ==> Fallback(r, c, all, m))
    ensures forall i :: m < i <= k ==> !Fallback(r, c, all, i)
  {
    if k == 0 then 0
    else if Fallback(r, c, all, k) then k
    else LongestFallback(r, c, all, k - 1)
  }

  predicate Expected(r: Remote, c: NCode, all: Word)
    requires r.BitCount() <= 64 && c.Valid()
  {
    Matches(r, c.Sequence()[c.current], all)
  }

  predicate Completes(r: Remote, c: NCode, all: Word)
    requires r.BitCount() <= 64 && c.Valid()
  {
    Expected(r, c, all) && c.current == |c.next|
  }

  /** The button after the word `all` was received. */
  function Advance(r: Remote, c: NCode, all: Word): (d: NCode)
    requires r.BitCount() <= 64 && c.Valid()
    ensures d.Valid() && d.code == c.code && d.next == c.next
  {
    c.(current :=
       if Completes(r, c, all) then 0
       else if Expected(r, c, all) then c.current + 1
       else LongestFallback(r, c, all, c.current))
  }

  /** The word plays a part in the sequence of this button. */
  predicate Hits(r: Remote, c: NCode, all: Word)
    requires r.BitCount() <= 64 && c.Valid()
  {
    Expected(r, c, all) || Advance(r, c, all).current > 0
  }

  ghost predicate AllValid(codes: seq<NCode>) {
    forall i :: 0 <= i < |codes| ==> codes[i].Valid()
  }

  /** The button reported: the first that completes, or else the last that was hit. */
  ghost predicate Reported(r: Remote, codes: seq<NCode>, all: Word, found: Option<nat>)
    requires r.BitCount() <= 64 && AllValid(codes)
  {
    if exists i :: 0 <= i < |codes| && Completes(r, codes[i], all) then
      && found.Some? && found.value < |codes| && Completes(r, codes[found.value], all)
      && forall i :: 0 <= i < found.value ==> !Completes(r, codes[i], all)
    else if exists i :: 0 <= i < |codes| && Hits(r, codes[i], all) then
      && found.Some? && found.value < |codes| && Hits(r, codes[found.value], all)
      && forall i :: found.value < i < |codes| ==> !Hits(r, codes[i], all)
    else found == None
  }

  // ----- the code -----

  /** Whether the codes from `start` up to `end` repeat the beginning of the sequence. */
  method RepeatsBeginning(word: seq<Word>, start: nat, end: nat) returns (flag: bool)
    requires start <= end <= |word|
    ensures flag == (word[..end - start] == word[start..end])
  {
    var prev, next := 0, start;
    while next < end
      invariant prev + start == next <= end
      invariant forall i :: 0 <= i < prev ==> word[i] == word[start..end][i]
    {
      if word[prev] != word[next] {
        assert word[..end - start][prev] != word[start..end][prev];
        return false;
      }
      prev, next := prev + 1, next + 1;
    }
    return true;
  }

  /** The search of `get_code` for the longest matching sequence: `start` walks along the
      sequence, and from each place the codes up to `current` are compared with its beginning. */
  method Search(r: Remote, c: NCode, all: Word) returns (k: nat)
    requires r.BitCount() <= 64 && c.Valid()
    ensures k == LongestFallback(r, c, all, c.current)
  {
    hide Matches;
    var word := c.Sequence();
    var start := 1;
    while start <= c.current
      invariant 1 <= start <= c.current + 1
      invariant LongestFallback(r, c, all, c.current) == LongestFallback(r, c, all, c.current - start + 1)
    {
      var flag := RepeatsBeginning(word, start, c.current);
      if flag && Matches(r, word[c.current - start], all) {
        return c.current - start + 1;
      }
      start := start + 1;
    }
    k := 0;
  }

  method Update(r: Remote, c: NCode, all: Word) returns (d: NCode, hit: bool, completed: bool)
    requires r.BitCount() <= 64 && c.Valid()
    ensures d == Advance(r, c, all) && hit == Hits(r, c, all) && completed == Completes(r, c, all)
  {
    d, hit, completed := c, false, false;
    if Matches(r, c.Sequence()[c.current], all) {
      hit := true;
      if c.next != [] {
        d := c.(current := if c.current == |c.next| then 0 else c.current + 1);
      }
      completed := d.current == 0;
    } else if c.next == [] || c.current == 0 {
      d := c.(current := 0);
    } else {
      var k := Search(r, c, all);
      d := c.(current := k);
      hit := k > 0;
    }
  }

  /** The loop of `get_code` over all buttons, which are updated in place. */
  method FindButton(r: Remote, codes: array<NCode>, all: Word) returns (found: Option<nat>)
    requires r.BitCount() <= 64 && AllValid(codes[..])
    modifies codes
    ensures forall i :: 0 <= i < codes.Length ==> codes[i] == Advance(r, old(codes[i]), all)
    ensures Reported(r, old(codes[..]), all, found)
  {
    hide Matches, LongestFallback, Advance, Completes, Hits;
    ghost var before := codes[..];
    var done := false;
    found := None;
    for i := 0 to codes.Length
      invariant forall j :: 0 <= j < i ==> codes[j] == Advance(r, before[j], all)
      invariant forall j :: i <= j < codes.Length ==> codes[j] == before[j]
      invariant done ==>
        && found.Some? && found.value < i && Completes(r, before[found.value], all)
        && forall j :: 0 <= j < found.value ==> !Completes(r, before[j], all)
      invariant !done ==> forall j :: 0 <= j < i ==> !Completes(r, before[j], all)
      invariant !done && found.Some? ==>
        && found.value < i && Hits(r, before[found.value], all)
        && forall j :: found.value < j < i ==> !Hits(r, before[j], all)
      invariant !done && found.None? ==> forall j :: 0 <= j < i ==> !Hits(r, before[j], all)
    {
      var d, hit, completed := Update(r, codes[i], all);
      codes[i] := d;
      if hit && !done {
        found := Some(i);
        done := completed;
      }
      CompletionHits(r, before[i], all);
    }
  }

  lemma CompletionHits(r: Remote, c: NCode, all: Word)
    requires r.BitCount() <= 64 && c.Valid()
    ensures Completes(r, c, all) ==> Hits(r, c, all)
  {
  }

  // ----- it is a Knuth-Morris-Pratt automaton -----

  predicate IsSuffix<T(==)>(s: seq<T>, h: seq<T>) {
    |s| <= |h| && h[|h| - |s|..] == s
  }

  /** `k` is the length of the longest proper prefix of `w` that ends `h`. */
  ghost predicate LongestPrefix(w: seq<Word>, h: seq<Word>, k: nat) {
    && k < |w| && IsSuffix(w[..k], h)
    && forall m :: k < m < |w| ==> !IsSuffix(w[..m], h)
  }

  /** No masks, and codes that fit: a word received is a code exactly if it is equal to it. */
  predicate Plain(r: Remote) {
    r.BitCount() <= 64 && r.ignoreMask == ZERO && r.toggleBitMask == ZERO
  }

  predicate AllFit(r: Remote, w: seq<Word>)
    requires r.BitCount() <= 64
  {
    forall i :: 0 <= i < |w| ==> Fits(w[i], r.bits)
  }

  function AsReceived(r: Remote, code: Word): Word
    requires r.BitCount() <= 64
  {
    GenCode(r, r.preData, code, r.postData)
  }

  lemma MatchesExactly(r: Remote, w: Word, code: Word)
    requires Plain(r) && Fits(w, r.bits) && Fits(code, r.bits)
    ensures Matches(r, w, AsReceived(r, code)) <==> w == code
  {
    var a, b := AsReceived(r, w), AsReceived(r, code);
    assert forall x: Word :: Or(ZERO, x) == x;
    assert forall x: Word :: Xor(x, ZERO) == x;
    assert a[64 - r.postDataBits - r.bits..64 - r.postDataBits] == Low(w, r.bits);
    assert b[64 - r.postDataBits - r.bits..64 - r.postDataBits] == Low(code, r.bits);
  }

  lemma SuffixInit<T>(s: seq<T>, h: seq<T>, x: T)
    requires s != []
    ensures IsSuffix(s, h + [x]) <==> s[|s| - 1] == x && IsSuffix(s[..|s| - 1], h)
  {
    var n, t := |s| - 1, h + [x];
    if |s| <= |t| {
      assert t[|t| - |s|..] == h[|h| - n..] + [x];
      assert s == s[..n] + [s[n]];
    }
  }

  /** Two suffixes of one list: the shorter is a suffix of the longer. */
  lemma SuffixOfSuffix<T>(s: seq<T>, t: seq<T>, h: seq<T>)
    requires IsSuffix(t, h) && |s| <= |t|
    ensures IsSuffix(s, h) <==> IsSuffix(s, t)
  {
    assert t[|t| - |s|..] == h[|h| - |s|..];
  }

  /** With `k` codes of the sequence seen, `m` of them (the last being `x`) are a place to be in
      after `x`. */
  predicate Place(w: seq<Word>, k: nat, x: Word, m: nat)
    requires k <= |w|
  {
    1 <= m <= |w| && m <= k + 1 && w[m - 1] == x && w[..m - 1] == w[k - m + 1..k]
  }

  /** The places are exactly the beginnings of the sequence that end the codes seen with `x`. */
  lemma PrefixesAfter(w: seq<Word>, h: seq<Word>, k: nat, x: Word, m: nat)
    requires LongestPrefix(w, h, k) && 1 <= m <= |w|
    ensures IsSuffix(w[..m], h + [x]) <==> Place(w, k, x, m)
  {
    SuffixInit(w[..m], h, x);
    assert w[..m][..m - 1] == w[..m - 1];
    if m <= k + 1 {
      SuffixOfSuffix(w[..m - 1], w[..k], h);
      assert w[..k][k - m + 1..] == w[k - m + 1..k];
    }
  }

  lemma FallbackIsPlace(r: Remote, c: NCode, x: Word, m: nat)
    requires Plain(r) && c.Valid() && AllFit(r, c.Sequence()) && Fits(x, r.bits)
    ensures Fallback(r, c, AsReceived(r, x), m) <==> m <= c.current && Place(c.Sequence(), c.current, x, m)
    ensures Expected(r, c, AsReceived(r, x)) <==> Place(c.Sequence(), c.current, x, c.current + 1)
  {
    hide Matches, AsReceived;
    var w := c.Sequence();
    if 1 <= m <= c.current { MatchesExactly(r, w[m - 1], x); }
    MatchesExactly(r, w[c.current], x);
  }

  /** The sequence of codes since the button was last completed. */
  function Seen(w: seq<Word>, h: seq<Word>, x: Word): seq<Word> {
    if IsSuffix(w, h + [x]) then [] else h + [x]
  }

  lemma CompletesExactly(r: Remote, c: NCode, h: seq<Word>, x: Word)
    requires Plain(r) && c.Valid() && AllFit(r, c.Sequence()) && Fits(x, r.bits)
    requires LongestPrefix(c.Sequence(), h, c.current)
    ensures Completes(r, c, AsReceived(r, x)) <==> IsSuffix(c.Sequence(), h + [x])
  {
    hide Expected, AsReceived, LongestPrefix, IsSuffix;
    var w := c.Sequence();
    assert w[..|w|] == w;
    PrefixesAfter(w, h, c.current, x, |w|);
    FallbackIsPlace(r, c, x, c.current + 1);
  }

  lemma PlainWidth(r: Remote)
    requires Plain(r)
    ensures r.BitCount() <= 64
  {
  }

  lemma NothingSeen(w: seq<Word>, h: seq<Word>)
    requires w != []
    ensures IsSuffix(w[..0], h) && LongestPrefix(w, [], 0)
  {
  }

  /** One received code: the button completes exactly if its whole sequence ends the codes seen,
      and its place is again the longest beginning that does. */
  lemma Recognises(r: Remote, c: NCode, h: seq<Word>, x: Word)
    requires Plain(r) && c.Valid() && AllFit(r, c.Sequence()) && Fits(x, r.bits)
    requires LongestPrefix(c.Sequence(), h, c.current)
    ensures Completes(r, c, AsReceived(r, x)) <==> IsSuffix(c.Sequence(), h + [x])
    ensures LongestPrefix(c.Sequence(), Seen(c.Sequence(), h, x), Advance(r, c, AsReceived(r, x)).current)
  {
    hide AsReceived, Fallback, Place, Expected, IsSuffix, AllFit, Plain;
    PlainWidth(r);
    var w, k, all := c.Sequence(), c.current, AsReceived(r, x);
    CompletesExactly(r, c, h, x);
    NothingSeen(w, h + [x]);
    forall m | 1 <= m <= |w|
      ensures IsSuffix(w[..m], h + [x]) <==> Place(w, k, x, m)
      ensures Fallback(r, c, all, m) <==> m <= k && Place(w, k, x, m)
      ensures Place(w, k, x, m) ==> m <= k + 1
    {
      PrefixesAfter(w, h, k, x, m);
      FallbackIsPlace(r, c, x, m);
      if Place(w, k, x, m) { PlaceBound(w, k, x, m); }
    }
    FallbackIsPlace(r, c, x, k);
  }

  lemma PlaceBound(w: seq<Word>, k: nat, x: Word, m: nat)
    requires k <= |w| && Place(w, k, x, m)
    ensures m <= k + 1
  {
  }

  // ----- over a whole stream of codes -----

  /** The codes of the stream `xs` seen since the sequence `w` was last completed. */
  function SeenAfter(w: seq<Word>, xs: seq<Word>): seq<Word> {
    if xs == [] then [] else Seen(w, SeenAfter(w, xs[..|xs| - 1]), xs[|xs| - 1])
  }

  function Run(r: Remote, c: NCode, xs: seq<Word>): (d: NCode)
    requires r.BitCount() <= 64 && c.Valid()
    ensures d.Valid() && d.code == c.code && d.next == c.next
  {
    if xs == [] then c else Advance(r, Run(r, c, xs[..|xs| - 1]), AsReceived(r, xs[|xs| - 1]))
  }

  lemma {:induction false} RunKeepsLongestPrefix(r: Remote, c: NCode, xs: seq<Word>)
    requires Plain(r) && c.current == 0 && AllFit(r, c.Sequence()) && AllFit(r, xs)
    ensures LongestPrefix(c.Sequence(), SeenAfter(c.Sequence(), xs), Run(r, c, xs).current)
    decreases |xs|
  {
    hide AllFit, Advance, Seen;
    if xs == [] {
    } else {
      var ys, x := xs[..|xs| - 1], xs[|xs| - 1];
      AllFitParts(r, xs);
      RunKeepsLongestPrefix(r, c, ys);
      Recognises(r, Run(r, c, ys), SeenAfter(c.Sequence(), ys), x);
    }
  }

  lemma AllFitParts(r: Remote, xs: seq<Word>)
    requires r.BitCount() <= 64 && AllFit(r, xs) && xs != []
    ensures AllFit(r, xs[..|xs| - 1]) && Fits(xs[|xs| - 1], r.bits)
  {
  }

  function RunAll(r: Remote, codes: seq<NCode>, xs: seq<Word>): (after: seq<NCode>)
    requires r.BitCount() <= 64 && forall i :: 0 <= i < |codes| ==> codes[i].Valid()
    ensures |after| == |codes| && forall i :: 0 <= i < |codes| ==> after[i] == Run(r, codes[i], xs)
    ensures AllValid(after)
  {
    seq(|codes|, i requires 0 <= i < |codes| => Run(r, codes[i], xs))
  }

  /** The sequence of button `c` has just been received in full, counted from its last completion. */
  predicate Received(c: NCode, xs: seq<Word>, x: Word) {
    IsSuffix(c.Sequence(), SeenAfter(c.Sequence(), xs) + [x])
  }

  /** Over any stream of codes, from a reset: whenever the sequence of some button has just been
      received in full, the first such button in list order is the one reported. */
  lemma StreamReportsFirst(r: Remote, codes: seq<NCode>, xs: seq<Word>, x: Word, found: Option<nat>)
    requires Plain(r) && AllFit(r, xs) && Fits(x, r.bits) && AllValid(codes)
    requires forall i :: 0 <= i < |codes| ==> codes[i].current == 0 && AllFit(r, codes[i].Sequence())
    requires Reported(r, RunAll(r, codes, xs), AsReceived(r, x), found)
    requires exists i :: 0 <= i < |codes| && Received(codes[i], xs, x)
    ensures found.Some? && found.value < |codes| && Received(codes[found.value], xs, x)
    ensures forall i :: 0 <= i < found.value ==> !Received(codes[i], xs, x)
  {
    hide AllFit, Completes, Received, Hits, AsReceived, Run;
    var after := RunAll(r, codes, xs);
    forall i | 0 <= i < |codes|
      ensures Completes(r, after[i], AsReceived(r, x)) <==> Received(codes[i], xs, x)
    {
      CompletesAfter(r, codes[i], xs, x);
      assert after[i] == Run(r, codes[i], xs);
    }
    var i :| 0 <= i < |codes| && Received(codes[i], xs, x);
    assert Completes(r, after[i], AsReceived(r, x));
  }

  lemma CompletesAfter(r: Remote, c: NCode, xs: seq<Word>, x: Word)
    requires Plain(r) && AllFit(r, xs) && Fits(x, r.bits) && c.current == 0 && AllFit(r, c.Sequence())
    ensures Completes(r, Run(r, c, xs), AsReceived(r, x)) <==> Received(c, xs, x)
  {
    hide AllFit, Completes;
    RunKeepsLongestPrefix(r, c, xs);
    CompletesExactly(r, Run(r, c, xs), SeenAfter(c.Sequence(), xs), x);
  }
}
