/** How often a button with several codes is sent by one transmission. */
module Sequences {
  import opened Options
  import opened Words
  import opened SendBuffers
  import opened Remotes
  import opened Passes
  import opened InitSend
  import opened LoopEnds
  import opened Rounds

  /** All codes of a button in order. */
  function Codes(b: Button): seq<Word> {
    [b.code] + b.next
  }

  /** The turn at place `p` of round `q` of a sequence that begins with `first`. */
  predicate AtPlace(first: Turn, q: nat, p: nat, t: Turn) {
    t.transmit == (if p == 0 then None else Some(p - 1)) && t.countdown == first.countdown - q
  }

  lemma NextPlace(r: Remote, b: Button, first: Turn, q: nat, p: nat, t: Turn)
    requires !r.protocol.Xmp? && InSequence(b, t) && p < |Codes(b)| && AtPlace(first, q, p, t)
    ensures var u := Advance(r, b, t);
            && u.countdown == first.countdown - q && (u.transmit.None? <==> p + 1 == |Codes(b)|)
            && (if p + 1 < |Codes(b)| then AtPlace(first, q, p + 1, NextTurn(b, u))
                else AtPlace(first, q + 1, 0, NextTurn(b, u)))
  {
  }

  /** Pass `i` sends code `i` of the sequence, which is sent round after round, and the repeats are
      counted by rounds. */
  lemma {:induction false} PassInRound(r: Remote, b: Button, passes: seq<Pass>, i: nat) returns (q: nat, p: nat)
    requires !r.protocol.Xmp? && Chained(r, b, passes) && i < |passes| && passes[0].turn.transmit.None?
    ensures p < |Codes(b)| && i == |Codes(b)| * q + p && AtPlace(passes[0].turn, q, p, passes[i].turn)
    decreases i
  {
    if i == 0 {
      q, p := 0, 0;
    } else {
      q, p := PassInRound(r, b, passes, i - 1);
      assert Follows(r, b, passes[i - 1], passes[i]);
      NextPlace(r, b, passes[0].turn, q, p, passes[i - 1].turn);
      if p + 1 < |Codes(b)| {
        p := p + 1;
      } else {
        q, p := q + 1, 0;
      }
    }
  }

  /** Which code a pass sends. */
  lemma PassSendsCode(r: Remote, b: Button, passes: seq<Pass>, i: nat)
    requires !r.protocol.Xmp? && Chained(r, b, passes) && i < |passes| && passes[0].turn.transmit.None?
    ensures InSequence(b, passes[i].turn)
    ensures CodeOf(b, passes[i].turn) == Codes(b)[i % |Codes(b)|]
    ensures passes[i].turn.countdown == passes[0].turn.countdown - i / |Codes(b)|
  {
    var q, p := PassInRound(r, b, passes, i);
    Divides(|Codes(b)|, q, p);
  }

  lemma RoundsLeft(n: nat, q: nat, k: nat, c: int)
    requires n > 0 && k == n * q + (n - 1) && c - q <= 0 && (q > 0 ==> c - (q - 1) > 0)
    ensures k + 1 == n * (1 + if c > 0 then c else 0)
  {
    assert q == if c > 0 then c else 0;
    assert n * q + n == n * (1 + q);
  }

  /** The last pass of the round before. */
  lemma RoundBefore(r: Remote, b: Button, passes: seq<Pass>, q: nat)
    requires !r.protocol.Xmp? && Chained(r, b, passes) && passes != [] && passes[0].turn.transmit.None?
    requires q > 0 && |Codes(b)| * q < |passes|
    ensures passes[0].turn.countdown - (q - 1) > 0
  {
    var n := |Codes(b)|;
    assert n * q >= n;
    var i := n * q - 1;
    var e, p := PassInRound(r, b, passes, i);
    assert i == n * (q - 1) + (n - 1);
    SameQuotient(n, q - 1, e, n - 1, p);
    assert Follows(r, b, passes[i], passes[i + 1]);
    NextPlace(r, b, passes[0].turn, e, p, passes[i].turn);
  }

  lemma ResultEnds(r: Remote, b: Button, first: Turn, passes: seq<Pass>, t: Tx)
    requires r.BitCount() <= 64 && Result(r, b, first, passes, t)
    ensures passes != [] && Chained(r, b, passes) && passes[0].turn == first
    ensures InSequence(b, passes[|passes| - 1].turn)
    ensures !GoesOn(Advance(r, b, passes[|passes| - 1].turn), passes[|passes| - 1].gap)
  {
  }

  /** A button of `n` codes is put into one buffer once, all its codes in order, and as often again as
      there are repeats left, as long as the gaps are short. */
  lemma SequenceInOneBuffer(r: Remote, b: Button, first: Turn, passes: seq<Pass>, t: Tx)
    requires r.BitCount() <= 64 && !r.protocol.Xmp? && first.transmit.None? && Result(r, b, first, passes, t)
    requires passes != [] && passes[|passes| - 1].gap < EXACT_GAP_THRESHOLD
    ensures |passes| == |Codes(b)| * (1 + RepeatsLeft(first))
    ensures forall i :: 0 <= i < |passes| ==>
              InSequence(b, passes[i].turn) && CodeOf(b, passes[i].turn) == Codes(b)[i % |Codes(b)|]
  {
    hide PassSignals, Result, Chained, AllProper, Advance, NextTurn;
    ResultEnds(r, b, first, passes, t);
    var k, n := |passes| - 1, |Codes(b)|;
    var q, p := PassInRound(r, b, passes, k);
    NextPlace(r, b, first, q, p, passes[k].turn);
    assert p == n - 1;
    if q > 0 { RoundBefore(r, b, passes, q); }
    RoundsLeft(n, q, k, first.countdown);
    forall i | 0 <= i < |passes|
      ensures InSequence(b, passes[i].turn) && CodeOf(b, passes[i].turn) == Codes(b)[i % n]
    {
      PassSendsCode(r, b, passes, i);
    }
  }

  // ----- XMP -----

  lemma {:induction false} XmpInRound(r: Remote, b: Button, passes: seq<Pass>, i: nat) returns (q: nat, p: nat)
    requires r.protocol.Xmp? && b.next != [] && Chained(r, b, passes) && 0 < i < |passes|
    requires passes[0].turn.transmit.None?
    ensures p < |b.next| && i - 1 == |b.next| * q + p && passes[i].turn.transmit == Some(p)
    decreases i
  {
    assert Follows(r, b, passes[i - 1], passes[i]);
    if i == 1 {
      q, p := 0, 0;
    } else {
      q, p := XmpInRound(r, b, passes, i - 1);
      if p + 1 < |b.next| {
        p := p + 1;
      } else {
        q, p := q + 1, 0;
      }
    }
  }

  /** An XMP remote sends its first code once, and the others round after round. */
  lemma XmpSendsCode(r: Remote, b: Button, passes: seq<Pass>, i: nat)
    requires r.protocol.Xmp? && b.next != [] && Chained(r, b, passes) && i < |passes|
    requires passes[0].turn.transmit.None?
    ensures InSequence(b, passes[i].turn)
    ensures CodeOf(b, passes[i].turn) == if i == 0 then b.code else b.next[(i - 1) % |b.next|]
  {
    if i > 0 {
      var q, p := XmpInRound(r, b, passes, i);
      Divides(|b.next|, q, p);
    }
  }
}
