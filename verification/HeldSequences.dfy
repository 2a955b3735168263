/** A button with several codes that is held: its codes are heard one after the other, as the sender
    goes through them, and announced once for each time that they are complete. */
module HeldSequences {
  import opened Options
  import opened Words
  import opened Remotes
  import opened Recogniser
  import opened Decode
  import opened Rounds

  /** The code that is sent in pass `i`: XMP sends the first one only once. */
  function SentIn(r: Remote, c: NCode, i: nat): Word
    requires c.next != []
  {
    if !r.protocol.Xmp? then c.Sequence()[i % |c.Sequence()|]
    else if i == 0 then c.code
    else c.next[(i - 1) % |c.next|]
  }

  /** The code that was awaited moves the button to the next one, and from the last to the first. */
  lemma AwaitedAdvances(r: Remote, c: NCode, all: Word)
    requires r.BitCount() <= 64 && c.Valid() && c.next != [] && Matches(r, c.Sequence()[c.current], all)
    ensures Advance(r, c, all) == c.(current := if c.current < |c.next| then c.current + 1 else 0)
  {
  }

  /** One frame: it matches the code sent, and each but the first is recognised as going on with what
      was received before. */
  predicate HoldingAt(r: Remote, f: nat, mask: Word, i: nat, c: NCode, w: Word, t: Timing, s: State, d: NCode, u: State)
    requires r.BitCount() <= 64
  {
    && c.Valid() && c.next != [] && Matches(r, SentIn(r, c, i), w)
    && (if i == 0 then !t.repeatFlag else t == Timing(true, true, true))
    && var a := Advance(r, c, w);
       && u == SetCode(r, s, a, f, mask, t)
       && d == if a.current == 0 then Restarted(r, a, true) else a
  }

  ghost predicate Holding(r: Remote, f: nat, mask: Word, buttons: seq<NCode>, words: seq<Word>, times: seq<Timing>,
                          states: seq<State>)
    requires r.BitCount() <= 64
  {
    && |words| == |times| && |buttons| == |states| == |words| + 1
    && buttons[0].next != [] && buttons[0].current == 0
    && (forall i :: 0 <= i < |words| ==>
          HoldingAt(r, f, mask, i, buttons[i], words[i], times[i], states[i], buttons[i + 1], states[i + 1]))
  }

  /** Pass `i` has place `p` in the sequence, which has been sent `q` times before. */
  predicate InRound(r: Remote, c: NCode, i: nat, q: nat, p: nat) {
    && p <= |c.next| && (i == 0 ==> q == 0 && p == 0)
    && if r.protocol.Xmp? && i > 0 then p > 0 && i == |c.next| * q + p else i == |c.Sequence()| * q + p
  }

  lemma SentAtPlace(r: Remote, c: NCode, i: nat, q: nat, p: nat)
    requires c.next != [] && InRound(r, c, i, q, p)
    ensures SentIn(r, c, i) == c.Sequence()[p]
  {
    if i > 0 { if r.protocol.Xmp? { Divides(|c.next|, q, p - 1); } else { Divides(|c.Sequence()|, q, p); } }
  }

  /** The receiver before pass `i`. */
  predicate HeldFor(r: Remote, f: nat, mask: Word, i: nat, q: nat, p: nat, c: NCode, s: State) {
    && c.Valid() && c.next != [] && c.current == p && InRound(r, c, i, q, p)
    && (i > 0 ==> !s.releaseDetected && s.reps == q && (r.HasToggleBitMask() ==> s.bitMaskState == mask))
    && (q > 0 ==> s.lastCode == Some(f))
  }

  /** What is announced where the sequence is complete for the `q`-th time, from 0 on. */
  function CompletionShown(r: Remote, q: nat): Option<int> {
    if q == 0 then Some(0) else if q <= r.suppressRepeat then None else Some(q - r.suppressRepeat)
  }

  lemma OneFrame(r: Remote, f: nat, mask: Word, i: nat, q: nat, p: nat, c: NCode, w: Word, t: Timing, s: State,
                 d: NCode, u: State)
    requires r.BitCount() <= 64 && !r.HasToggleMask() && HeldFor(r, f, mask, i, q, p, c, s)
    requires HoldingAt(r, f, mask, i, c, w, t, s, d, u)
    ensures d.next == c.next && d.code == c.code
    ensures if p < |c.next| then HeldFor(r, f, mask, i + 1, q, p + 1, d, u)
            else HeldFor(r, f, mask, i + 1, q + 1, if r.protocol.Xmp? then 1 else 0, d, u)
    ensures Announced(r, u, Advance(r, c, w)) == if p < |c.next| then None else CompletionShown(r, q)
  {
    hide Matches, Advance, SentIn;
    SentAtPlace(r, c, i, q, p);
    AwaitedAdvances(r, c, w);
    assert |c.next| * (q + 1) == |c.next| * q + |c.next|;
    assert |c.Sequence()| * (q + 1) == |c.Sequence()| * q + |c.Sequence()|;
  }

  lemma {:induction false} HeldAt(r: Remote, f: nat, mask: Word, buttons: seq<NCode>, words: seq<Word>,
                                  times: seq<Timing>, states: seq<State>, i: nat)
    returns (q: nat, p: nat)
    requires r.BitCount() <= 64 && !r.HasToggleMask() && Holding(r, f, mask, buttons, words, times, states)
    requires i <= |words|
    ensures HeldFor(r, f, mask, i, q, p, buttons[i], states[i])
    ensures buttons[i].next == buttons[0].next && buttons[i].code == buttons[0].code
    decreases i
  {
    hide HoldingAt, HeldFor;
    if i == 0 {
      q, p := 0, 0;
      AtStart(r, f, mask, buttons[0], states[0]);
    } else {
      q, p := HeldAt(r, f, mask, buttons, words, times, states, i - 1);
      var c := buttons[i - 1];
      OneFrame(r, f, mask, i - 1, q, p, c, words[i - 1], times[i - 1], states[i - 1], buttons[i], states[i]);
      if p < |c.next| {
        p := p + 1;
      } else {
        q, p := q + 1, if r.protocol.Xmp? then 1 else 0;
      }
    }
  }

  lemma AtStart(r: Remote, f: nat, mask: Word, c: NCode, s: State)
    requires c.next != [] && c.current == 0
    ensures HeldFor(r, f, mask, 0, 0, 0, c, s)
  {
  }

  /** Pass `i` sends the last code of the sequence, which is then complete for the time given. */
  function Completed(r: Remote, c: NCode, i: nat): Option<nat>
    requires c.next != []
  {
    if r.protocol.Xmp? then if i > 0 && i % |c.next| == 0 then Some(i / |c.next| - 1) else None
    else if (i + 1) % |c.Sequence()| == 0 then Some(i / |c.Sequence()|)
    else None
  }

  lemma CompletedAtEnd(r: Remote, c: NCode, i: nat, q: nat, p: nat)
    requires c.next != [] && InRound(r, c, i, q, p)
    ensures Completed(r, c, i) == if p == |c.next| then Some(q) else None
  {
    var m, n := |c.next|, |c.Sequence()|;
    assert m * (q + 1) == m * q + m && n * (q + 1) == n * q + n;
    if r.protocol.Xmp? && i > 0 {
      if p == m { Divides(m, q + 1, 0); } else { Divides(m, q, p); }
    } else {
      Divides(n, q, p);
      if p == m { Divides(n, q + 1, 0); } else { Divides(n, q, p + 1); }
    }
  }

  /** The frame that completes the sequence for the `q`-th time is announced, with the count `q` less
      suppressed repeats, and no other frame is. */
  lemma SequenceIsCounted(r: Remote, f: nat, mask: Word, buttons: seq<NCode>, words: seq<Word>,
                          times: seq<Timing>, states: seq<State>, i: nat)
    requires r.BitCount() <= 64 && !r.HasToggleMask() && Holding(r, f, mask, buttons, words, times, states)
    requires i < |words|
    ensures buttons[i].Valid()
    ensures Announced(r, states[i + 1], Advance(r, buttons[i], words[i]))
         == match Completed(r, buttons[0], i)
            case None => None
            case Some(q) => CompletionShown(r, q)
  {
    hide HoldingAt, Announced, Advance, Completed;
    var q, p := HeldAt(r, f, mask, buttons, words, times, states, i);
    OneFrame(r, f, mask, i, q, p, buttons[i], words[i], times[i], states[i], buttons[i + 1], states[i + 1]);
    CompletedAtEnd(r, buttons[i], i, q, p);
    SameCompleted(r, buttons[0], buttons[i], i);
  }

  lemma SameCompleted(r: Remote, c: NCode, d: NCode, i: nat)
    requires c.next == d.next && c.next != []
    ensures Completed(r, c, i) == Completed(r, d, i)
  {
  }
}
