/** Infrared signals: lists of pulses (carrier on) and spaces (carrier off). A pulse or space
    is also what `lirc_t` holds once a driver has tagged it with PULSE_BIT; the plain value 0,
    which means "nothing received", is `Space(0)`. */
module Signals {

  datatype Sig = Pulse(len: nat) | Space(len: nat)

  predicate SameLevel(a: Sig, b: Sig) {
    a.Pulse? == b.Pulse?
  }

  /** Two neighbouring signals of one level are one longer signal on the air. */
  function Join(a: Sig, b: Sig): Sig {
    if a.Pulse? then Pulse(a.len + b.len) else Space(a.len + b.len)
  }

  ghost predicate Positive(c: seq<Sig>) {
    forall i :: 0 <= i < |c| ==> c[i].len > 0
  }

  ghost predicate Alternating(c: seq<Sig>) {
    forall i :: 0 < i < |c| ==> !SameLevel(c[i - 1], c[i])
  }

  /** The time a list of signals takes. */
  function Total(c: seq<Sig>): nat {
    if c == [] then 0 else c[0].len + Total(c[1..])
  }

  /** The carrier at one level for `n` microseconds. */
  function Level(n: nat, on: bool): (w: seq<bool>)
    ensures |w| == n
  {
    seq(n, _ => on)
  }

  lemma LevelsJoin(m: nat, n: nat, on: bool, rest: seq<bool>)
    ensures Level(m, on) + (Level(n, on) + rest) == Level(m + n, on) + rest
  {
  }

  /** The waveform itself: the level of the carrier at every microsecond. */
  function Wave(c: seq<Sig>): seq<bool> {
    if c == [] then [] else Level(c[0].len, c[0].Pulse?) + Wave(c[1..])
  }

  /** Run-length form: neighbours of one level joined. */
  function Runs(c: seq<Sig>): seq<Sig>
    decreases |c|
  {
    if |c| < 2 then c
    else if SameLevel(c[0], c[1]) then Runs([Join(c[0], c[1])] + c[2..])
    else [c[0]] + Runs(c[1..])
  }

  /** What a receiver sees of `c`: its runs, without a space at the end, which nothing bounds. */
  function Air(c: seq<Sig>): seq<Sig>
    decreases |c|
  {
    if c == [] then []
    else if |c| == 1 then if c[0].Space? then [] else c
    else if SameLevel(c[0], c[1]) then Air([Join(c[0], c[1])] + c[2..])
    else [c[0]] + Air(c[1..])
  }

  function DropLastSpace(c: seq<Sig>): seq<Sig> {
    if c != [] && c[|c| - 1].Space? then c[..|c| - 1] else c
  }

  function DropLeadingSpaces(c: seq<Sig>): (r: seq<Sig>)
    ensures r != [] ==> r[0].Pulse?
  {
    if c != [] && c[0].Space? then DropLeadingSpaces(c[1..]) else c
  }

  lemma {:induction false} TotalConcat(a: seq<Sig>, b: seq<Sig>)
    ensures Total(a + b) == Total(a) + Total(b)
  {
    if a == [] {
      assert a + b == b;
    } else {
      assert (a + b)[1..] == a[1..] + b;
      TotalConcat(a[1..], b);
    }
  }

  lemma FirstSignal(x: Sig, rest: seq<Sig>)
    ensures Wave([x] + rest) == Level(x.len, x.Pulse?) + Wave(rest) && Total([x] + rest) == x.len + Total(rest)
  {
    assert ([x] + rest)[1..] == rest;
  }

  lemma JoinKeepsWave(c: seq<Sig>)
    requires Positive(c) && |c| >= 2 && SameLevel(c[0], c[1])
    ensures var d := [Join(c[0], c[1])] + c[2..];
            Positive(d) && Wave(d) == Wave(c) && Total(d) == Total(c)
  {
    hide Level, Wave, Total;
    var x, y, rest := c[0], c[1], c[2..];
    assert c == [x] + ([y] + rest);
    FirstSignal(Join(x, y), rest);
    FirstSignal(x, [y] + rest);
    FirstSignal(y, rest);
    LevelsJoin(x.len, y.len, x.Pulse?, Wave(rest));
  }

  /** Merging keeps the waveform, and leaves a positive, strictly alternating list. */
  lemma {:induction false} RunsKeepWave(c: seq<Sig>)
    requires Positive(c)
    ensures Wave(Runs(c)) == Wave(c)
    ensures Positive(Runs(c)) && Alternating(Runs(c))
    ensures c != [] ==> Runs(c) != [] && SameLevel(Runs(c)[0], c[0])
    ensures Total(Runs(c)) == Total(c)
    decreases |c|
  {
    if |c| < 2 {
    } else if SameLevel(c[0], c[1]) {
      var d := [Join(c[0], c[1])] + c[2..];
      RunsKeepWave(d);
      JoinKeepsWave(c);
    } else {
      RunsKeepWave(c[1..]);
      var r := Runs(c[1..]);
      assert Runs(c) == [c[0]] + r && Runs(c)[1..] == r;
      assert Alternating(Runs(c)) by {
        forall i | 0 < i < |Runs(c)|
          ensures !SameLevel(Runs(c)[i - 1], Runs(c)[i])
        {
          if i > 1 { assert !SameLevel(r[i - 2], r[i - 1]); }
        }
      }
    }
  }

  /** A waveform has one positive, alternating description, so the above determines `Runs`. */
  lemma {:induction false} WaveDeterminesRuns(a: seq<Sig>, b: seq<Sig>)
    requires Positive(a) && Alternating(a) && Positive(b) && Alternating(b)
    requires Wave(a) == Wave(b)
    ensures a == b
    decreases |a|
  {
    if a == [] || b == [] {
      assert |Wave(a)| == 0 && |Wave(b)| == 0;
    } else {
      assert Wave(a)[0] == a[0].Pulse? && Wave(b)[0] == b[0].Pulse?;
      LevelAfterFirstRun(a);
      LevelAfterFirstRun(b);
      assert Wave(a)[a[0].len..] == Wave(a[1..]);
      assert Wave(b)[b[0].len..] == Wave(b[1..]);
      TailAlternates(a);
      TailAlternates(b);
      WaveDeterminesRuns(a[1..], b[1..]);
      assert a == [a[0]] + a[1..] && b == [b[0]] + b[1..];
    }
  }

  lemma TailAlternates(a: seq<Sig>)
    requires Positive(a) && Alternating(a) && a != []
    ensures Positive(a[1..]) && Alternating(a[1..])
  {
    forall i | 0 < i < |a[1..]|
      ensures !SameLevel(a[1..][i - 1], a[1..][i])
    {
      assert !SameLevel(a[i], a[i + 1]);
    }
  }

  lemma LevelAfterFirstRun(a: seq<Sig>)
    requires Positive(a) && Alternating(a) && a != []
    ensures forall i :: 0 <= i < a[0].len ==> i < |Wave(a)| && Wave(a)[i] == a[0].Pulse?
    ensures |Wave(a)| > a[0].len ==> Wave(a)[a[0].len] != a[0].Pulse?
  {
    var first := Level(a[0].len, a[0].Pulse?);
    assert Wave(a) == first + Wave(a[1..]);
    forall i | 0 <= i < a[0].len
      ensures i < |Wave(a)| && Wave(a)[i] == a[0].Pulse?
    {
      assert Wave(a)[i] == first[i];
    }
    if |a| > 1 {
      assert Wave(a)[a[0].len] == Wave(a[1..])[0] == a[1].Pulse?;
      assert !SameLevel(a[0], a[1]);
    }
  }

  lemma RunsUnfold(c: seq<Sig>)
    ensures |c| >= 2 && SameLevel(c[0], c[1]) ==> Runs(c) == Runs([Join(c[0], c[1])] + c[2..])
    ensures |c| >= 2 && !SameLevel(c[0], c[1]) ==> Runs(c) == [c[0]] + Runs(c[1..])
    ensures |c| == 1 ==> Runs(c) == c
  {
  }

  lemma LastAfterFirst(h: Sig, r: seq<Sig>, y: Sig)
    requires r != []
    ensures ([h] + r)[|r|] == r[|r| - 1]
    ensures ([h] + r)[..|r|] + [y] == [h] + (r[..|r| - 1] + [y])
    ensures [h] + r + [y] == [h] + (r + [y])
  {
  }

  lemma AppendDrops(c: seq<Sig>, x: Sig)
    ensures |c| >= 1 ==> (c + [x])[0] == c[0] && (c + [x])[1..] == c[1..] + [x]
    ensures |c| >= 2 ==> (c + [x])[1] == c[1] && (c + [x])[2..] == c[2..] + [x]
  {
  }

  lemma AppendToOne(c: seq<Sig>, x: Sig)
    requires |c| == 1
    ensures Runs(c) == c
    ensures Runs(c + [x]) == if SameLevel(c[0], x) then c[..0] + [Join(c[0], x)] else c + [x]
  {
    assert (c + [x])[2..] == [] && (c + [x])[1..] == [x];
  }

  /** Appending one signal extends the last run or starts a new one. */
  lemma {:induction false} RunsAppend(c: seq<Sig>, x: Sig)
    requires c != []
    ensures var r := Runs(c);
            && r != []
            && Runs(c + [x]) == if SameLevel(r[|r| - 1], x) then r[..|r| - 1] + [Join(r[|r| - 1], x)] else r + [x]
    decreases |c|
  {
    hide Runs, SameLevel, Join;
    RunsUnfold(c);
    RunsUnfold(c + [x]);
    AppendDrops(c, x);
    if |c| == 1 {
      AppendToOne(c, x);
    } else if SameLevel(c[0], c[1]) {
      var d := [Join(c[0], c[1])] + c[2..];
      RunsAppend(d, x);
      assert d + [x] == [Join(c[0], c[1])] + (c[2..] + [x]);
    } else {
      RunsAppend(c[1..], x);
      var r := Runs(c[1..]);
      LastAfterFirst(c[0], r, Join(r[|r| - 1], x));
      LastAfterFirst(c[0], r, x);
    }
  }

  lemma RunsOfNothing()
    ensures Runs([]) == []
  {
  }

  lemma {:induction false} AirIsRuns(c: seq<Sig>)
    ensures Air(c) == DropLastSpace(Runs(c))
    decreases |c|
  {
    if |c| < 2 {
    } else if SameLevel(c[0], c[1]) {
      AirIsRuns([Join(c[0], c[1])] + c[2..]);
    } else {
      AirIsRuns(c[1..]);
      RunsNonempty(c[1..]);
      var r := Runs(c[1..]);
      assert ([c[0]] + r)[..|r|] == [c[0]] + r[..|r| - 1];
    }
  }

  lemma {:induction false} RunsNonempty(c: seq<Sig>)
    requires c != []
    ensures Runs(c) != []
    decreases |c|
  {
    if |c| == 1 {
    } else if SameLevel(c[0], c[1]) {
      RunsNonempty([Join(c[0], c[1])] + c[2..]);
    }
  }

  // ----- the space at the end -----

  /** The space that some signals end in, which is joined to the one after them. */
  function EndSpace(c: seq<Sig>): nat {
    if c != [] && c[|c| - 1].Space? then c[|c| - 1].len + EndSpace(c[..|c| - 1]) else 0
  }

  function LastSpace(c: seq<Sig>): nat {
    if c != [] && c[|c| - 1].Space? then c[|c| - 1].len else 0
  }

  lemma {:induction false} EndSpaceOfRuns(c: seq<Sig>)
    ensures EndSpace(c) == LastSpace(Runs(c))
    ensures c != [] ==> Runs(c) != [] && SameLevel(Runs(c)[|Runs(c)| - 1], c[|c| - 1])
  {
    if |c| < 2 {
    } else {
      var a, x := c[..|c| - 1], c[|c| - 1];
      assert c == a + [x];
      EndSpaceOfRuns(a);
      RunsAppend(a, x);
    }
  }

  /** Signals that begin with a pulse end in the same space whatever is before them. */
  lemma {:induction false} EndSpaceAtEnd(c: seq<Sig>, f: seq<Sig>)
    requires f != [] && f[0].Pulse?
    ensures EndSpace(c + f) == EndSpace(f)
  {
    var e := c + f;
    if f[|f| - 1].Space? {
      assert e[..|e| - 1] == c + f[..|f| - 1];
      EndSpaceAtEnd(c, f[..|f| - 1]);
    }
  }

  lemma EndSpaceAfter(x: Sig, c: seq<Sig>)
    requires c != [] && !SameLevel(x, c[0])
    ensures EndSpace([x] + c) == EndSpace(c)
  {
    EndSpaceOfRuns([x] + c);
    EndSpaceOfRuns(c);
    assert ([x] + c)[1..] == c;
  }

  lemma EndSpaceOfJoined(c: seq<Sig>)
    requires |c| >= 2 && SameLevel(c[0], c[1])
    ensures EndSpace([Join(c[0], c[1])] + c[2..]) == EndSpace(c)
  {
    EndSpaceOfRuns(c);
    EndSpaceOfRuns([Join(c[0], c[1])] + c[2..]);
  }

  lemma AirUnfold(c: seq<Sig>)
    ensures |c| >= 2 && SameLevel(c[0], c[1]) ==> Air(c) == Air([Join(c[0], c[1])] + c[2..])
    ensures |c| >= 2 && !SameLevel(c[0], c[1]) ==> Air(c) == [c[0]] + Air(c[1..])
  {
  }

  lemma MoreDrops(c: seq<Sig>, e: seq<Sig>)
    ensures |c| >= 1 ==> (c + e)[0] == c[0] && (c + e)[1..] == c[1..] + e
    ensures |c| >= 2 ==> (c + e)[1] == c[1] && (c + e)[2..] == c[2..] + e
  {
  }

  lemma OneOnAir(x: Sig)
    ensures Air([x]) == (if x.Space? then [] else [x]) && EndSpace([x]) == if x.Space? then x.len else 0
  {
    assert EndSpace([x][..0]) == 0;
  }

  lemma AirSplitOne(x: Sig, d: nat, e: seq<Sig>)
    requires e != [] && e[0].Pulse?
    ensures Air([Space(d)] + e) == [Space(d)] + Air(e)
    ensures Air([x] + ([Space(d)] + e)) == Air([x]) + [Space(EndSpace([x]) + d)] + Air(e)
  {
    hide Air, EndSpace;
    var m := [Space(d)] + e;
    MoreDrops([Space(d)], e);
    MoreDrops([x], m);
    OneOnAir(x);
    AirUnfold(m);
    AirUnfold([x] + m);
    if x.Space? {
      var j := [Space(x.len + d)];
      assert ([x] + m)[2..] == e;
      MoreDrops(j, e);
      AirUnfold(j + e);
    }
  }

  /** Two frames with a space between them are on the air one after the other. */
  lemma {:induction false} AirSplit(c: seq<Sig>, d: nat, e: seq<Sig>)
    requires e != [] && e[0].Pulse?
    ensures Air(c + ([Space(d)] + e)) == Air(c) + [Space(EndSpace(c) + d)] + Air(e)
    decreases |c|
  {
    hide Air, EndSpace, SameLevel, Join;
    var m := [Space(d)] + e;
    if c == [] {
      AirSplitOne(Space(0), d, e);
      AirOfNothing();
      assert c + m == m;
    } else if |c| == 1 {
      AirSplitOne(c[0], d, e);
      assert c == [c[0]];
    } else {
      AirUnfold(c);
      AirUnfold(c + m);
      MoreDrops(c, m);
      if SameLevel(c[0], c[1]) {
        var j := [Join(c[0], c[1])];
        EndSpaceOfJoined(c);
        AirSplit(j + c[2..], d, e);
        assert j + c[2..] + m == j + (c[2..] + m);
      } else {
        EndSpaceAfter(c[0], c[1..]);
        AirSplit(c[1..], d, e);
        assert c == [c[0]] + c[1..];
      }
    }
  }

  lemma AirOfNothing()
    ensures Air([]) == [] && EndSpace([]) == 0
  {
  }

  /** What is on the air takes as long as the signals but for the space at the end. */
  lemma AirTotal(c: seq<Sig>)
    requires Positive(c)
    ensures Total(Air(c)) + EndSpace(c) == Total(c)
  {
    hide Air, Runs, EndSpace;
    AirIsRuns(c);
    EndSpaceOfRuns(c);
    RunsKeepWave(c);
    var q := Runs(c);
    if q != [] {
      assert q == q[..|q| - 1] + [q[|q| - 1]];
      TotalConcat(q[..|q| - 1], [q[|q| - 1]]);
    }
  }
}
