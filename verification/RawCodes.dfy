/** The raw_codes section of a configuration file: how dump_config.c prints it and how
    config_file.c reads it. A file is a list of lines, a line a list of tokens. */
module RawCodes {
  import opened Options

  /** A printed number, or any other token; the latter may read as a number too. */
  datatype Token = Num(value: nat) | Word(text: string, reading: Option<nat>)

  type Line = seq<Token>

  /** A button with a raw signal; `code` is its number in the section. */
  datatype Raw = Raw(name: Token, code: nat, signals: seq<nat>)

  function Upper(c: char): char {
    if 'a' <= c <= 'z' then c - 'a' + 'A' else c
  }

  /** `strcasecmp` */
  predicate SameText(a: string, b: string) {
    |a| == |b| && forall i :: 0 <= i < |a| ==> Upper(a[i]) == Upper(b[i])
  }

  predicate Is(t: Token, keyword: string) {
    t.Word? && SameText(keyword, t.text)
  }

  // ----- printing -----

  function Numbers(s: seq<nat>): (line: Line)
    ensures |line| == |s|
  {
    seq(|s|, i requires 0 <= i < |s| => Num(s[i]))
  }

  /** Six numbers a line. */
  function Chunks(s: seq<nat>): seq<Line> {
    if s == [] then []
    else if |s| <= 6 then [Numbers(s)]
    else [Numbers(s[..6])] + Chunks(s[6..])
  }

  /** Every line is full but the last one, which is not empty. */
  lemma {:induction false} LinesAreFull(s: seq<nat>, i: nat)
    ensures |Chunks(s)| == (|s| + 5) / 6
    ensures i < |Chunks(s)| ==>
              6 * i < |s| && Chunks(s)[i] == Numbers(s[6 * i..if 6 * i + 6 < |s| then 6 * i + 6 else |s|])
    decreases |s|
  {
    hide Numbers;
    if |s| > 6 {
      LinesAreFull(s[6..], if i > 0 then i - 1 else 0);
      if 0 < i < |Chunks(s)| {
        var j := 6 * (i - 1);
        assert s[6..][j..if j + 6 < |s[6..]| then j + 6 else |s[6..]|]
            == s[6 * i..if 6 * i + 6 < |s| then 6 * i + 6 else |s|];
      }
    } else {
      assert s[0..|s|] == s;
    }
  }

  function Keyword(text: string): Token {
    Word(text, None)
  }

  /** A button is its name, its signals and an empty line. */
  function PrintedButton(b: Raw): seq<Line> {
    [[Keyword("name"), b.name]] + Chunks(b.signals) + [[]]
  }

  function PrintedButtons(bs: seq<Raw>): seq<Line> {
    if bs == [] then [] else PrintedButton(bs[0]) + PrintedButtons(bs[1..])
  }

  /** The section after its first line. */
  function PrintedSection(bs: seq<Raw>): seq<Line> {
    [[]] + PrintedButtons(bs) + [[Keyword("end"), Keyword("raw_codes")], []]
  }

  lemma {:induction false} ChunksAppend(s: seq<nat>, t: seq<nat>, k: nat)
    requires |s| == 6 * k
    ensures Chunks(s + t) == Chunks(s) + Chunks(t)
    decreases |s|
  {
    hide Chunks, Numbers;
    NoChunks();
    if s == [] {
      assert s + t == t;
    } else if t == [] {
      assert s + t == s;
    } else {
      ChunksAppend(s[6..], t, k - 1);
      ChunksFirst(s);
      ChunksFirst(s + t);
      assert (s + t)[..6] == s[..6] && (s + t)[6..] == s[6..] + t;
    }
  }

  lemma NoChunks()
    ensures Chunks([]) == []
  {
  }

  lemma ChunksFirst(s: seq<nat>)
    requires |s| >= 6
    ensures Chunks(s) == [Numbers(s[..6])] + Chunks(s[6..])
  {
    if |s| == 6 { assert s[..6] == s && s[6..] == []; }
  }

  /** The loop of `fprint_remote_signal` for a raw code; `j` counts the numbers on the line. */
  method PrintButton(b: Raw) returns (lines: seq<Line>)
    ensures lines == PrintedButton(b)
  {
    hide Chunks;
    lines := [[Keyword("name"), b.name]];
    ghost var head := lines;
    var line: Line := [];
    var j := 0;
    ghost var k, s := 0, b.signals;
    NoChunks();
    for i := 0 to |b.signals|
      invariant 0 <= j < 6 && i == 6 * k + j
      invariant lines == head + Chunks(s[..6 * k]) && line == Numbers(s[6 * k..i])
    {
      line := line + [Num(b.signals[i])];
      assert line == Numbers(s[6 * k..i + 1]);
      if j >= 5 {
        OneChunk(s[6 * k..i + 1]);
        ChunksAppend(s[..6 * k], s[6 * k..i + 1], k);
        assert s[..i + 1] == s[..6 * k] + s[6 * k..i + 1];
        lines, line, j, k := lines + [line], [], -1, k + 1;
      }
      j := j + 1;
    }
    if j != 0 {
      OneChunk(s[6 * k..]);
      lines := lines + [line];
    }
    ghost var rest := s[6 * k..];
    assert s[6 * k..|s|] == rest;
    ChunksAppend(s[..6 * k], rest, k);
    assert s == s[..6 * k] + rest;
    assert j == 0 ==> rest == [];
    assert lines == head + Chunks(s);
    lines := lines + [[]];
  }

  lemma OneChunk(s: seq<nat>)
    requires 1 <= |s| <= 6
    ensures Chunks(s) == [Numbers(s)]
  {
  }

  method PrintSection(bs: seq<Raw>) returns (lines: seq<Line>)
    ensures lines == PrintedSection(bs)
  {
    lines := [[]];
    for i := 0 to |bs|
      invariant lines + PrintedButtons(bs[i..]) == [[]] + PrintedButtons(bs)
    {
      var more := PrintButton(bs[i]);
      assert bs[i..][1..] == bs[i + 1..];
      assert lines + more + PrintedButtons(bs[i + 1..]) == lines + PrintedButtons(bs[i..]);
      lines := lines + more;
    }
    assert lines + [] == lines;
    lines := lines + [[Keyword("end"), Keyword("raw_codes")], []];
  }

  // ----- parsing -----

  /** ID_raw_codes, ID_raw_name, back in ID_remote, and a parse error. */
  datatype Mode = InCodes | InName | Finished | Error

  /** `raw_code` (its name and number), the signals read for it, and the buttons before it. */
  datatype Parser = Parser(mode: Mode, name: Token, code: nat, signals: seq<nat>, buttons: seq<Raw>)

  function Reading(t: Token): Option<nat> {
    match t
    case Num(v) => Some(v)
    case Word(_, v) => v
  }

  /** The button read so far is complete; its signals have to be of odd number. */
  function Closed(p: Parser): Parser {
    if p.mode != InName then p
    else p.(mode := if |p.signals| % 2 == 0 then Error else InCodes,
            buttons := p.buttons + [Raw(p.name, p.code, p.signals)])
  }

  function AddSignals(p: Parser, line: Line): Parser
    decreases |line|
  {
    if line == [] || p.mode == Error then p
    else match Reading(line[0])
      case None => p.(mode := Error)
      case Some(v) => AddSignals(p.(signals := p.signals + [v]), line[1..])
  }

  /** One line of the section. */
  function ParsedLine(p: Parser, line: Line): Parser {
    if line == [] || p.mode == Error || p.mode == Finished then p
    else if |line| == 1 then if p.mode == InName then AddSignals(p, line) else p.(mode := Error)
    else if Is(line[0], "include") || Is(line[0], "begin") then p.(mode := Error)
    else if Is(line[0], "end") then
      if !Is(line[1], "raw_codes") then p.(mode := Error)
      else
        var c := Closed(p);
        if c.mode == Error then c else c.(mode := Finished)
    else if Is(line[0], "name") then
      var c := Closed(p);
      if c.mode == Error then c else Parser(InName, line[1], c.code + 1, [], c.buttons)
    else if p.mode == InCodes then p.(mode := Error)
    else AddSignals(p, line)
  }

  function Parsed(p: Parser, lines: seq<Line>): Parser
    decreases |lines|
  {
    if lines == [] then p else Parsed(ParsedLine(p, lines[0]), lines[1..])
  }

  const START := Parser(InCodes, Word("", None), 0, [], [])

  // ----- the round trip -----

  lemma {:induction false} ParsedConcat(p: Parser, a: seq<Line>, b: seq<Line>)
    ensures Parsed(p, a + b) == Parsed(Parsed(p, a), b)
    decreases |a|
  {
    if a == [] {
      assert a + b == b;
    } else {
      assert (a + b)[1..] == a[1..] + b;
      ParsedConcat(ParsedLine(p, a[0]), a[1..], b);
    }
  }

  lemma {:induction false} NumbersAdded(p: Parser, s: seq<nat>)
    requires p.mode == InName
    ensures AddSignals(p, Numbers(s)) == p.(signals := p.signals + s)
    decreases |s|
  {
    if s == [] {
      assert p.signals + s == p.signals;
    } else {
      assert Numbers(s)[1..] == Numbers(s[1..]);
      NumbersAdded(p.(signals := p.signals + [s[0]]), s[1..]);
      assert p.signals + [s[0]] + s[1..] == p.signals + s;
    }
  }

  lemma {:induction false} ChunksParsed(p: Parser, s: seq<nat>)
    requires p.mode == InName
    ensures Parsed(p, Chunks(s)) == p.(signals := p.signals + s)
    decreases |s|
  {
    if s == [] {
      assert p.signals + s == p.signals;
    } else {
      var n := if |s| <= 6 then |s| else 6;
      var line, rest := Numbers(s[..n]), s[n..];
      assert s[..|s|] == s;
      NumbersAdded(p, s[..n]);
      var q := p.(signals := p.signals + s[..n]);
      assert ParsedLine(p, line) == q;
      if |s| > 6 {
        assert Chunks(s) == [line] + Chunks(rest);
      } else {
        assert rest == [] && Chunks(s) == [line] + Chunks(rest);
      }
      ParsedConcat(p, [line], Chunks(rest));
      assert Parsed(p, [line]) == q by { ParsedOne(p, line); }
      ChunksParsed(q, rest);
      assert p.signals + s[..n] + s[n..] == p.signals + s;
    }
  }

  lemma ParsedOne(p: Parser, line: Line)
    ensures Parsed(p, [line]) == ParsedLine(p, line)
  {
    assert [line][1..] == [];
    assert Parsed(ParsedLine(p, line), []) == ParsedLine(p, line);
  }

  lemma {:induction false} ErrorStays(p: Parser, lines: seq<Line>)
    requires p.mode == Error
    ensures Parsed(p, lines) == p
    decreases |lines|
  {
    if lines == [] {
    } else {
      ErrorStays(p, lines[1..]);
    }
  }

  predicate Odd(b: Raw) {
    |b.signals| % 2 == 1
  }

  predicate AllOdd(bs: seq<Raw>) {
    forall i :: 0 <= i < |bs| ==> Odd(bs[i])
  }

  /** The buttons numbered from `from + 1`, as the parser numbers them. */
  function Numbered(bs: seq<Raw>, from: nat): seq<Raw> {
    seq(|bs|, i requires 0 <= i < |bs| => bs[i].(code := from + 1 + i))
  }

  lemma NameLine(p: Parser, name: Token)
    requires p.mode == InName || p.mode == InCodes
    ensures var c := Closed(p);
            ParsedLine(p, [Keyword("name"), name])
            == if c.mode == Error then c else Parser(InName, name, c.code + 1, [], c.buttons)
  {
    assert "name"[0] == 'n' && "include"[0] == 'i' && "begin"[0] == 'b' && |"end"| == 3;
  }

  lemma ButtonParsed(p: Parser, b: Raw)
    requires p.mode == InName || p.mode == InCodes
    ensures var c := Closed(p);
            Parsed(p, PrintedButton(b))
            == if c.mode == Error then c else Parser(InName, b.name, c.code + 1, b.signals, c.buttons)
  {
    hide ParsedLine, Closed;
    var line := [Keyword("name"), b.name];
    NameLine(p, b.name);
    var q := ParsedLine(p, line);
    ParsedOne(p, line);
    ParsedConcat(p, [line] + Chunks(b.signals), [[]]);
    ParsedConcat(p, [line], Chunks(b.signals));
    if q.mode == Error {
      ErrorStays(q, Chunks(b.signals));
      ErrorStays(q, [[]]);
    } else {
      ChunksParsed(q, b.signals);
      assert [] + b.signals == b.signals;
      var u := q.(signals := b.signals);
      ParsedOne(u, []);
      EmptyLine(u);
    }
  }

  lemma EmptyLine(p: Parser)
    ensures ParsedLine(p, []) == p
  {
  }

  lemma ClosedMode(p: Parser)
    ensures Closed(p).code == p.code && Closed(p).mode != InName
    ensures p.mode == InName ==> Closed(p).buttons == p.buttons + [Raw(p.name, p.code, p.signals)]
    ensures p.mode == InName ==> (Closed(p).mode != Error <==> |p.signals| % 2 == 1)
    ensures p.mode == Error ==> Closed(p) == p
  {
  }

  lemma {:induction false} ButtonsParsed(p: Parser, bs: seq<Raw>)
    requires p.mode == InName || p.mode == InCodes
    ensures var q := Parsed(p, PrintedButtons(bs));
            && q.mode != Finished
            && (Closed(q).mode != Error <==> Closed(p).mode != Error && AllOdd(bs))
            && (Closed(q).mode != Error ==> Closed(q).buttons == Closed(p).buttons + Numbered(bs, p.code))
    decreases |bs|
  {
    hide ParsedLine, Closed, AllOdd, Odd, PrintedButton;
    if bs == [] {
      assert Closed(p).buttons + Numbered([], p.code) == Closed(p).buttons;
      assert AllOdd(bs) by { NothingOdd(); }
    } else {
      var b, rest := bs[0], bs[1..];
      ClosedMode(p);
      ButtonParsed(p, b);
      ParsedConcat(p, PrintedButton(b), PrintedButtons(rest));
      var c := Closed(p);
      assert bs == [b] + rest;
      OddParts(bs);
      if c.mode == Error {
        ErrorStays(c, PrintedButtons(rest));
        ClosedMode(c);
      } else {
        var u := Parser(InName, b.name, c.code + 1, b.signals, c.buttons);
        ClosedMode(u);
        ButtonsParsed(u, rest);
        assert c.buttons + [Raw(b.name, c.code + 1, b.signals)] + Numbered(rest, u.code)
            == c.buttons + Numbered(bs, p.code);
      }
    }
  }

  lemma NothingOdd()
    ensures AllOdd([])
  {
  }

  lemma OddParts(bs: seq<Raw>)
    requires bs != []
    ensures AllOdd(bs) <==> Odd(bs[0]) && AllOdd(bs[1..])
    ensures (Odd(bs[0]) <==> |bs[0].signals| % 2 == 1)
  {
    if Odd(bs[0]) && AllOdd(bs[1..]) {
      forall i | 0 <= i < |bs|
        ensures Odd(bs[i])
      {
        if i > 0 { assert bs[i] == bs[1..][i - 1]; }
      }
    }
  }

  lemma EndLine(p: Parser)
    requires p.mode != Finished
    ensures ParsedLine(p, [Keyword("end"), Keyword("raw_codes")])
         == if Closed(p).mode == Error then Closed(p) else Closed(p).(mode := Finished)
  {
    assert "name"[0] == 'n' && "include"[0] == 'i' && "begin"[0] == 'b' && |"end"| == 3;
  }

  /** What was printed is read back, for any buttons, if and only if all signals are of odd length;
      otherwise reading fails. */
  lemma SectionRoundTrip(bs: seq<Raw>)
    ensures var p := Parsed(START, PrintedSection(bs));
            && (p.mode == Finished <==> AllOdd(bs)) && (p.mode == Error <==> !AllOdd(bs))
            && (AllOdd(bs) ==> p.buttons == Numbered(bs, 0))
  {
    hide ParsedLine, AllOdd;
    var end, lines := [Keyword("end"), Keyword("raw_codes")], PrintedButtons(bs);
    ParsedConcat(START, [[]], lines + [end, []]);
    assert PrintedSection(bs) == [[]] + (lines + [end, []]);
    ParsedOne(START, []);
    EmptyLine(START);
    ParsedConcat(START, lines, [end, []]);
    ButtonsParsed(START, bs);
    ClosedMode(START);
    var q := Parsed(START, lines);
    EndLine(q);
    assert [end, []] == [end] + [[]];
    ParsedConcat(q, [end], [[]]);
    ParsedOne(q, end);
    var u := ParsedLine(q, end);
    ParsedOne(u, []);
    EmptyLine(u);
    assert [] + Numbered(bs, 0) == Numbered(bs, 0);
  }

  /** The reader, line by line. */
  class Reader {
    var p: Parser

    constructor ()
      ensures p == START
    {
      p := START;
    }

    method CloseButton()
      modifies this
      ensures p == Closed(old(p))
    {
      if p.mode == InName {
        var odd := |p.signals| % 2 != 0;
        p := p.(buttons := p.buttons + [Raw(p.name, p.code, p.signals)], mode := if odd then InCodes else Error);
      }
    }

    method ReadSignals(line: Line)
      modifies this
      ensures p == AddSignals(old(p), line)
    {
      assert line[0..] == line;
      for i := 0 to |line|
        invariant AddSignals(p, line[i..]) == AddSignals(old(p), line)
        invariant i > 0 ==> p.mode != Error
      {
        if p.mode == Error {
          return;
        }
        assert line[i..][1..] == line[i + 1..];
        match Reading(line[i]) {
          case None =>
            p := p.(mode := Error);
            return;
          case Some(v) =>
            p := p.(signals := p.signals + [v]);
        }
      }
    }

    method ReadLine(line: Line)
      modifies this
      ensures p == ParsedLine(old(p), line)
    {
      if line == [] || p.mode == Error || p.mode == Finished {
        return;
      }
      if |line| == 1 {
        if p.mode == InName {
          ReadSignals(line);
        } else {
          p := p.(mode := Error);
        }
      } else if Is(line[0], "include") || Is(line[0], "begin") {
        p := p.(mode := Error);
      } else if Is(line[0], "end") {
        if Is(line[1], "raw_codes") {
          CloseButton();
          if p.mode != Error {
            p := p.(mode := Finished);
          }
        } else {
          p := p.(mode := Error);
        }
      } else if Is(line[0], "name") {
        CloseButton();
        if p.mode != Error {
          p := Parser(InName, line[1], p.code + 1, [], p.buttons);
        }
      } else if p.mode == InCodes {
        p := p.(mode := Error);
      } else {
        ReadSignals(line);
      }
    }

    method ReadLines(lines: seq<Line>)
      modifies this
      ensures p == Parsed(old(p), lines)
    {
      assert lines[0..] == lines;
      for i := 0 to |lines|
        invariant Parsed(p, lines[i..]) == Parsed(old(p), lines)
      {
        assert lines[i..][1..] == lines[i + 1..];
        ReadLine(lines[i]);
      }
    }
  }
}
