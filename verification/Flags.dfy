/** The flags of a remote as text: printed by dump_config.c, read by `parseFlags` in config_file.c. */
module Flags {
  import opened Options
  import opened Words
  import opened RawCodes

  /** A flag name and the bit it stands for. */
  datatype Entry = Entry(name: string, bit: nat)

  /** Bits 0 to 10 are the protocols (IR_PROTOCOL_MASK). */
  const PROTOCOL_BITS := 11

  const ALL_FLAGS: seq<Entry> := [
    Entry("RAW_CODES", 0), Entry("RC5", 1), Entry("SHIFT_ENC", 1), Entry("RC6", 2), Entry("RCMM", 3),
    Entry("SPACE_ENC", 4), Entry("SPACE_FIRST", 5), Entry("GOLDSTAR", 6), Entry("GRUNDIG", 7), Entry("BO", 8),
    Entry("SERIAL", 9), Entry("XMP", 10), Entry("REVERSE", 11), Entry("NO_HEAD_REP", 12),
    Entry("NO_FOOT_REP", 13), Entry("CONST_LENGTH", 14), Entry("REPEAT_HEADER", 15)]

  function Set(flags: Word, bit: nat): Word
    requires bit < 64
  {
    flags[63 - bit := true]
  }

  function Cleared(flags: Word, bit: nat): Word
    requires bit < 64
  {
    flags[63 - bit := false]
  }

  predicate IsTable(table: seq<Entry>) {
    forall i :: 0 <= i < |table| ==> table[i].bit < 64
  }

  // ----- printing -----

  /** The names printed: of each bit that is set, the first name in the table. */
  function Names(table: seq<Entry>, flags: Word): seq<string>
    requires IsTable(table)
    decreases |table|
  {
    if table == [] then []
    else if TestBit(flags, table[0].bit) then
      [table[0].name] + Names(table[1..], Cleared(flags, table[0].bit))
    else Names(table[1..], flags)
  }

  function Joined(names: seq<string>): string
    requires names != []
  {
    if |names| == 1 then names[0] else names[0] + "|" + Joined(names[1..])
  }

  lemma {:induction false} JoinedAppend(names: seq<string>, name: string)
    requires names != []
    ensures Joined(names + [name]) == Joined(names) + "|" + name
    decreases |names|
  {
    if |names| == 1 {
      assert (names + [name])[1..] == [name];
    } else {
      JoinedAppend(names[1..], name);
      assert (names + [name])[1..] == names[1..] + [name];
    }
  }

  /** `fprint_flags`; nothing is printed if no known flag is set. */
  method PrintFlags(table: seq<Entry>, flags: Word) returns (text: Option<string>)
    requires IsTable(table)
    ensures text == if Names(table, flags) == [] then None else Some(Joined(Names(table, flags)))
  {
    var f := flags;
    ghost var done: seq<string> := [];
    text := None;
    assert table[0..] == table;
    for i := 0 to |table|
      invariant Names(table, flags) == done + Names(table[i..], f)
      invariant text == if done == [] then None else Some(Joined(done))
    {
      assert table[i..][1..] == table[i + 1..];
      if TestBit(f, table[i].bit) {
        f := Cleared(f, table[i].bit);
        if text.None? {
          text := Some(table[i].name);
        } else {
          JoinedAppend(done, table[i].name);
          text := Some(text.value + "|" + table[i].name);
        }
        done := done + [table[i].name];
      }
    }
    assert done + [] == done;
  }

  // ----- parsing -----

  function Split(text: string): (names: seq<string>)
    ensures names != []
  {
    if text == [] then [[]]
    else
      var rest := Split(text[1..]);
      if text[0] == '|' then [[]] + rest else [[text[0]] + rest[0]] + rest[1..]
  }

  /** The first entry with this name, upper and lower case being the same. */
  function Lookup(table: seq<Entry>, name: string): (e: Option<Entry>)
    ensures e.Some? ==> e.value in table && SameText(e.value.name, name)
  {
    if table == [] then None
    else if SameText(table[0].name, name) then Some(table[0])
    else Lookup(table[1..], name)
  }

  predicate HasProtocol(flags: Word) {
    exists b :: 0 <= b < PROTOCOL_BITS && TestBit(flags, b)
  }

  /** One name: unknown names and a second protocol are errors. */
  function AddFlag(table: seq<Entry>, flags: Word, name: string): Option<Word>
    requires IsTable(table)
  {
    match Lookup(table, name)
    case None => None
    case Some(e) => if e.bit < PROTOCOL_BITS && HasProtocol(flags) then None else Some(Set(flags, e.bit))
  }

  function AddFlags(table: seq<Entry>, flags: Word, names: seq<string>): Option<Word>
    requires IsTable(table)
    decreases |names|
  {
    if names == [] then Some(flags)
    else match AddFlag(table, flags, names[0])
      case None => None
      case Some(f) => AddFlags(table, f, names[1..])
  }

  lemma {:induction false} SplitAt(text: string, k: nat)
    requires k <= |text| && forall i :: 0 <= i < k ==> text[i] != '|'
    ensures k < |text| && text[k] == '|' ==> Split(text) == [text[..k]] + Split(text[k + 1..])
    ensures k == |text| ==> Split(text) == [text]
    decreases |text|
  {
    if k == 0 {
    } else {
      SplitAt(text[1..], k - 1);
      assert text[1..][..k - 1] == text[1..k] && [text[0]] + text[1..k] == text[..k];
      if k < |text| { assert text[1..][k..] == text[k + 1..]; } else { assert [text[0]] + text[1..] == text; }
    }
  }

  method FindEntry(table: seq<Entry>, name: string) returns (e: Option<Entry>)
    ensures e == Lookup(table, name)
  {
    assert table[0..] == table;
    for i := 0 to |table|
      invariant Lookup(table, name) == Lookup(table[i..], name)
    {
      assert table[i..][1..] == table[i + 1..];
      if SameText(table[i].name, name) {
        return Some(table[i]);
      }
    }
    e := None;
  }

  lemma AddFlagsNext(table: seq<Entry>, f: Word, name: string, rest: seq<string>)
    requires IsTable(table)
    ensures AddFlags(table, f, [name] + rest)
         == match AddFlag(table, f, name) { case None => None case Some(u) => AddFlags(table, u, rest) }
    ensures AddFlags(table, f, [name]) == AddFlag(table, f, name)
  {
    assert ([name] + rest)[1..] == rest && [name][1..] == [];
  }

  /** `parseFlags`: the text is cut at each bar. */
  method ParseFlags(table: seq<Entry>, val: string) returns (flags: Option<Word>)
    requires IsTable(table)
    ensures flags == AddFlags(table, ZERO, Split(val))
  {
    hide AddFlag, AddFlags, Split, IsTable;
    var f, flag := ZERO, 0;
    assert val[0..] == val;
    var more := true;
    while more
      invariant flag <= |val|
      invariant AddFlags(table, ZERO, Split(val)) == if more then AddFlags(table, f, Split(val[flag..])) else Some(f)
      decreases |val| - flag, more
    {
      var help := flag;
      while help < |val| && val[help] != '|'
        invariant flag <= help <= |val| && forall i :: flag <= i < help ==> val[i] != '|'
      {
        help := help + 1;
      }
      SplitAt(val[flag..], help - flag);
      var name := val[flag..help];
      assert val[flag..][..help - flag] == name;
      assert help == |val| ==> val[flag..] == name;
      assert help < |val| ==> val[flag..][help - flag + 1..] == val[help + 1..];
      AddFlagsNext(table, f, name, if help < |val| then Split(val[help + 1..]) else []);
      var u := AddOne(table, f, name);
      if u.None? {
        return None;
      }
      f := u.value;
      if help < |val| {
        flag := help + 1;
      } else {
        more := false;
      }
    }
    return Some(f);
  }

  method AddOne(table: seq<Entry>, f: Word, name: string) returns (u: Option<Word>)
    requires IsTable(table)
    ensures u == AddFlag(table, f, name)
  {
    var e := FindEntry(table, name);
    if e.None? {
      return None;
    }
    if e.value.bit < PROTOCOL_BITS && HasProtocol(f) {
      return None;
    }
    return Some(Set(f, e.value.bit));
  }

  // ----- the round trip -----

  predicate NoBar(name: string) {
    forall i :: 0 <= i < |name| ==> name[i] != '|'
  }

  lemma {:induction false} SplitJoined(names: seq<string>)
    requires names != [] && forall i :: 0 <= i < |names| ==> NoBar(names[i])
    ensures Split(Joined(names)) == names
    decreases |names|
  {
    SplitAt(Joined(names), |names[0]|);
    if |names| == 1 {
      assert names == [names[0]];
    } else {
      assert Joined(names)[..|names[0]|] == names[0];
      assert Joined(names)[|names[0]| + 1..] == Joined(names[1..]);
      SplitJoined(names[1..]);
      assert names == [names[0]] + names[1..];
    }
  }

  /** Names that are the same up to case stand for the same bit, and none contains a bar. */
  ghost predicate Unambiguous(table: seq<Entry>) {
    && IsTable(table)
    && (forall i :: 0 <= i < |table| ==> NoBar(table[i].name))
    && forall e, g :: e in table && g in table && SameText(e.name, g.name) ==> e.bit == g.bit
  }

  predicate Knows(table: seq<Entry>, bit: nat) {
    exists i :: 0 <= i < |table| && table[i].bit == bit
  }

  /** The flags that have a name. */
  function Known(table: seq<Entry>, flags: Word): Word {
    seq(64, j requires 0 <= j < 64 => flags[j] && Knows(table, 63 - j))
  }

  function Union(a: Word, b: Word): Word {
    seq(64, j requires 0 <= j < 64 => a[j] || b[j])
  }

  ghost predicate TwoProtocols(flags: Word) {
    exists b, c :: 0 <= b < c < PROTOCOL_BITS && TestBit(flags, b) && TestBit(flags, c)
  }

  lemma LookupFinds(table: seq<Entry>, name: string, e: Entry)
    requires e in table && SameText(e.name, name)
    ensures Lookup(table, name).Some?
  {
  }

  lemma SameTextSymmetric(a: string, b: string, c: string)
    ensures SameText(a, a) && (SameText(a, b) ==> SameText(b, a))
  {
  }

  /** One name more: known flags go over into the result. */
  lemma KnownStep(s: seq<Entry>, acc: Word, f: Word)
    requires s != [] && IsTable(s)
    ensures var e := s[0];
            if TestBit(f, e.bit) then
              Union(acc, Known(s, f)) == Union(Set(acc, e.bit), Known(s[1..], Cleared(f, e.bit)))
            else Known(s, f) == Known(s[1..], f)
  {
    forall b: nat
      ensures Knows(s, b) <==> b == s[0].bit || Knows(s[1..], b)
    {
      if i :| 0 <= i < |s| && s[i].bit == b {
        if i > 0 { assert s[1..][i - 1].bit == b; }
      }
      if i :| 0 <= i < |s[1..]| && s[1..][i].bit == b { assert s[i + 1].bit == b; }
    }
  }

  lemma {:induction false} NamesAdded(table: seq<Entry>, s: seq<Entry>, acc: Word, f: Word)
    requires Unambiguous(table) && IsTable(s) && forall e :: e in s ==> e in table
    requires !TwoProtocols(acc) && forall j :: 0 <= j < 64 ==> !(acc[j] && f[j])
    ensures var all := Union(acc, Known(s, f));
            AddFlags(table, acc, Names(s, f)) == if TwoProtocols(all) then None else Some(all)
    decreases |s|
  {
    hide AddFlag, Unambiguous;
    if s == [] {
      assert Union(acc, Known([], f)) == acc;
    } else {
      KnownStep(s, acc, f);
      var e := s[0];
      if TestBit(f, e.bit) {
        AddsBit(table, acc, e);
        if e.bit < PROTOCOL_BITS && HasProtocol(acc) {
          var b :| 0 <= b < PROTOCOL_BITS && TestBit(acc, b);
          var all := Union(acc, Known(s, f));
          assert TestBit(all, b) && TestBit(all, e.bit) by { assert Knows(s, e.bit); }
        } else {
          OneProtocol(acc, e.bit);
          NamesAdded(table, s[1..], Set(acc, e.bit), Cleared(f, e.bit));
        }
      } else {
        NamesAdded(table, s[1..], acc, f);
      }
    }
  }

  lemma OneProtocol(acc: Word, bit: nat)
    requires bit < 64 && !TwoProtocols(acc) && !(bit < PROTOCOL_BITS && HasProtocol(acc))
    ensures !TwoProtocols(Set(acc, bit))
  {
    var u := Set(acc, bit);
    forall b, c | 0 <= b < c < PROTOCOL_BITS
      ensures !(TestBit(u, b) && TestBit(u, c))
    {
      if b != bit && c != bit {
        assert TestBit(u, b) == TestBit(acc, b) && TestBit(u, c) == TestBit(acc, c);
      } else {
        assert !TestBit(acc, if b == bit then c else b);
      }
    }
  }

  lemma AddsBit(table: seq<Entry>, acc: Word, e: Entry)
    requires Unambiguous(table) && e in table
    ensures AddFlag(table, acc, e.name)
         == if e.bit < PROTOCOL_BITS && HasProtocol(acc) then None else Some(Set(acc, e.bit))
  {
    SameTextSymmetric(e.name, e.name, e.name);
    LookupFinds(table, e.name, e);
  }

  lemma {:induction false} NamesHaveNoBar(table: seq<Entry>, f: Word)
    requires IsTable(table) && forall i :: 0 <= i < |table| ==> NoBar(table[i].name)
    ensures forall i :: 0 <= i < |Names(table, f)| ==> NoBar(Names(table, f)[i])
    decreases |table|
  {
    if table == [] {
    } else {
      NamesHaveNoBar(table[1..], if TestBit(f, table[0].bit) then Cleared(f, table[0].bit) else f);
    }
  }

  /** Flags that are printed and read again: all that have a name, if and only if they name at most
      one protocol; otherwise reading fails. */
  lemma FlagsRoundTrip(table: seq<Entry>, flags: Word)
    requires Unambiguous(table) && Names(table, flags) != []
    ensures AddFlags(table, ZERO, Split(Joined(Names(table, flags))))
         == if TwoProtocols(Known(table, flags)) then None else Some(Known(table, flags))
  {
    hide Names, AddFlags, TwoProtocols;
    NamesHaveNoBar(table, flags);
    SplitJoined(Names(table, flags));
    NoProtocols();
    NamesAdded(table, table, ZERO, flags);
    assert Union(ZERO, Known(table, flags)) == Known(table, flags);
  }

  lemma NoProtocols()
    ensures !TwoProtocols(ZERO)
  {
  }

  /** The place in the table of a name in use, told by its length and one of its letters. */
  function PlaceOf(name: string): nat {
    match |name|
    case 2 => 9
    case 3 => if Upper(name[2]) == '5' then 1 else if Upper(name[2]) == '6' then 3 else 11
    case 4 => 4
    case 6 => 10
    case 7 => if Upper(name[0]) == 'G' then 8 else 12
    case 8 => 7
    case 9 => if Upper(name[1]) == 'A' then 0 else if Upper(name[1]) == 'H' then 2 else 5
    case 11 => if Upper(name[3]) == 'C' then 6 else if Upper(name[3]) == 'H' then 13 else 14
    case 12 => 15
    case _ => 16
  }

  predicate InPlace(table: seq<Entry>) {
    forall i :: 0 <= i < |table| ==> PlaceOf(table[i].name) == i && table[i].bit < 64
  }

  lemma AllInPlace()
    ensures InPlace(ALL_FLAGS)
  {
  }

  lemma NoBarsInProtocols()
    ensures NoBar("RAW_CODES") && NoBar("RC5") && NoBar("SHIFT_ENC") && NoBar("RC6") && NoBar("RCMM")
    ensures NoBar("SPACE_ENC") && NoBar("SPACE_FIRST") && NoBar("GOLDSTAR") && NoBar("GRUNDIG") && NoBar("BO")
    ensures NoBar("SERIAL") && NoBar("XMP")
  {
  }

  lemma NoBarsInOptions()
    ensures NoBar("REVERSE") && NoBar("NO_HEAD_REP") && NoBar("NO_FOOT_REP") && NoBar("CONST_LENGTH")
    ensures NoBar("REPEAT_HEADER")
  {
  }

  lemma NoBars()
    ensures forall i :: 0 <= i < |ALL_FLAGS| ==> NoBar(ALL_FLAGS[i].name)
  {
    hide NoBar;
    NoBarsInProtocols();
    NoBarsInOptions();
  }

  /** All names in use differ, also when case is ignored. */
  lemma AllFlagsUnambiguous()
    ensures Unambiguous(ALL_FLAGS)
  {
    AllInPlace();
    NoBars();
    PlacesDiffer(ALL_FLAGS);
  }

  lemma PlacesDiffer(table: seq<Entry>)
    requires InPlace(table) && forall i :: 0 <= i < |table| ==> NoBar(table[i].name)
    ensures Unambiguous(table)
  {
    hide PlaceOf, SameText;
    forall e, g | e in table && g in table && SameText(e.name, g.name)
      ensures e.bit == g.bit
    {
      var i :| 0 <= i < |table| && table[i] == e;
      var j :| 0 <= j < |table| && table[j] == g;
      SamePlace(e.name, g.name);
    }
  }

  lemma SamePlace(a: string, b: string)
    requires SameText(a, b)
    ensures PlaceOf(a) == PlaceOf(b)
  {
  }
}
