/** The UIRT2 transmitter takes a signal as a REMSTRUCT1: a header, two lengths each for pulses and
    for spaces, a bit string that chooses between them, and a repeat count. */
module Uirt2 {
  import opened Options
  import opened Remotes
  import opened SendBuffers

  const UIRT2_MAX_BITS := 128
  const UCHAR_MAX := 255

  /** A byte as its eight bits, least significant first. */
  type Byte = b: seq<bool> | |b| == 8 witness [false, false, false, false, false, false, false, false]

  /** The structure sent to the device, lengths in its units. `data` is bDatBits and, behind it in
      memory, bCheck. */
  datatype RemStruct = RemStruct(delayHi: nat, delayLo: nat, bits: nat, hdr1: nat, hdr0: nat, on: Table, off: Table,
                                 data: seq<Byte>)

  /** The two lengths of a level; 0 stands for one not yet in use. */
  type Table = t: seq<nat> | |t| == 2 witness [0, 0]

  predicate DataBit(data: seq<Byte>, k: nat)
    requires k / 8 < |data|
  {
    data[k / 8][k % 8]
  }

  /** `set_data_bit` */
  method SetDataBit(dest: array<Byte>, offset: nat, bit: bool)
    requires offset / 8 < dest.Length
    modifies dest
    ensures forall k :: 0 <= k < 8 * dest.Length ==>
              DataBit(dest[..], k) == if k == offset then bit else old(DataBit(dest[..], k))
  {
    dest[offset / 8] := dest[offset / 8][offset % 8 := bit];
    forall k | 0 <= k < 8 * dest.Length
      ensures DataBit(dest[..], k) == if k == offset then bit else old(DataBit(dest[..], k))
    {
      assert k == 8 * (k / 8) + k % 8 && offset == 8 * (offset / 8) + offset % 8;
    }
  }

  // ----- how the device reads it -----

  /** The length of bit `k`: pulses in even places, spaces in odd ones. */
  function BitLength(m: RemStruct, k: nat): nat
    requires k / 8 < |m.data|
  {
    var table := if k % 2 == 0 then m.on else m.off;
    if DataBit(m.data, k) then table[1] else table[0]
  }

  function BitLengths(m: RemStruct, k: nat): (s: seq<nat>)
    requires k <= 8 * |m.data|
    ensures |s| == k
  {
    seq(k, i requires 0 <= i < k => BitLength(m, i))
  }

  function Sum(s: seq<nat>): nat {
    if s == [] then 0 else Sum(s[..|s| - 1]) + s[|s| - 1]
  }

  lemma BitLengthsNext(m: RemStruct, k: nat)
    requires k < 8 * |m.data|
    ensures BitLengths(m, k + 1) == BitLengths(m, k) + [BitLength(m, k)]
    ensures Sum(BitLengths(m, k + 1)) == Sum(BitLengths(m, k)) + BitLength(m, k)
  {
    assert BitLengths(m, k + 1)[..k] == BitLengths(m, k);
  }

  lemma NextBit(i: nat, n: nat)
    requires i < 8 * n
    ensures i / 8 < n
    ensures (i + 1) % 8 != 0 ==> (i + 1) / 8 == i / 8 && (i + 1) % 8 == i % 8 + 1
    ensures (i + 1) % 8 == 0 ==> i % 8 == 7
  {
  }

  /** What is left of the byte that bit `i` is in. */
  predicate Pending(m: RemStruct, i: nat, b: seq<bool>)
    requires i <= 8 * |m.data|
  {
    i % 8 != 0 ==> i / 8 < |m.data| && b == m.data[i / 8][i % 8..]
  }

  method NextDataBit(m: RemStruct, i: nat, b: seq<bool>) returns (bit: bool, c: seq<bool>)
    requires i < 8 * |m.data| && Pending(m, i, b)
    ensures i / 8 < |m.data| && bit == DataBit(m.data, i) && Pending(m, i + 1, c)
  {
    NextBit(i, |m.data|);
    var d := b;
    if i % 8 == 0 {
      d := m.data[i / 8];
    }
    bit, c := d[0], d[1..];
  }

  lemma NothingPending(m: RemStruct, b: seq<bool>)
    ensures Pending(m, 0, b) && Sum(BitLengths(m, 0)) == 0
  {
  }

  /** `calc_bits_length`: the bits are shifted out of each byte, low end first. */
  method CalcBitsLength(m: RemStruct, unit: nat) returns (len: nat)
    requires m.bits <= 8 * |m.data|
    ensures len == unit * Sum(BitLengths(m, m.bits))
  {
    hide Pending, DataBit, Sum;
    var b: seq<bool> := [];
    len := 0;
    NothingPending(m, b);
    for i := 0 to m.bits
      invariant Pending(m, i, b)
      invariant len == Sum(BitLengths(m, i))
    {
      var bit;
      bit, b := NextDataBit(m, i, b);
      if i % 2 == 1 {
        len := len + if bit then m.off[1] else m.off[0];
      } else {
        len := len + if bit then m.on[1] else m.on[0];
      }
      BitLengthsNext(m, i);
    }
    len := unit * len;
  }

  /** One transmission, and `n` of them with the delay between them. */
  function Once(m: RemStruct): seq<nat>
    requires m.bits <= 8 * |m.data|
  {
    [m.hdr1, m.hdr0] + BitLengths(m, m.bits)
  }

  function Repeated<T>(s: seq<T>, gap: T, n: nat): seq<T> {
    if n <= 1 then s else s + [gap] + Repeated(s, gap, n - 1)
  }

  // ----- compression -----

  /** `calc_data_bit`: the first table entry that the signal fits, or a free one. */
  function Choose(r: Remote, t: Table, d: nat, unit: nat): (c: (Table, Option<bool>))
    requires unit > 0
  {
    if t[0] == 0 then (t[0 := d / unit], Some(false))
    else if r.Expect(d, t[0] * unit) then (t, Some(false))
    else if t[1] == 0 then (t[1 := d / unit], Some(true))
    else if r.Expect(d, t[1] * unit) then (t, Some(true))
    else (t, None)
  }

  method CalcDataBit(r: Remote, table: array<nat>, d: nat, unit: nat) returns (bit: Option<bool>)
    requires unit > 0 && table.Length == 2
    modifies table
    ensures (table[..], bit) == Choose(r, old(table[..]), d, unit)
  {
    for i := 0 to 2
      invariant table[..] == old(table[..])
      invariant forall j :: 0 <= j < i ==> table[j] != 0 && !r.Expect(d, table[j] * unit)
    {
      if table[i] == 0 {
        table[i] := d / unit;
        return Some(i == 1);
      }
      if r.Expect(d, table[i] * unit) {
        return Some(i == 1);
      }
    }
    bit := None;
  }

  /** The tables and bits found so far, and in the end the number of transmissions. */
  datatype Scan = Scan(on: Table, off: Table, bits: seq<bool>, repeats: nat)

  const NOTHING_SCANNED := Scan([0, 0], [0, 0], [], 1)

  /** The buffer is `n` times the same part, the last time without the gap at its end. */
  predicate PartsSame(buf: seq<nat>, part: seq<nat>, n: nat)
    requires |part| > 0
  {
    if n <= 1 then n == 1 && buf == part[..|part| - 1]
    else |buf| >= |part| && buf[..|part|] == part && PartsSame(buf[|part|..], part, n - 1)
  }

  /** The part up to `i` ends with the gap and is repeated to the end of the buffer. */
  predicate RepeatsAfter(buf: seq<nat>, i: nat, gap: nat)
    requires i < |buf|
  {
    && i % 2 == 1 && buf[i] == gap && (|buf| + 1) % (i + 1) == 0
    && PartsSame(buf, buf[..i + 1], (|buf| + 1) / (i + 1))
  }

  /** The loop of `uirt2_send_mode2_struct1` from index `i` on. */
  function ScanFrom(r: Remote, gap: nat, buf: seq<nat>, unit: nat, i: nat, s: Scan): Option<Scan>
    requires unit > 0 && i <= |buf|
    decreases |buf| - i
  {
    if i == |buf| then Some(s)
    else if buf[i] / unit > UCHAR_MAX then None
    else if i < 2 then ScanFrom(r, gap, buf, unit, i + 1, s)
    else
      var (table, bit) := Choose(r, if i % 2 == 0 then s.on else s.off, buf[i], unit);
      if bit.None? then
        if RepeatsAfter(buf, i, gap) then Some(s.(repeats := (|buf| + 1) / (i + 1))) else None
      else if i - 2 > UIRT2_MAX_BITS then None
      else ScanFrom(r, gap, buf, unit, i + 1, Chosen(s, i, table, bit.value))
  }

  function Chosen(s: Scan, i: nat, table: Table, bit: bool): Scan {
    s.(on := if i % 2 == 0 then table else s.on, off := if i % 2 == 0 then s.off else table, bits := s.bits + [bit])
  }

  lemma ScanHeader(r: Remote, gap: nat, buf: seq<nat>, unit: nat)
    requires unit > 0 && |buf| >= 2 && buf[0] / unit <= UCHAR_MAX && buf[1] / unit <= UCHAR_MAX
    ensures ScanFrom(r, gap, buf, unit, 0, NOTHING_SCANNED) == ScanFrom(r, gap, buf, unit, 2, NOTHING_SCANNED)
  {
    hide Choose, RepeatsAfter;
    assert ScanFrom(r, gap, buf, unit, 1, NOTHING_SCANNED) == ScanFrom(r, gap, buf, unit, 2, NOTHING_SCANNED);
  }

  lemma ScanStep(r: Remote, gap: nat, buf: seq<nat>, unit: nat, i: nat, s: Scan, t: Table, bit: bool)
    requires unit > 0 && 2 <= i < |buf| && i - 2 <= UIRT2_MAX_BITS && buf[i] / unit <= UCHAR_MAX
    requires Choose(r, if i % 2 == 0 then s.on else s.off, buf[i], unit) == (t, Some(bit))
    ensures ScanFrom(r, gap, buf, unit, i, s) == ScanFrom(r, gap, buf, unit, i + 1, Chosen(s, i, t, bit))
  {
    hide Choose, RepeatsAfter;
  }

  lemma ScanEnd(r: Remote, gap: nat, buf: seq<nat>, unit: nat, i: nat, s: Scan)
    requires unit > 0 && 2 <= i < |buf| && i % 2 == 1 && buf[i] / unit <= UCHAR_MAX && RepeatsAfter(buf, i, gap)
    requires Choose(r, s.off, buf[i], unit).1.None?
    ensures ScanFrom(r, gap, buf, unit, i, s) == Some(s.(repeats := (|buf| + 1) / (i + 1)))
  {
    hide Choose, RepeatsAfter;
  }

  function HighByte(d: nat): nat {
    d / 256 % 256
  }

  function LowByte(d: nat): nat {
    d % 256
  }

  /** The structure sent for what was found. */
  predicate Packed(m: RemStruct, f: Scan, buf: seq<nat>, gap: nat, unit: nat)
    requires unit > 0
  {
    && |m.data| == UIRT2_MAX_BITS / 8 + 1
    && m.bits == |f.bits| <= 8 * |m.data| && m.on == f.on && m.off == f.off
    && m.hdr1 == (if |buf| > 0 then buf[0] / unit else 0) && m.hdr0 == (if |buf| > 1 then buf[1] / unit else 0)
    && m.delayHi == HighByte(gap / unit) && m.delayLo == LowByte(gap / unit)
    && forall k :: 0 <= k < |f.bits| ==> DataBit(m.data, k) == f.bits[k]
  }

  // ----- it is faithful -----

  /** The device's length `e`, in units, stands for the duration `d`. */
  predicate Close(r: Remote, unit: nat, d: nat, e: nat)
    requires unit > 0
  {
    e == d / unit || r.Expect(d, e * unit)
  }

  function Entry(f: Scan, k: nat): nat
    requires k < |f.bits|
  {
    var table := if k % 2 == 0 then f.on else f.off;
    if f.bits[k] then table[1] else table[0]
  }

  /** Entries in use stay as they are. */
  predicate Extends(t: Table, u: Table) {
    (t[0] != 0 ==> u[0] == t[0]) && (t[1] != 0 ==> u[1] == t[1])
  }

  lemma ChooseIsClose(r: Remote, t: Table, d: nat, unit: nat)
    requires unit > 0 && d >= unit && Choose(r, t, d, unit).1.Some?
    ensures var (u, bit) := Choose(r, t, d, unit);
            var e := if bit.value then u[1] else u[0];
            Extends(t, u) && e != 0 && Close(r, unit, d, e)
  {
    assert d / unit >= 1 by { WholeUnit(d, unit); }
  }

  lemma WholeUnit(d: nat, unit: nat)
    requires unit > 0 && d >= unit
    ensures d / unit >= 1
  {
  }

  /** Where the scan ended: at the end of the buffer, or at the gap before the first repetition. */
  predicate Ended(buf: seq<nat>, gap: nat, f: Scan) {
    if f.repeats == 1 then |f.bits| == if |buf| < 2 then 0 else |buf| - 2
    else
      && |f.bits| + 2 < |buf| && RepeatsAfter(buf, |f.bits| + 2, gap)
      && f.repeats == (|buf| + 1) / (|f.bits| + 3)
  }

  /** Bit `k` stands for its duration. */
  predicate StandsFor(r: Remote, buf: seq<nat>, unit: nat, f: Scan, k: nat)
    requires unit > 0
  {
    k + 2 < |buf| && k < |f.bits| && Close(r, unit, buf[k + 2], Entry(f, k))
  }

  /** From the state `s` of the scan on, what was found stands for the buffer, and the scan ended as
      it should. */
  predicate Completes(r: Remote, gap: nat, buf: seq<nat>, unit: nat, s: Scan, f: Scan)
    requires unit > 0
  {
    && Extends(s.on, f.on) && Extends(s.off, f.off) && s.bits <= f.bits && |f.bits| + 2 <= |buf| + 2
    && (forall k :: |s.bits| <= k < |f.bits| ==> StandsFor(r, buf, unit, f, k))
    && Ended(buf, gap, f)
    && (f.repeats != 1 ==> gap / unit <= UCHAR_MAX)
  }

  lemma ChosenCompletes(r: Remote, gap: nat, buf: seq<nat>, unit: nat, i: nat, s: Scan, f: Scan)
    requires unit > 0 && 2 <= i < |buf| && buf[i] >= unit && |s.bits| == i - 2
    requires var (table, bit) := Choose(r, if i % 2 == 0 then s.on else s.off, buf[i], unit);
             bit.Some? && Completes(r, gap, buf, unit, Chosen(s, i, table, bit.value), f)
    ensures Completes(r, gap, buf, unit, s, f)
  {
    hide Close, Ended, Choose, Extends;
    var (table, bit) := Choose(r, if i % 2 == 0 then s.on else s.off, buf[i], unit);
    ChooseIsClose(r, if i % 2 == 0 then s.on else s.off, buf[i], unit);
    var u := Chosen(s, i, table, bit.value);
    FirstBits(s.bits, bit.value, f.bits);
    Parity(i);
    if i % 2 == 0 { ExtendsOn(s.on, table, f.on, bit.value); } else { ExtendsOn(s.off, table, f.off, bit.value); }
    assert Entry(f, i - 2) == if bit.value then table[1] else table[0];
    assert StandsFor(r, buf, unit, f, i - 2);
  }

  lemma FirstBits(a: seq<bool>, b: bool, c: seq<bool>)
    requires a + [b] <= c
    ensures a <= c && |a| < |c| && c[|a|] == b
  {
    assert (a + [b])[|a|] == b;
  }

  lemma ExtendsOn(t: Table, u: Table, v: Table, bit: bool)
    requires Extends(t, u) && Extends(u, v)
    ensures Extends(t, v) && (u[if bit then 1 else 0] != 0 ==> v[if bit then 1 else 0] == u[if bit then 1 else 0])
  {
  }

  lemma Parity(i: nat)
    requires i >= 2
    ensures (i - 2) % 2 == i % 2
  {
  }

  lemma {:induction false} ScanIsClose(r: Remote, gap: nat, buf: seq<nat>, unit: nat, i: nat, s: Scan)
    requires unit > 0 && i <= |buf| && (forall k :: 0 <= k < |buf| ==> buf[k] >= unit)
    requires |s.bits| == (if i < 2 then 0 else i - 2) && s.repeats == 1
    requires ScanFrom(r, gap, buf, unit, i, s).Some?
    ensures Completes(r, gap, buf, unit, s, ScanFrom(r, gap, buf, unit, i, s).value)
    decreases |buf| - i
  {
    hide Close, RepeatsAfter, Choose, Entry, Completes;
    if i == |buf| {
      EndCompletes(r, gap, buf, unit, s);
    } else if i < 2 {
      ScanIsClose(r, gap, buf, unit, i + 1, s);
    } else {
      var (table, bit) := Choose(r, if i % 2 == 0 then s.on else s.off, buf[i], unit);
      if bit.Some? {
        ScanIsClose(r, gap, buf, unit, i + 1, Chosen(s, i, table, bit.value));
        ChosenCompletes(r, gap, buf, unit, i, s, ScanFrom(r, gap, buf, unit, i, s).value);
      } else {
        GapCompletes(r, gap, buf, unit, i, s);
      }
    }
  }

  lemma EndCompletes(r: Remote, gap: nat, buf: seq<nat>, unit: nat, s: Scan)
    requires unit > 0 && |s.bits| == (if |buf| < 2 then 0 else |buf| - 2) && s.repeats == 1
    ensures Completes(r, gap, buf, unit, s, s)
  {
  }

  lemma GapCompletes(r: Remote, gap: nat, buf: seq<nat>, unit: nat, i: nat, s: Scan)
    requires unit > 0 && 2 <= i < |buf| && |s.bits| == i - 2 && RepeatsAfter(buf, i, gap) && buf[i] / unit <= UCHAR_MAX
    ensures Completes(r, gap, buf, unit, s, s.(repeats := (|buf| + 1) / (i + 1)))
  {
    hide RepeatsAfter;
    GapFound(buf, i, gap);
  }

  lemma GapFound(buf: seq<nat>, i: nat, gap: nat)
    requires i < |buf| && RepeatsAfter(buf, i, gap)
    ensures buf[i] == gap && (|buf| + 1) / (i + 1) >= 2
  {
    WholeParts(|buf| + 1, i + 1);
  }

  lemma WholeParts(a: nat, m: nat)
    requires m > 0 && a % m == 0 && a > m
    ensures a / m >= 2 && a == (a / m) * m && a >= 2 * m
  {
  }

  lemma {:induction false} PartsRepeat(buf: seq<nat>, part: seq<nat>, n: nat)
    requires |part| > 0 && PartsSame(buf, part, n)
    ensures buf == Repeated(part[..|part| - 1], part[|part| - 1], n)
    decreases n
  {
    if n > 1 {
      PartsRepeat(buf[|part|..], part, n - 1);
      assert part == part[..|part| - 1] + [part[|part| - 1]];
      assert buf == part + buf[|part|..];
    }
  }

  /** `s` stands for `d`, position by position. */
  ghost predicate AllClose(r: Remote, unit: nat, d: seq<nat>, s: seq<nat>)
    requires unit > 0
  {
    |s| == |d| && forall k :: 0 <= k < |d| ==> Close(r, unit, d[k], s[k])
  }

  lemma {:induction false} RepeatedClose(r: Remote, unit: nat, d: seq<nat>, s: seq<nat>, gap: nat, e: nat, n: nat)
    requires unit > 0 && AllClose(r, unit, d, s) && (n > 1 ==> Close(r, unit, gap, e))
    ensures AllClose(r, unit, Repeated(d, gap, n), Repeated(s, e, n))
    decreases n
  {
    hide Close;
    if n > 1 {
      RepeatedClose(r, unit, d, s, gap, e, n - 1);
    }
  }

  /** The structure found for a buffer of durations of at least one unit. */
  ghost predicate Compresses(r: Remote, gap: nat, buf: seq<nat>, unit: nat, f: Scan, m: RemStruct) {
    && unit > 0 && |buf| >= 2 && (forall k :: 0 <= k < |buf| ==> buf[k] >= unit)
    && ScanFrom(r, gap, buf, unit, 0, NOTHING_SCANNED) == Some(f) && Packed(m, f, buf, gap, unit)
  }

  lemma EntryIsLength(gap: nat, buf: seq<nat>, unit: nat, f: Scan, m: RemStruct, k: nat)
    requires unit > 0 && Packed(m, f, buf, gap, unit) && k < m.bits
    ensures BitLength(m, k) == Entry(f, k)
  {
  }

  lemma BitClose(r: Remote, gap: nat, buf: seq<nat>, unit: nat, f: Scan, m: RemStruct)
    requires Compresses(r, gap, buf, unit, f, m)
    ensures Ended(buf, gap, f) && 2 + m.bits <= |buf| && (f.repeats != 1 ==> gap / unit <= UCHAR_MAX)
    ensures forall k :: 0 <= k < m.bits ==> Close(r, unit, buf[k + 2], BitLength(m, k))
  {
    hide ScanFrom, Close;
    ScanIsClose(r, gap, buf, unit, 0, NOTHING_SCANNED);
    forall k | 0 <= k < m.bits
      ensures Close(r, unit, buf[k + 2], BitLength(m, k))
    {
      assert StandsFor(r, buf, unit, f, k);
      EntryIsLength(gap, buf, unit, f, m, k);
    }
  }

  lemma OnceClose(r: Remote, gap: nat, buf: seq<nat>, unit: nat, f: Scan, m: RemStruct)
    requires Compresses(r, gap, buf, unit, f, m)
    ensures 2 + m.bits <= |buf| && AllClose(r, unit, buf[..2 + m.bits], Once(m))
  {
    hide ScanFrom, BitLength, Ended;
    BitClose(r, gap, buf, unit, f, m);
    var p, s := buf[..2 + m.bits], Once(m);
    forall j | 0 <= j < |p|
      ensures Close(r, unit, p[j], s[j])
    {
      if j >= 2 {
        assert s[j] == BitLength(m, j - 2) && p[j] == buf[j - 2 + 2];
      }
    }
  }

  function Delay(m: RemStruct): nat {
    256 * m.delayHi + m.delayLo
  }

  /** The structure, bCheck included, is the buffer that was compressed: as many durations, each the
      same in whole units or within tolerance, and all repetitions alike. */
  lemma StructureIsFaithful(r: Remote, gap: nat, buf: seq<nat>, unit: nat, f: Scan, m: RemStruct)
    requires Compresses(r, gap, buf, unit, f, m)
    ensures 2 + m.bits <= |buf| && buf == Repeated(buf[..2 + m.bits], gap, f.repeats)
    ensures AllClose(r, unit, buf, Repeated(Once(m), Delay(m), f.repeats))
  {
    hide ScanFrom, Close, Once, AllClose, RepeatsAfter, Compresses;
    OnceClose(r, gap, buf, unit, f, m);
    BitClose(r, gap, buf, unit, f, m);
    var p := buf[..2 + m.bits];
    CompressesParts(r, gap, buf, unit, f, m);
    if f.repeats == 1 {
      assert p == buf;
    } else {
      GapRepeats(buf, gap, 2 + m.bits);
      SmallDelay(gap / unit, m.delayHi, m.delayLo);
      ExactIsClose(r, unit, gap);
    }
    RepeatedClose(r, unit, p, Once(m), gap, Delay(m), f.repeats);
  }

  // ----- the bit field has an end -----

  lemma {:induction false} ScanBits(r: Remote, gap: nat, buf: seq<nat>, unit: nat, i: nat, s: Scan)
    requires unit > 0 && i <= |buf| && |s.bits| == (if i < 2 then 0 else i - 2) <= UIRT2_MAX_BITS + 1
    requires ScanFrom(r, gap, buf, unit, i, s).Some?
    ensures |ScanFrom(r, gap, buf, unit, i, s).value.bits| <= UIRT2_MAX_BITS + 1
    decreases |buf| - i
  {
    hide Choose, RepeatsAfter;
    if i < 2 && i < |buf| {
      ScanBits(r, gap, buf, unit, i + 1, s);
    } else if i < |buf| {
      var (table, bit) := Choose(r, if i % 2 == 0 then s.on else s.off, buf[i], unit);
      if bit.Some? { ScanBits(r, gap, buf, unit, i + 1, Chosen(s, i, table, bit.value)); }
    }
  }

  lemma EndedParts(buf: seq<nat>, gap: nat, f: Scan)
    requires Ended(buf, gap, f) && |buf| >= 2
    ensures f.repeats == 1 ==> |f.bits| == |buf| - 2
    ensures f.repeats != 1 ==> |buf| + 1 >= 2 * (|f.bits| + 3)
  {
    if f.repeats != 1 {
      assert (|buf| + 1) % (|f.bits| + 3) == 0;
      WholeParts(|buf| + 1, |f.bits| + 3);
    }
  }

  /** The bits overflow their field for exactly one length of buffer, and one duration less always
      fits. */
  lemma BitsOverflow(r: Remote, gap: nat, buf: seq<nat>, unit: nat, f: Scan)
    requires unit > 0 && 2 <= |buf| <= WBUF_SIZE && forall k :: 0 <= k < |buf| ==> buf[k] >= unit
    requires ScanFrom(r, gap, buf, unit, 0, NOTHING_SCANNED) == Some(f)
    ensures |f.bits| > UIRT2_MAX_BITS <==> |buf| == UIRT2_MAX_BITS + 3 && f.repeats == 1
    ensures |f.bits| <= UIRT2_MAX_BITS + 1
    ensures |buf| <= UIRT2_MAX_BITS + 2 ==> |f.bits| <= UIRT2_MAX_BITS
  {
    hide ScanFrom, Ended;
    ScanIsClose(r, gap, buf, unit, 0, NOTHING_SCANNED);
    ScanBits(r, gap, buf, unit, 0, NOTHING_SCANNED);
    EndedParts(buf, gap, f);
  }

  /** What the device gets: older firmware has the checksum of the message in the place of bCheck. */
  function Transmitted(m: RemStruct, check: Byte): RemStruct
    requires |m.data| == UIRT2_MAX_BITS / 8 + 1
  {
    m.(data := m.data[..UIRT2_MAX_BITS / 8] + [check])
  }

  lemma TransmittedBits(m: RemStruct, check: Byte, k: nat)
    requires |m.data| == UIRT2_MAX_BITS / 8 + 1 && k <= UIRT2_MAX_BITS
    ensures k < UIRT2_MAX_BITS ==> BitLength(Transmitted(m, check), k) == BitLength(m, k)
    ensures k == UIRT2_MAX_BITS ==> BitLength(Transmitted(m, check), k) == if check[0] then m.on[1] else m.on[0]
  {
  }

  /** What the device makes of a structure whose bits fit their field is the buffer that was
      compressed, whatever the checksum. */
  lemma CompressionIsFaithful(r: Remote, gap: nat, buf: seq<nat>, unit: nat, f: Scan, m: RemStruct, check: Byte)
    requires Compresses(r, gap, buf, unit, f, m) && m.bits <= UIRT2_MAX_BITS
    ensures 2 + m.bits <= |buf| && buf == Repeated(buf[..2 + m.bits], gap, f.repeats)
    ensures AllClose(r, unit, buf, Repeated(Once(Transmitted(m, check)), Delay(m), f.repeats))
  {
    hide Compresses, AllClose, BitLength, Close;
    StructureIsFaithful(r, gap, buf, unit, f, m);
    CompressesParts(r, gap, buf, unit, f, m);
    forall k | 0 <= k < m.bits
      ensures BitLength(Transmitted(m, check), k) == BitLength(m, k)
    {
      TransmittedBits(m, check, k);
    }
    assert Once(Transmitted(m, check)) == Once(m);
  }

  /** A byte as a number, and a number as a byte. */
  function Weight(b: bool, k: nat): nat {
    if b then k else 0
  }

  function ByteValue(b: Byte): nat {
    Weight(b[0], 1) + Weight(b[1], 2) + Weight(b[2], 4) + Weight(b[3], 8) + Weight(b[4], 16) + Weight(b[5], 32)
      + Weight(b[6], 64) + Weight(b[7], 128)
  }

  function ByteOf(n: nat): Byte {
    [n % 2 == 1, n / 2 % 2 == 1, n / 4 % 2 == 1, n / 8 % 2 == 1, n / 16 % 2 == 1, n / 32 % 2 == 1, n / 64 % 2 == 1,
     n / 128 % 2 == 1]
  }

  function DataSum(data: seq<Byte>): nat {
    if data == [] then 0 else DataSum(data[..|data| - 1]) + ByteValue(data[|data| - 1])
  }

  /** The checksum of the message for older firmware, the command byte first. */
  function Checksum(command: nat, m: RemStruct): Byte
    requires |m.data| == UIRT2_MAX_BITS / 8 + 1
  {
    var sum := command + m.delayHi + m.delayLo + m.bits + m.hdr1 + m.hdr0 + m.off[0] + m.off[1] + m.on[0] + m.on[1]
                 + DataSum(m.data[..UIRT2_MAX_BITS / 8]);
    ByteOf((-sum) % 256)
  }

  /** The bytes of the message in order, but the checksum. */
  function MessageBytes(command: nat, m: RemStruct): seq<nat>
    requires |m.data| == UIRT2_MAX_BITS / 8 + 1
  {
    [command, m.delayHi, m.delayLo, m.bits, m.hdr1, m.hdr0, m.off[0], m.off[1], m.on[0], m.on[1]]
      + Values(m.data[..UIRT2_MAX_BITS / 8])
  }

  function Values(data: seq<Byte>): (v: seq<nat>)
    ensures |v| == |data|
  {
    seq(|data|, i requires 0 <= i < |data| => ByteValue(data[i]))
  }

  function SumOf(v: seq<nat>): nat {
    if v == [] then 0 else SumOf(v[..|v| - 1]) + v[|v| - 1]
  }

  lemma {:induction false} SumOfMore(v: seq<nat>, w: seq<nat>)
    ensures SumOf(v + w) == SumOf(v) + SumOf(w)
    decreases |w|
  {
    if w == [] {
      assert v + w == v;
    } else {
      assert (v + w)[..|v + w| - 1] == v + w[..|w| - 1];
      SumOfMore(v, w[..|w| - 1]);
    }
  }

  lemma {:induction false} DataSumIsSum(data: seq<Byte>)
    ensures DataSum(data) == SumOf(Values(data))
    decreases |data|
  {
    if data != [] {
      DataSumIsSum(data[..|data| - 1]);
      assert Values(data)[..|data| - 1] == Values(data[..|data| - 1]);
    }
  }

  function Shifted(n: nat, k: nat): nat
    requires k > 0
  {
    n / k
  }

  function LowBit(n: nat): nat {
    n % 2
  }

  lemma Halved(n: nat, k: nat)
    requires k == 1 || k == 2 || k == 4 || k == 8 || k == 16 || k == 32 || k == 64
    ensures Shifted(n, k) == 2 * Shifted(n, 2 * k) + LowBit(Shifted(n, k))
  {
  }

  lemma BitsAre(n: nat)
    requires n < 256
    ensures var b := ByteOf(n);
            && b[0] == (LowBit(Shifted(n, 1)) == 1) && b[1] == (LowBit(Shifted(n, 2)) == 1)
            && b[2] == (LowBit(Shifted(n, 4)) == 1) && b[3] == (LowBit(Shifted(n, 8)) == 1)
            && b[4] == (LowBit(Shifted(n, 16)) == 1) && b[5] == (LowBit(Shifted(n, 32)) == 1)
            && b[6] == (LowBit(Shifted(n, 64)) == 1) && b[7] == (LowBit(Shifted(n, 128)) == 1)
    ensures Shifted(n, 1) == n && Shifted(n, 128) == LowBit(Shifted(n, 128))
  {
  }

  lemma Weighs(n: nat, b: bool, k: nat)
    requires b == (LowBit(n) == 1)
    ensures Weight(b, k) == k * LowBit(n)
  {
  }

  lemma NibbleSum(n: nat, a: nat, b: nat, c: nat, d: nat, x: nat, y: nat, z: nat, w: nat)
    requires n == 2 * a + x && a == 2 * b + y && b == 2 * c + z && c == 2 * d + w
    ensures x + 2 * y + 4 * z + 8 * w == n - 16 * d
  {
  }

  lemma LowNibble(n: nat)
    requires n < 256
    ensures var b := ByteOf(n);
            Weight(b[0], 1) + Weight(b[1], 2) + Weight(b[2], 4) + Weight(b[3], 8) == n - 16 * Shifted(n, 16)
  {
    hide LowBit, Shifted, ByteOf, Weight;
    var b := ByteOf(n);
    BitsAre(n);
    Weighs(Shifted(n, 1), b[0], 1);
    Weighs(Shifted(n, 2), b[1], 2);
    Weighs(Shifted(n, 4), b[2], 4);
    Weighs(Shifted(n, 8), b[3], 8);
    Halved(n, 1);
    Halved(n, 2);
    Halved(n, 4);
    Halved(n, 8);
    NibbleSum(n, Shifted(n, 2), Shifted(n, 4), Shifted(n, 8), Shifted(n, 16), LowBit(Shifted(n, 1)),
              LowBit(Shifted(n, 2)), LowBit(Shifted(n, 4)), LowBit(Shifted(n, 8)));
  }

  lemma HighNibble(n: nat)
    requires n < 256
    ensures var b := ByteOf(n);
            Weight(b[4], 16) + Weight(b[5], 32) + Weight(b[6], 64) + Weight(b[7], 128) == 16 * Shifted(n, 16)
  {
    hide LowBit, Shifted, ByteOf, Weight;
    var b := ByteOf(n);
    BitsAre(n);
    Weighs(Shifted(n, 16), b[4], 16);
    Weighs(Shifted(n, 32), b[5], 32);
    Weighs(Shifted(n, 64), b[6], 64);
    Weighs(Shifted(n, 128), b[7], 128);
    Halved(n, 16);
    Halved(n, 32);
    Halved(n, 64);
    NibbleSum(Shifted(n, 16), Shifted(n, 32), Shifted(n, 64), Shifted(n, 128), 0, LowBit(Shifted(n, 16)),
              LowBit(Shifted(n, 32)), LowBit(Shifted(n, 64)), LowBit(Shifted(n, 128)));
  }

  lemma ByteOfValue(n: nat)
    requires n < 256
    ensures ByteValue(ByteOf(n)) == n
  {
    hide Shifted, ByteOf, Weight;
    LowNibble(n);
    HighNibble(n);
  }

  lemma SumOfTen(a: nat, b: nat, c: nat, d: nat, e: nat, f: nat, g: nat, h: nat, i: nat, j: nat)
    ensures SumOf([a, b, c, d, e, f, g, h, i, j]) == a + b + c + d + e + f + g + h + i + j
  {
    var v := [a, b, c, d, e, f, g, h, i, j];
    assert v == [a, b, c, d, e] + [f, g, h, i, j];
    SumOfMore([a, b, c, d, e], [f, g, h, i, j]);
    SumOfFive(a, b, c, d, e);
    SumOfFive(f, g, h, i, j);
  }

  lemma SumOfFive(a: nat, b: nat, c: nat, d: nat, e: nat)
    ensures SumOf([a, b, c, d, e]) == a + b + c + d + e
  {
    assert [a, b, c, d, e][..4] == [a, b, c, d] && [a, b, c, d][..3] == [a, b, c];
    assert [a, b, c][..2] == [a, b] && [a, b][..1] == [a] && [a][..0] == [];
    assert SumOf([a]) == a && SumOf([a, b]) == a + b && SumOf([a, b, c]) == a + b + c;
  }

  /** With the checksum the bytes of the message add up to 0. */
  lemma ChecksumCompletes(command: nat, m: RemStruct)
    requires |m.data| == UIRT2_MAX_BITS / 8 + 1
    ensures (SumOf(MessageBytes(command, m)) + ByteValue(Checksum(command, m))) % 256 == 0
  {
    hide SumOf, DataSum, ByteOf, ByteValue, Values;
    var data := m.data[..UIRT2_MAX_BITS / 8];
    var head := [command, m.delayHi, m.delayLo, m.bits, m.hdr1, m.hdr0, m.off[0], m.off[1], m.on[0], m.on[1]];
    SumOfTen(command, m.delayHi, m.delayLo, m.bits, m.hdr1, m.hdr0, m.off[0], m.off[1], m.on[0], m.on[1]);
    SumOfMore(head, Values(data));
    DataSumIsSum(data);
    var sum := SumOf(head) + DataSum(data);
    ByteOfValue((-sum) % 256);
    Complement(sum);
  }

  lemma Complement(n: int)
    ensures (n + (-n) % 256) % 256 == 0
  {
  }

  /** If they do not fit, it is so exactly if the last duration happens to be close to the one that
      the lowest bit of the checksum chooses. */
  lemma OverflowIsFaithful(r: Remote, gap: nat, buf: seq<nat>, unit: nat, f: Scan, m: RemStruct, check: Byte)
    requires Compresses(r, gap, buf, unit, f, m) && |buf| <= WBUF_SIZE && m.bits > UIRT2_MAX_BITS
    ensures |buf| == UIRT2_MAX_BITS + 3 && f.repeats == 1
    ensures AllClose(r, unit, buf, Repeated(Once(Transmitted(m, check)), Delay(m), f.repeats))
       <==> Close(r, unit, buf[UIRT2_MAX_BITS + 2], if check[0] then m.on[1] else m.on[0])
  {
    hide Compresses, BitLength, Close;
    CompressesScan(r, gap, buf, unit, f, m);
    BitsOverflow(r, gap, buf, unit, f);
    CompressesParts(r, gap, buf, unit, f, m);
    StructureIsFaithful(r, gap, buf, unit, f, m);
    var s, t := Once(m), Once(Transmitted(m, check));
    forall j | 0 <= j < UIRT2_MAX_BITS + 2
      ensures t[j] == s[j] && Close(r, unit, buf[j], t[j])
    {
      if j >= 2 { TransmittedBits(m, check, j - 2); }
    }
    TransmittedBits(m, check, UIRT2_MAX_BITS);
  }

  /** Older firmware has five bits for the number of transmissions. */
  function SentRepeats(n: nat): nat {
    if n > 31 then 31 else n
  }

  lemma {:induction false} RepeatedShorter<T>(s: seq<T>, gap: T, m: nat, n: nat)
    requires 1 <= m < n
    ensures |Repeated(s, gap, m)| < |Repeated(s, gap, n)|
    decreases n
  {
    if m + 1 < n {
      RepeatedShorter(s, gap, m, n - 1);
      RepeatedGrows(s, gap, n);
    } else {
      RepeatedGrows(s, gap, n);
    }
  }

  lemma {:induction false} RepeatedGrows<T>(s: seq<T>, gap: T, n: nat)
    requires n >= 2
    ensures |Repeated(s, gap, n - 1)| < |Repeated(s, gap, n)|
  {
  }

  /** A gap that ends a part comes after two lengths of spaces, so that a part has eight durations or
      more. */
  lemma {:induction false} PartsAreLong(r: Remote, gap: nat, buf: seq<nat>, unit: nat, i: nat, s: Scan)
    requires unit > 0 && i <= |buf| && |s.bits| == (if i < 2 then 0 else i - 2) && s.repeats == 1
    requires (i <= 3 ==> s.off[0] == 0) && (i <= 5 ==> s.off[1] == 0)
    requires ScanFrom(r, gap, buf, unit, i, s).Some?
    ensures var f := ScanFrom(r, gap, buf, unit, i, s).value; f.repeats == 1 || |f.bits| >= 5
    decreases |buf| - i
  {
    hide PartsSame, Remote.Expect;
    if i < 2 && i < |buf| {
      PartsAreLong(r, gap, buf, unit, i + 1, s);
    } else if i < |buf| {
      var (table, bit) := Choose(r, if i % 2 == 0 then s.on else s.off, buf[i], unit);
      if bit.Some? { PartsAreLong(r, gap, buf, unit, i + 1, Chosen(s, i, table, bit.value)); }
    }
  }

  lemma PartsFit(length: nat, part: nat)
    requires part >= 8 && part % 2 == 0 && length % part == 0 && length <= 257
    ensures length / part > 31 <==> length == 256 && part == 8
  {
    if part > 8 { FewParts(length, part); }
  }

  lemma FewParts(length: nat, part: nat)
    requires part >= 10 && length <= 257
    ensures length / part <= 25
  {
  }

  /** In the transmit buffer there are more than 31 parts only if it is 32 times the same eight
      durations, less the last gap. */
  lemma ManyParts(r: Remote, gap: nat, buf: seq<nat>, unit: nat, f: Scan)
    requires unit > 0 && 2 <= |buf| <= WBUF_SIZE && forall k :: 0 <= k < |buf| ==> buf[k] >= unit
    requires ScanFrom(r, gap, buf, unit, 0, NOTHING_SCANNED) == Some(f)
    ensures f.repeats > 31 <==> |buf| == 255 && |f.bits| == 5
  {
    hide ScanFrom, PartsSame, AllClose, Close;
    ScanIsClose(r, gap, buf, unit, 0, NOTHING_SCANNED);
    PartsAreLong(r, gap, buf, unit, 0, NOTHING_SCANNED);
    if f.repeats != 1 { PartsFit(|buf| + 1, |f.bits| + 3); }
  }

  /** There, the buffer is transmitted whole unless it is 32 parts of eight durations. */
  lemma OlderFirmwareRepeats(r: Remote, gap: nat, buf: seq<nat>, unit: nat, f: Scan, m: RemStruct, check: Byte)
    requires Compresses(r, gap, buf, unit, f, m) && |buf| <= WBUF_SIZE && m.bits <= UIRT2_MAX_BITS
    ensures AllClose(r, unit, buf, Repeated(Once(Transmitted(m, check)), Delay(m), SentRepeats(f.repeats)))
       <==> !(|buf| == 255 && m.bits == 5)
  {
    hide Compresses, BitLength, Close, Once;
    CompressesParts(r, gap, buf, unit, f, m);
    CompressesScan(r, gap, buf, unit, f, m);
    ManyParts(r, gap, buf, unit, f);
    CompressionIsFaithful(r, gap, buf, unit, f, m, check);
    if f.repeats > 31 { RepeatedShorter(Once(Transmitted(m, check)), Delay(m), 31, f.repeats); }
  }

  lemma CompressesScan(r: Remote, gap: nat, buf: seq<nat>, unit: nat, f: Scan, m: RemStruct)
    requires Compresses(r, gap, buf, unit, f, m)
    ensures unit > 0 && |buf| >= 2 && forall k :: 0 <= k < |buf| ==> buf[k] >= unit
    ensures ScanFrom(r, gap, buf, unit, 0, NOTHING_SCANNED) == Some(f)
  {
  }

  lemma CompressesParts(r: Remote, gap: nat, buf: seq<nat>, unit: nat, f: Scan, m: RemStruct)
    requires Compresses(r, gap, buf, unit, f, m)
    ensures unit > 0 && |buf| >= 2 && m.bits == |f.bits| <= 8 * |m.data| && |m.data| == UIRT2_MAX_BITS / 8 + 1
    ensures m.delayHi == HighByte(gap / unit) && m.delayLo == LowByte(gap / unit)
  {
  }

  lemma GapRepeats(buf: seq<nat>, gap: nat, i: nat)
    requires i < |buf| && RepeatsAfter(buf, i, gap)
    ensures buf == Repeated(buf[..i], gap, (|buf| + 1) / (i + 1))
  {
    PartsRepeat(buf, buf[..i + 1], (|buf| + 1) / (i + 1));
    assert buf[..i + 1][..i] == buf[..i];
  }

  lemma SmallDelay(d: nat, hi: nat, lo: nat)
    requires d <= UCHAR_MAX && hi == HighByte(d) && lo == LowByte(d)
    ensures 256 * hi + lo == d
  {
  }

  lemma ExactIsClose(r: Remote, unit: nat, d: nat)
    requires unit > 0
    ensures Close(r, unit, d, d / unit)
  {
  }

  // ----- and it succeeds where two lengths are enough -----

  /** The tolerance covers what is lost by counting `d` in whole units. */
  predicate Regular(r: Remote, unit: nat, d: nat)
    requires unit > 0
  {
    unit <= d && d / unit <= UCHAR_MAX && r.Expect(d, d / unit * unit)
  }

  /** A table while a signal made of the lengths `a` and `b` is scanned. */
  predicate Filled(t: Table, unit: nat, a: nat, b: nat)
    requires unit > 0
  {
    || t == [0, 0]
    || (t[0] == a / unit && (t[1] == 0 || t[1] == b / unit))
    || (t[0] == b / unit && (t[1] == 0 || t[1] == a / unit))
  }

  lemma ChooseSucceeds(r: Remote, t: Table, d: nat, unit: nat, a: nat, b: nat)
    requires unit > 0 && Regular(r, unit, a) && Regular(r, unit, b) && (d == a || d == b) && Filled(t, unit, a, b)
    ensures Choose(r, t, d, unit).1.Some? && Filled(Choose(r, t, d, unit).0, unit, a, b)
  {
    WholeUnit(a, unit);
    WholeUnit(b, unit);
  }

  /** From index `i` on, pulses are `a` or `b` and spaces `c` or `d`. */
  predicate TwoLengths(buf: seq<nat>, i: nat, a: nat, b: nat, c: nat, d: nat) {
    forall k :: i <= k < |buf| ==> if k % 2 == 0 then buf[k] == a || buf[k] == b else buf[k] == c || buf[k] == d
  }

  lemma {:induction false} TwoLengthsScan(r: Remote, gap: nat, buf: seq<nat>, unit: nat, i: nat, s: Scan,
                                          a: nat, b: nat, c: nat, d: nat)
    requires unit > 0 && 2 <= i <= |buf| <= UIRT2_MAX_BITS + 3 && TwoLengths(buf, 2, a, b, c, d)
    requires Regular(r, unit, a) && Regular(r, unit, b) && Regular(r, unit, c) && Regular(r, unit, d)
    requires Filled(s.on, unit, a, b) && Filled(s.off, unit, c, d)
    ensures var f := ScanFrom(r, gap, buf, unit, i, s);
            f.Some? && f.value.repeats == s.repeats && |f.value.bits| == |s.bits| + |buf| - i
    decreases |buf| - i
  {
    hide Choose, Filled;
    if i < |buf| {
      var (table, bit) := Choose(r, if i % 2 == 0 then s.on else s.off, buf[i], unit);
      if i % 2 == 0 {
        ChooseSucceeds(r, s.on, buf[i], unit, a, b);
      } else {
        ChooseSucceeds(r, s.off, buf[i], unit, c, d);
      }
      TwoLengthsScan(r, gap, buf, unit, i + 1, Chosen(s, i, table, bit.value), a, b, c, d);
    }
  }

  /** Any signal whose pulses after the header have at most two lengths, and its spaces too, is
      compressed as a whole, provided the lengths are close enough to whole units. */
  lemma TwoLengthsCompress(r: Remote, gap: nat, buf: seq<nat>, unit: nat, a: nat, b: nat, c: nat, d: nat)
    requires unit > 0 && 2 <= |buf| <= UIRT2_MAX_BITS + 3 && TwoLengths(buf, 2, a, b, c, d)
    requires Regular(r, unit, a) && Regular(r, unit, b) && Regular(r, unit, c) && Regular(r, unit, d)
    requires buf[0] / unit <= UCHAR_MAX && buf[1] / unit <= UCHAR_MAX
    ensures var f := ScanFrom(r, gap, buf, unit, 0, NOTHING_SCANNED);
            f.Some? && f.value.repeats == 1 && |f.value.bits| == |buf| - 2
  {
    hide TwoLengths, Regular;
    TwoLengthsScan(r, gap, buf, unit, 2, NOTHING_SCANNED, a, b, c, d);
    assert ScanFrom(r, gap, buf, unit, 1, NOTHING_SCANNED) == ScanFrom(r, gap, buf, unit, 2, NOTHING_SCANNED);
  }

  /** The limit on the number of bits is one too high: such a signal with one duration more than
      the bit field has room for is accepted, and its last bit is in the byte behind the field. */
  lemma OneBitTooMany(r: Remote, gap: nat, buf: seq<nat>, unit: nat, a: nat, b: nat, c: nat, d: nat)
    requires unit > 0 && |buf| == UIRT2_MAX_BITS + 3 && TwoLengths(buf, 2, a, b, c, d)
    requires Regular(r, unit, a) && Regular(r, unit, b) && Regular(r, unit, c) && Regular(r, unit, d)
    requires buf[0] / unit <= UCHAR_MAX && buf[1] / unit <= UCHAR_MAX
    ensures var f := ScanFrom(r, gap, buf, unit, 0, NOTHING_SCANNED);
            f.Some? && |f.value.bits| > UIRT2_MAX_BITS && (|f.value.bits| - 1) / 8 == UIRT2_MAX_BITS / 8
  {
    hide ScanFrom, TwoLengths, Regular;
    TwoLengthsCompress(r, gap, buf, unit, a, b, c, d);
  }

  // ----- the code -----

  /** Compares each part of the buffer with the first. */
  method PartsAlike(buf: seq<nat>, part: nat, n: nat) returns (same: bool)
    requires 0 < part <= |buf| && n >= 2 && |buf| + 1 == n * part
    ensures same == PartsSame(buf, buf[..part], n)
  {
    var j, at := 1, part;
    TakeOnePart(n, part);
    assert buf[..part][..part] == buf[..part];
    while j < n
      invariant 1 <= j < n + 1 && at <= |buf| + 1 && |buf| + 1 - at == (n - j) * part
      invariant j < n ==> at <= |buf| && PartsSame(buf, buf[..part], n) == PartsSame(buf[at..], buf[..part], n - j)
      invariant j == n ==> PartsSame(buf, buf[..part], n)
    {
      TakeOnePart(n - j, part);
      var len := if j + 1 == n then part - 1 else part;
      if buf[at..at + len] != buf[..len] {
        assert buf[at..][..len] == buf[at..at + len] && buf[..part][..len] == buf[..len];
        return false;
      }
      assert buf[at..][..len] == buf[at..at + len] && buf[..part][..len] == buf[..len];
      assert j + 1 < n ==> buf[at..][part..] == buf[at + part..];
      j, at := j + 1, at + part;
    }
    same := true;
  }

  lemma TakeOnePart(n: nat, part: nat)
    requires n >= 1
    ensures n * part == (n - 1) * part + part && (n == 1 ==> n * part == part)
    ensures n >= 2 ==> n * part >= 2 * part
  {
  }

  /** The bytes hold the bits. */
  predicate Holds(data: seq<Byte>, bits: seq<bool>) {
    |bits| <= 8 * |data| && forall k :: 0 <= k < |bits| ==> DataBit(data, k) == bits[k]
  }

  /** Puts one more bit into the bytes. */
  method AppendBit(data: array<Byte>, ghost bits: seq<bool>, offset: nat, bit: bool)
    requires offset == |bits| < 8 * data.Length && Holds(data[..], bits)
    modifies data
    ensures Holds(data[..], bits + [bit])
  {
    SetDataBit(data, offset, bit);
  }

  /** What the scan does with one duration. */
  lemma ScanTurn(r: Remote, gap: nat, buf: seq<nat>, unit: nat, i: nat, s: Scan)
    requires unit > 0 && i < |buf|
    ensures buf[i] / unit > UCHAR_MAX ==> ScanFrom(r, gap, buf, unit, i, s) == None
    ensures buf[i] / unit <= UCHAR_MAX && i < 2 ==>
              ScanFrom(r, gap, buf, unit, i, s) == ScanFrom(r, gap, buf, unit, i + 1, s)
    ensures buf[i] / unit <= UCHAR_MAX && i >= 2 ==>
              var (table, bit) := Choose(r, if i % 2 == 0 then s.on else s.off, buf[i], unit);
              ScanFrom(r, gap, buf, unit, i, s)
              == if bit.None? then
                   if RepeatsAfter(buf, i, gap) then Some(s.(repeats := (|buf| + 1) / (i + 1))) else None
                 else if i - 2 > UIRT2_MAX_BITS then None
                 else ScanFrom(r, gap, buf, unit, i + 1, Chosen(s, i, table, bit.value))
  {
    hide Choose, RepeatsAfter, Chosen;
  }

  lemma ScanStops(r: Remote, gap: nat, buf: seq<nat>, unit: nat, s: Scan)
    requires unit > 0
    ensures ScanFrom(r, gap, buf, unit, |buf|, s) == Some(s)
  {
  }

  lemma ChosenParts(s: Scan, i: nat, table: Table, bit: bool)
    ensures var c := Chosen(s, i, table, bit);
            && c.bits == s.bits + [bit] && c.repeats == s.repeats
            && c.on == (if i % 2 == 0 then table else s.on) && c.off == (if i % 2 == 0 then s.off else table)
  {
  }

  /** `uirt2_send_mode2_struct1`, up to the call that sends the structure. */
  method Compress(r: Remote, gap: nat, buf: seq<nat>, unit: nat) returns (sent: Option<(RemStruct, nat)>)
    requires unit > 0
    ensures var f := ScanFrom(r, gap, buf, unit, 0, NOTHING_SCANNED);
            if f.None? then sent.None?
            else sent.Some? && Packed(sent.value.0, f.value, buf, gap, unit) && sent.value.1 == f.value.repeats
  {
    hide Choose, RepeatsAfter, Holds, DataBit, HighByte, LowByte, Packed, ScanFrom, Chosen;
    var on, off := new nat[2](_ => 0), new nat[2](_ => 0);
    var data := new Byte[17](_ => [false, false, false, false, false, false, false, false]);
    var hdr1, hdr0, repeats := 0, 0, 1;
    ghost var s := NOTHING_SCANNED;
    NothingHeld(data[..]);
    assert on[..] == [0, 0] && off[..] == [0, 0];
    var i := 0;
    while i < |buf|
      invariant i <= |buf|
      invariant on[..] == s.on && off[..] == s.off && Holds(data[..], s.bits) && s.repeats == 1 == repeats
      invariant |s.bits| == (if i < 2 then 0 else i - 2) <= 8 * data.Length
      invariant hdr1 == (if i > 0 then buf[0] / unit else 0) && hdr0 == (if i > 1 then buf[1] / unit else 0)
      invariant ScanFrom(r, gap, buf, unit, 0, NOTHING_SCANNED) == ScanFrom(r, gap, buf, unit, i, s)
    {
      var len := buf[i] / unit;
      ScanTurn(r, gap, buf, unit, i, s);
      if len > UCHAR_MAX {
        return None;
      }
      if i == 0 {
        hdr1 := len;
      } else if i == 1 {
        hdr0 := len;
      } else {
        ghost var step := Choose(r, if i % 2 == 0 then s.on else s.off, buf[i], unit);
        var bit := CalcDataBit(r, if i % 2 == 0 then on else off, buf[i], unit);
        if bit.None? {
          NoneKeeps(r, if i % 2 == 0 then s.on else s.off, buf[i], unit);
          var same := Repetition(buf, i, gap);
          if !same {
            return None;
          }
          repeats := (|buf| + 1) / (i + 1);
          s := s.(repeats := repeats);
          break;
        }
        if i - 2 > UIRT2_MAX_BITS {
          return None;
        }
        AppendBit(data, s.bits, i - 2, bit.value);
        ChosenParts(s, i, step.0, bit.value);
        s := Chosen(s, i, step.0, bit.value);
      }
      i := i + 1;
    }
    ScanStops(r, gap, buf, unit, s);
    var m := RemStruct(HighByte(gap / unit), LowByte(gap / unit), if i < 2 then 0 else i - 2, hdr1, hdr0,
                       on[..], off[..], data[..]);
    PackedParts(m, s, buf, gap, unit);
    return Some((m, repeats));
  }

  lemma NoneKeeps(r: Remote, t: Table, d: nat, unit: nat)
    requires unit > 0 && Choose(r, t, d, unit).1.None?
    ensures Choose(r, t, d, unit).0 == t
  {
  }

  /** Whether the whole buffer repeats the part that ends with the gap at `i`. */
  method Repetition(buf: seq<nat>, i: nat, gap: nat) returns (same: bool)
    requires i < |buf|
    ensures same == RepeatsAfter(buf, i, gap)
  {
    if !(i % 2 == 1 && buf[i] == gap) {
      return false;
    }
    if (|buf| + 1) % (i + 1) != 0 {
      return false;
    }
    WholeParts(|buf| + 1, i + 1);
    same := PartsAlike(buf, i + 1, (|buf| + 1) / (i + 1));
  }

  lemma NothingHeld(data: seq<Byte>)
    ensures Holds(data, [])
  {
  }

  lemma PackedParts(m: RemStruct, f: Scan, buf: seq<nat>, gap: nat, unit: nat)
    requires |m.data| == UIRT2_MAX_BITS / 8 + 1
    requires unit > 0 && m.bits == |f.bits| && m.on == f.on && m.off == f.off && Holds(m.data, f.bits)
    requires m.hdr1 == (if |buf| > 0 then buf[0] / unit else 0) && m.hdr0 == (if |buf| > 1 then buf[1] / unit else 0)
    requires m.delayHi == HighByte(gap / unit) && m.delayLo == LowByte(gap / unit)
    ensures Packed(m, f, buf, gap, unit)
  {
  }
}
