/** The transmit buffer of transmit.c: durations queued alternately as pulse, space, pulse, ...,
    with the last duration held back so that a neighbour of the same level can be added to it. */
module SendBuffers {
  import opened Signals

  const WBUF_SIZE := 256

  /** The contents of `struct sbuf`. */
  datatype Tx = Tx(buf: seq<nat>, pendingp: nat, pendings: nat, sum: int, tooLong: bool)

  const CLEARED := Tx([], 0, 0, 0, false)

  function Add(t: Tx, d: nat): Tx {
    if |t.buf| < WBUF_SIZE then t.(buf := t.buf + [d], sum := t.sum + d) else t.(tooLong := true)
  }

  function FlushPulse(t: Tx): Tx {
    if t.pendingp > 0 then Add(t, t.pendingp).(pendingp := 0) else t
  }

  function FlushSpace(t: Tx): Tx {
    if t.pendings > 0 then Add(t, t.pendings).(pendings := 0) else t
  }

  function SendPulse(t: Tx, d: nat): Tx {
    if t.pendingp > 0 then t.(pendingp := t.pendingp + d) else FlushSpace(t).(pendingp := d)
  }

  function SendSpace(t: Tx, d: nat): Tx {
    if t.buf == [] && t.pendingp == 0 then t
    else if t.pendings > 0 then t.(pendings := t.pendings + d)
    else FlushPulse(t).(pendings := d)
  }

  function Flush(t: Tx): Tx {
    FlushSpace(FlushPulse(t))
  }

  function Sync(t: Tx): Tx {
    var u := FlushPulse(t);
    if u.buf != [] && |u.buf| % 2 == 0 then u.(buf := u.buf[..|u.buf| - 1]) else u
  }

  function Send(t: Tx, x: Sig): Tx {
    if x.Pulse? then SendPulse(t, x.len) else SendSpace(t, x.len)
  }

  function SendAll(t: Tx, c: seq<Sig>): Tx
    decreases |c|
  {
    if c == [] then t else SendAll(Send(t, c[0]), c[1..])
  }

  predicate Bad(t: Tx) {
    t.tooLong || (|t.buf| == WBUF_SIZE && t.pendingp > 0)
  }

  /** Durations at even places are pulses, at odd places spaces. */
  function Levels(buf: seq<nat>): (c: seq<Sig>)
    ensures |c| == |buf|
  {
    seq(|buf|, i requires 0 <= i < |buf| => if i % 2 == 0 then Pulse(buf[i]) else Space(buf[i]))
  }

  /** Everything the buffer stands for, the duration held back included. */
  function Queued(t: Tx): seq<Sig> {
    Levels(t.buf)
      + (if t.pendingp > 0 then [Pulse(t.pendingp)] else [])
      + (if t.pendings > 0 then [Space(t.pendings)] else [])
  }

  function Held(t: Tx): nat {
    t.pendingp + t.pendings
  }

  /** `t` is the run-length form of the accepted signals `c`; one duration is held back (none
      before the first pulse), and it is of the level that comes next. */
  ghost predicate Represents(t: Tx, c: seq<Sig>) {
    && !t.tooLong
    && |t.buf| <= WBUF_SIZE
    && (t.pendingp == 0 || t.pendings == 0)
    && (|t.buf| % 2 == 0 <==> t.pendings == 0)
    && (c == [] <==> Held(t) == 0)
    && (c == [] ==> t.buf == [])
    && Positive(c)
    && (c != [] ==> c[0].Pulse?)
    && Queued(t) == Runs(c)
  }

  /** A space before any pulse is thrown away. */
  function Accept(c: seq<Sig>, x: Sig): seq<Sig> {
    if c == [] && x.Space? then c else c + [x]
  }

  lemma {:induction false} SendAllKeepsTooLong(t: Tx, c: seq<Sig>)
    requires t.tooLong
    ensures SendAll(t, c).tooLong
    decreases |c|
  {
    if c == [] {
    } else {
      SendAllKeepsTooLong(Send(t, c[0]), c[1..]);
    }
  }

  lemma SendRefinesRuns(t: Tx, c: seq<Sig>, x: Sig)
    requires Represents(t, c) && x.len > 0
    requires !Send(t, x).tooLong
    ensures Represents(Send(t, x), Accept(c, x))
    ensures Send(t, x).sum + Held(Send(t, x))
         == t.sum + Held(t) + (if c == [] && x.Space? then 0 else x.len)
  {
    hide Runs, Levels, Queued;
    if c == [] {
      FirstSignal(t, x);
    } else {
      RunsAppend(c, x);
      QueuedSplit(t);
      var u, last := Send(t, x), if t.pendings > 0 then Space(t.pendings) else Pulse(t.pendingp);
      LastReplaced(Levels(t.buf), last, Join(last, x));
      QueuedSplit(u);
    }
  }

  lemma LastReplaced(a: seq<Sig>, x: Sig, y: Sig)
    ensures (a + [x])[|a|] == x && (a + [x])[..|a|] + [y] == a + [y]
  {
  }

  lemma FirstSignal(t: Tx, x: Sig)
    requires Represents(t, []) && x.len > 0
    ensures Queued(Send(t, x)) == Runs(Accept([], x))
  {
  }

  lemma QueuedSplit(t: Tx)
    requires |t.buf| % 2 == 0 <==> t.pendings == 0
    requires (t.pendingp == 0) != (t.pendings == 0)
    ensures Queued(t) == Levels(t.buf) + [if t.pendings > 0 then Space(t.pendings) else Pulse(t.pendingp)]
    ensures Queued(t) == Levels(t.buf + [Held(t)])
    ensures |Queued(t)| == |t.buf| + 1
  {
  }

  /** The transmit buffer refines a run-length encoder: after any calls that did not overflow it,
      it stands for the merged signals, spaces before the first pulse left out, and its `sum`
      together with the duration held back has grown by their total length. */
  lemma {:induction false} SendAllRefinesRuns(t: Tx, c: seq<Sig>, xs: seq<Sig>)
    requires Represents(t, c) && Positive(xs)
    requires !SendAll(t, xs).tooLong
    ensures Represents(SendAll(t, xs), c + if c == [] then DropLeadingSpaces(xs) else xs)
    ensures SendAll(t, xs).sum + Held(SendAll(t, xs))
         == t.sum + Held(t) + Total(if c == [] then DropLeadingSpaces(xs) else xs)
    decreases |xs|
  {
    if xs == [] {
      assert c + [] == c;
    } else {
      var u := Send(t, xs[0]);
      if u.tooLong { SendAllKeepsTooLong(u, xs[1..]); }
      SendRefinesRuns(t, c, xs[0]);
      SendAllRefinesRuns(u, Accept(c, xs[0]), xs[1..]);
      assert c + xs == (c + [xs[0]]) + xs[1..];
    }
  }

  lemma {:induction false} SendAllConcat(t: Tx, a: seq<Sig>, b: seq<Sig>)
    ensures SendAll(t, a + b) == SendAll(SendAll(t, a), b)
    decreases |a|
  {
    if a == [] {
      assert a + b == b;
    } else {
      assert (a + b)[1..] == a[1..] + b;
      SendAllConcat(Send(t, a[0]), a[1..], b);
    }
  }

  lemma SendOneTwo(t: Tx, x: Sig, y: Sig)
    ensures SendAll(t, [x]) == Send(t, x)
    ensures SendAll(t, [x, y]) == Send(Send(t, x), y)
  {
    assert [x, y][1..] == [y];
    assert SendAll(Send(t, x), [y]) == SendAll(Send(Send(t, x), y), []);
  }

  lemma StartClear()
    ensures Represents(CLEARED, [])
  {
    hide Runs;
    assert Queued(CLEARED) == [];
    RunsOfNothing();
  }

  lemma SyncKeepsTooLong(t: Tx)
    ensures t.tooLong ==> Bad(Sync(t))
  {
  }

  /** `sync_send_buffer` releases a pulse held back but not a space: what it leaves in the buffer
      is what a receiver sees of the signals, and `sum` is how long they take. */
  lemma SyncGivesAir(t: Tx, c: seq<Sig>)
    requires Represents(t, c) && !Bad(Sync(t))
    ensures Levels(Sync(t).buf) == Air(c)
    ensures t.sum + Held(t) == Total(c) ==> Sync(t).sum == Total(Air(c))
  {
    hide Air, Runs, Wave;
    AirIsRuns(c);
    if c != [] {
      QueuedSplit(t);
      RunsKeepWave(c);
      TotalConcat(Levels(t.buf), [if t.pendings > 0 then Space(t.pendings) else Pulse(t.pendingp)]);
    }
  }

  class SendBuffer {
    const data: array<nat>
    var wptr: nat
    var tooLong: bool
    var pendingp: nat
    var pendings: nat
    var sum: int

    ghost predicate Valid()
      reads this
    {
      data.Length == WBUF_SIZE && wptr <= WBUF_SIZE
    }

    ghost function View(): Tx
      reads this, data
      requires Valid()
    {
      Tx(data[..wptr], pendingp, pendings, sum, tooLong)
    }

    constructor ()
      ensures Valid() && fresh(data)
      ensures View() == CLEARED
    {
      data := new nat[WBUF_SIZE];
      wptr, tooLong, pendingp, pendings, sum := 0, false, 0, 0, 0;
    }

    method Clear()
      requires Valid()
      modifies this
      ensures Valid() && View() == CLEARED
    {
      wptr, tooLong, pendingp, pendings, sum := 0, false, 0, 0, 0;
    }

    method AddSignal(d: nat)
      requires Valid()
      modifies this, data
      ensures Valid() && View() == Add(old(View()), d)
    {
      if wptr < WBUF_SIZE {
        sum := sum + d;
        data[wptr] := d;
        wptr := wptr + 1;
      } else {
        tooLong := true;
      }
    }

    method PushPulse(d: nat)
      requires Valid()
      modifies this, data
      ensures Valid() && View() == SendPulse(old(View()), d)
    {
      if pendingp > 0 {
        pendingp := pendingp + d;
      } else {
        if pendings > 0 {
          AddSignal(pendings);
          pendings := 0;
        }
        pendingp := d;
      }
    }

    method PushSpace(d: nat)
      requires Valid()
      modifies this, data
      ensures Valid() && View() == SendSpace(old(View()), d)
    {
      if wptr == 0 && pendingp == 0 {
        return;
      }
      if pendings > 0 {
        pendings := pendings + d;
      } else {
        if pendingp > 0 {
          AddSignal(pendingp);
          pendingp := 0;
        }
        pendings := d;
      }
    }

    method FlushAll()
      requires Valid()
      modifies this, data
      ensures Valid() && View() == Flush(old(View()))
    {
      if pendingp > 0 {
        AddSignal(pendingp);
        pendingp := 0;
      }
      if pendings > 0 {
        AddSignal(pendings);
        pendings := 0;
      }
    }

    method Synchronise()
      requires Valid()
      modifies this, data
      ensures Valid() && View() == Sync(old(View()))
    {
      if pendingp > 0 {
        AddSignal(pendingp);
        pendingp := 0;
      }
      if wptr > 0 && wptr % 2 == 0 {
        wptr := wptr - 1;
      }
    }
  }
}
