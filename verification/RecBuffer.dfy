/** The receive buffer of receive.c: what the driver has delivered, a read pointer that decoders
    move forward and sometimes back, and a pulse or space that has already been accounted for
    although it is only the beginning of the next one on the air. */
module RecBuffers {
  import opened Signals
  import opened Remotes

  const RBUF_SIZE := 512
  const MIN_RECEIVE_TIMEOUT := 100000

  /** One result of `hw.readdata`: a timeout report of some length, or a value
      (`Mark(Space(0))` is the plain 0 of a driver that gave up waiting). */
  datatype Event = Timeout(len: nat) | Mark(sig: Sig)

  /** What the receiver reads from: the signals in the buffer, the read pointer, what the driver
      will deliver, and the time that has passed since synchronisation. */
  datatype Tape = Tape(buf: seq<Sig>, rptr: int, feed: seq<Event>, sum: int, tooLong: bool)

  /** The contents of `struct rbuf`. */
  datatype Rx = Rx(tape: Tape, pendingp: nat, pendings: nat)

  datatype Read = Read(tape: Tape, got: Sig)
  datatype Length = Length(s: Rx, len: nat)
  datatype Step = Step(s: Rx, ok: bool)

  const NOTHING := Space(0)

  predicate Safe(t: Tape) {
    0 <= t.rptr <= |t.buf| <= RBUF_SIZE
  }

  /** After synchronisation: the buffer begins with the space that was found. */
  predicate Ready(t: Tape) {
    Safe(t) && t.buf != [] && t.buf[0].Space?
  }

  /** `u` comes from `t` by reading on. */
  predicate ReadOn(t: Tape, u: Tape) {
    Safe(u) && t.rptr <= u.rptr && t.buf <= u.buf
  }

  function ReceiveTimeout(usec: nat): nat {
    if 2 * usec < MIN_RECEIVE_TIMEOUT then MIN_RECEIVE_TIMEOUT else 2 * usec
  }

  function NextInternal(t: Tape, maxusec: nat): (x: Read)
    requires Safe(t)
    ensures ReadOn(t, x.tape)
    ensures x.tape.rptr == t.rptr || (x.tape.rptr == t.rptr + 1 && x.got == x.tape.buf[t.rptr])
    ensures x.got != NOTHING || t.rptr < |t.buf| ==> x.tape.rptr == t.rptr + 1
    decreases |t.feed|
  {
    if t.rptr < |t.buf| then
      Read(t.(rptr := t.rptr + 1, sum := t.sum + t.buf[t.rptr].len), t.buf[t.rptr])
    else if |t.buf| < RBUF_SIZE then
      if t.feed == [] then Read(t, NOTHING)
      else
        var u := t.(feed := t.feed[1..]);
        match t.feed[0]
        case Timeout(len) => if len < maxusec then NextInternal(u, maxusec - len) else Read(u, NOTHING)
        case Mark(sig) =>
          if sig == NOTHING then Read(u, NOTHING)
          else Read(u.(buf := t.buf + [sig], rptr := t.rptr + 1, sum := t.sum + sig.len), sig)
    else Read(t.(tooLong := true), NOTHING)
  }

  function Next(t: Tape, maxusec: nat): (x: Read)
    requires Safe(t)
    ensures ReadOn(t, x.tape)
    ensures x.tape.rptr == t.rptr || (x.tape.rptr == t.rptr + 1 && x.got == x.tape.buf[t.rptr])
    ensures x.got != NOTHING || t.rptr < |t.buf| ==> x.tape.rptr == t.rptr + 1
  {
    NextInternal(t, ReceiveTimeout(maxusec))
  }

  function Back(t: Tape, count: nat): Tape
    requires Safe(t) && 1 <= count <= 2 && count <= t.rptr
  {
    t.(rptr := t.rptr - count,
       sum := t.sum - t.buf[t.rptr - count].len - if count == 2 then t.buf[t.rptr - 1].len else 0)
  }

  function Unget(s: Rx, count: nat): Rx
    requires Safe(s.tape) && 1 <= count <= 2 && count <= s.tape.rptr
  {
    s.(tape := Back(s.tape, count))
  }

  function Rewind(s: Rx): Rx {
    Rx(s.tape.(rptr := 0, tooLong := false, sum := 0), 0, 0)
  }

  /** What has been read is dropped; with nothing left, the next value is fetched. A timeout
      report fetched here carries PULSE_BIT and so counts as a pulse. */
  function ClearBuffer(s: Rx): (x: Rx)
    requires Safe(s.tape)
    ensures Safe(x.tape) && x.tape.buf != []
  {
    var t := s.tape;
    if |t.buf| - t.rptr > 0 && t.rptr > 0 then Rewind(s.(tape := t.(buf := t.buf[t.rptr..])))
    else if t.feed == [] then Rewind(s.(tape := t.(buf := [NOTHING])))
    else
      var value := match t.feed[0] case Timeout(len) => Pulse(len) case Mark(sig) => sig;
      Rewind(s.(tape := t.(buf := [value], feed := t.feed[1..])))
  }

  function NextPulse(s: Rx, maxusec: nat): (x: Length)
    requires Safe(s.tape)
    ensures ReadOn(s.tape, x.s.tape)
    ensures x.s.pendingp == s.pendingp && x.s.pendings == s.pendings
    ensures s.tape.rptr < |s.tape.buf| ==> x.s.tape.rptr > s.tape.rptr
    ensures x.len != 0 ==> x.s.tape.rptr > s.tape.rptr && x.s.tape.buf[s.tape.rptr].Pulse?
  {
    var x := Next(s.tape, maxusec);
    Length(s.(tape := x.tape), if x.got.Pulse? then x.got.len else 0)
  }

  function NextSpace(s: Rx, maxusec: nat): (x: Length)
    requires Safe(s.tape)
    ensures ReadOn(s.tape, x.s.tape)
    ensures x.s.pendingp == s.pendingp && x.s.pendings == s.pendings
    ensures s.tape.rptr < |s.tape.buf| ==> x.s.tape.rptr > s.tape.rptr
    ensures x.len != 0 ==> x.s.tape.rptr > s.tape.rptr && x.s.tape.buf[s.tape.rptr].Space?
  {
    var x := Next(s.tape, maxusec);
    Length(s.(tape := x.tape), if x.got.Space? then x.got.len else 0)
  }

  /** Reads the pulse that is still owed. */
  function SyncPulse(s: Rx, r: Remote): (x: Step)
    requires Safe(s.tape)
    ensures ReadOn(s.tape, x.s.tape)
    ensures s.pendingp > 0 && s.tape.rptr < |s.tape.buf| ==> x.s.tape.rptr > s.tape.rptr
    ensures s.pendingp == 0 ==> x == Step(s, true)
    ensures x.ok ==> x.s.pendingp == 0
    ensures x.ok && s.pendingp > 0 ==> x.s.tape.rptr > s.tape.rptr && x.s.tape.buf[s.tape.rptr].Pulse?
  {
    if s.pendingp == 0 then Step(s, true)
    else
      var x := NextPulse(s, s.pendingp);
      if x.len == 0 || !r.Expect(x.len, s.pendingp) then Step(x.s, false)
      else Step(x.s.(pendingp := 0), true)
  }

  function SyncSpace(s: Rx, r: Remote): (x: Step)
    requires Safe(s.tape)
    ensures ReadOn(s.tape, x.s.tape)
    ensures s.pendings > 0 && s.tape.rptr < |s.tape.buf| ==> x.s.tape.rptr > s.tape.rptr
    ensures s.pendings == 0 ==> x == Step(s, true)
    ensures x.ok ==> x.s.pendings == 0
    ensures x.ok && s.pendings > 0 ==> x.s.tape.rptr > s.tape.rptr && x.s.tape.buf[s.tape.rptr].Space?
  {
    if s.pendings == 0 then Step(s, true)
    else
      var x := NextSpace(s, s.pendings);
      if x.len == 0 || !r.Expect(x.len, s.pendings) then Step(x.s, false)
      else Step(x.s.(pendings := 0), true)
  }

  function ExpectPulse(s: Rx, r: Remote, ex: nat): (x: Step)
    requires Safe(s.tape)
    ensures ReadOn(s.tape, x.s.tape)
    ensures x.ok ==> x.s.tape.rptr > s.tape.rptr
    ensures Ready(s.tape) ==> Ready(x.s.tape) && x.s.tape.rptr >= 1
    ensures Ready(s.tape) && x.ok ==> x.s.tape.rptr >= 2
  {
    var y := SyncSpace(s, r);
    if !y.ok then y
    else
      var x := NextPulse(y.s, y.s.pendingp + ex);
      if x.len == 0 || x.s.pendingp > x.len || !r.Expect(x.len - x.s.pendingp, ex) then Step(x.s, false)
      else Step(x.s.(pendingp := 0), true)
  }

  function ExpectSpace(s: Rx, r: Remote, ex: nat): (x: Step)
    requires Safe(s.tape)
    ensures ReadOn(s.tape, x.s.tape)
    ensures x.ok ==> x.s.tape.rptr > s.tape.rptr
    ensures Ready(s.tape) ==> Ready(x.s.tape) && x.s.tape.rptr >= 1
  {
    var y := SyncPulse(s, r);
    if !y.ok then y
    else
      var x := NextSpace(y.s, y.s.pendings + ex);
      if x.len == 0 || x.s.pendings > x.len || !r.Expect(x.len - x.s.pendings, ex) then Step(x.s, false)
      else Step(x.s.(pendings := 0), true)
  }

  class RecBuffer {
    const data: array<Sig>
    var rptr: int
    var wptr: int
    var tooLong: bool
    var pendingp: nat
    var pendings: nat
    var sum: int
    var feed: seq<Event>  // the device

    ghost predicate Valid()
      reads this
    {
      data.Length == RBUF_SIZE && 0 <= rptr <= wptr <= RBUF_SIZE
    }

    ghost function View(): (s: Rx)
      reads this, data
      requires Valid()
      ensures Safe(s.tape)
    {
      Rx(Tape(data[..wptr], rptr, feed, sum, tooLong), pendingp, pendings)
    }

    constructor (device: seq<Event>)
      ensures Valid() && fresh(data)
      ensures View() == Rx(Tape([], 0, device, 0, false), 0, 0)
    {
      data := new Sig[RBUF_SIZE](_ => NOTHING);
      rptr, wptr, tooLong, pendingp, pendings, sum := 0, 0, false, 0, 0, 0;
      feed := device;
    }

    /** `get_next_rec_buffer` */
    method GetNext(maxusec: nat) returns (got: Sig)
      requires Valid()
      modifies this, data
      ensures Valid()
      ensures Read(View().tape, got) == Next(old(View()).tape, maxusec)
      ensures pendingp == old(pendingp) && pendings == old(pendings)
    {
      got := GetNextInternal(ReceiveTimeout(maxusec));
    }

    method GetNextInternal(maxusec: nat) returns (got: Sig)
      requires Valid()
      modifies this, data
      ensures Valid()
      ensures Read(View().tape, got) == NextInternal(old(View()).tape, maxusec)
      ensures pendingp == old(pendingp) && pendings == old(pendings)
      decreases |feed|
    {
      if rptr < wptr {
        sum := sum + data[rptr].len;
        rptr := rptr + 1;
        return data[rptr - 1];
      }
      if wptr == RBUF_SIZE {
        tooLong := true;
        return NOTHING;
      }
      if feed == [] {
        return NOTHING;
      }
      var event := feed[0];
      feed := feed[1..];
      match event
      case Timeout(len) =>
        if len < maxusec {
          got := GetNextInternal(maxusec - len);
        } else {
          got := NOTHING;
        }
      case Mark(sig) =>
        if sig == NOTHING {
          return NOTHING;
        }
        data[wptr] := sig;
        sum := sum + data[rptr].len;
        wptr, rptr := wptr + 1, rptr + 1;
        got := data[rptr - 1];
    }

    method UngetSignals(count: nat)
      requires Valid() && 1 <= count <= 2 && count <= rptr
      modifies this
      ensures Valid() && View() == Unget(old(View()), count)
    {
      rptr := rptr - count;
      sum := sum - data[rptr].len;
      if count == 2 {
        sum := sum - data[rptr + 1].len;
      }
    }

    method RewindBuffer()
      requires Valid()
      modifies this
      ensures Valid() && View() == Rewind(old(View()))
    {
      rptr, tooLong, pendingp, pendings, sum := 0, false, 0, 0, 0;
    }

    /** `clear_rec_buffer`: the rest of the buffer is moved to its beginning. */
    method Clear()
      requires Valid()
      modifies this, data
      ensures Valid() && View() == ClearBuffer(old(View()))
    {
      var move := wptr - rptr;
      if move > 0 && rptr > 0 {
        forall i | 0 <= i < move {
          data[i] := data[rptr + i];
        }
        wptr := wptr - rptr;
      } else {
        var value := NOTHING;
        if feed != [] {
          value := match feed[0] case Timeout(len) => Pulse(len) case Mark(sig) => sig;
          feed := feed[1..];
        }
        data[0] := value;
        wptr := 1;
      }
      rptr := 0;
      RewindBuffer();
    }

    method GetPulse(maxusec: nat) returns (len: nat)
      requires Valid()
      modifies this, data
      ensures Valid() && Length(View(), len) == NextPulse(old(View()), maxusec)
    {
      var got := GetNext(maxusec);
      len := if got.Pulse? then got.len else 0;
    }

    method GetSpace(maxusec: nat) returns (len: nat)
      requires Valid()
      modifies this, data
      ensures Valid() && Length(View(), len) == NextSpace(old(View()), maxusec)
    {
      var got := GetNext(maxusec);
      len := if got.Space? then got.len else 0;
    }

    method SyncPendingPulse(r: Remote) returns (ok: bool)
      requires Valid()
      modifies this, data
      ensures Valid() && Step(View(), ok) == SyncPulse(old(View()), r)
    {
      if pendingp > 0 {
        var deltap := GetPulse(pendingp);
        if deltap == 0 || !r.Expect(deltap, pendingp) {
          return false;
        }
        pendingp := 0;
      }
      return true;
    }

    method SyncPendingSpace(r: Remote) returns (ok: bool)
      requires Valid()
      modifies this, data
      ensures Valid() && Step(View(), ok) == SyncSpace(old(View()), r)
    {
      if pendings > 0 {
        var deltas := GetSpace(pendings);
        if deltas == 0 || !r.Expect(deltas, pendings) {
          return false;
        }
        pendings := 0;
      }
      return true;
    }

    method MatchPulse(r: Remote, ex: nat) returns (ok: bool)
      requires Valid()
      modifies this, data
      ensures Valid() && Step(View(), ok) == ExpectPulse(old(View()), r, ex)
    {
      hide NextPulse, SyncSpace, Remote.Expect;
      ok := SyncPendingSpace(r);
      if !ok {
        return;
      }
      var deltap := GetPulse(pendingp + ex);
      if deltap == 0 {
        return false;
      }
      if pendingp > 0 {
        if pendingp > deltap {
          return false;
        }
        ok := r.Expect(deltap - pendingp, ex);
        if !ok {
          return;
        }
        pendingp := 0;
      } else {
        ok := r.Expect(deltap, ex);
      }
    }

    method MatchSpace(r: Remote, ex: nat) returns (ok: bool)
      requires Valid()
      modifies this, data
      ensures Valid() && Step(View(), ok) == ExpectSpace(old(View()), r, ex)
    {
      hide NextSpace, SyncPulse, Remote.Expect;
      ok := SyncPendingPulse(r);
      if !ok {
        return;
      }
      var deltas := GetSpace(pendings + ex);
      if deltas == 0 {
        return false;
      }
      if pendings > 0 {
        if pendings > deltas {
          return false;
        }
        ok := r.Expect(deltas - pendings, ex);
        if !ok {
          return;
        }
        pendings := 0;
      } else {
        ok := r.Expect(deltas, ex);
      }
    }
  }
}
