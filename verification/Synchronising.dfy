/** How the decoder finds the gap before a frame: how much it skips, and where it gives up. */
module Synchronising {
  import opened Signals
  import opened Remotes
  import opened RecBuffers
  import opened Receive
  import opened RoundTrip
  import opened Tolerance

  /** A space that can be the gap after the last frame. */
  predicate CanBeGap(last: Last, d: nat)
    requires last.Last?
  {
    d >= last.minRemainingGap || Near(last.remote, d, last.minRemainingGap)
  }

  /** Pulse and space by turns, a pulse first, none of the spaces but the last one a gap. */
  predicate Skipped(last: Last, c: seq<Sig>)
    requires last.Last?
  {
    |c| % 2 == 0
    && forall i :: 0 <= i < |c| ==>
                     c[i].len > 0 && c[i].Pulse? == (i % 2 == 0)
                     && (c[i].Space? && i < |c| - 1 ==> !CanBeGap(last, c[i].len))
  }

  lemma TwoRead(s: Rx, m: nat, x: Sig, y: Sig, rest: seq<Sig>)
    requires Ready(s.tape) && Ahead(s.tape) == [x, y] + rest && x.Pulse? && y.Space? && x.len > 0 && y.len > 0
    ensures var p := NextPulse(s, m);
            var q := NextSpace(p.s, m);
            && p.len == x.len && q.len == y.len && Ready(q.s.tape) && Ahead(q.s.tape) == rest
            && q.s.pendingp == s.pendingp && q.s.pendings == s.pendings
  {
    hide Next, Whole, Clock;
    assert [x, y] + rest == [x] + ([y] + rest);
    NextReads(s.tape, m, x, [y] + rest);
    NextReads(Next(s.tape, m).tape, m, y, rest);
  }

  lemma {:induction false} LoopSkips(s: Rx, last: Last, gap: nat, count: nat, c: seq<Sig>, tail: seq<Sig>)
    requires Ready(s.tape) && last.Last? && count <= REC_SYNC && Ahead(s.tape) == c + tail && Skipped(last, c)
    requires (c != [] ==> !CanBeGap(last, gap)) && CanBeGap(last, if c == [] then gap else c[|c| - 1].len)
    ensures var x := SyncLoop(s, last, gap, count);
            if count + |c| / 2 <= REC_SYNC then
              x.len == (if c == [] then gap else c[|c| - 1].len) && Ahead(x.s.tape) == tail && Ready(x.s.tape)
            else x.len == 0
    decreases |c|
  {
    hide Next, Whole, Clock, Near, NextPulse, NextSpace, Remote.ExpectAtLeast;
    ExpectAtLeastIsNear(last.remote, gap, last.minRemainingGap);
    if c != [] {
      assert c + tail == [c[0], c[1]] + (c[2..] + tail);
      TwoRead(s, 1000000, c[0], c[1], c[2..] + tail);
      if count < REC_SYNC {
        var q := NextSpace(NextPulse(s, 1000000).s, 1000000);
        LoopSkips(q.s, last, q.len, count + 1, c[2..], tail);
      }
    } else {
      assert c + tail == tail;
    }
  }

  /** The decoder takes for the gap the first space that is long enough for the gap expected after the
      last frame; it skips at most eight pairs of space and pulse before it. */
  lemma SyncSkips(s: Rx, r: Remote, last: Last, first: nat, c: seq<Sig>, tail: seq<Sig>)
    requires Ready(s.tape) && s.tape.rptr == 0 && last.Last? && !r.protocol.Rcmm?
    requires Ahead(s.tape) == [Space(first)] + (c + tail) && first > 0 && Skipped(last, c)
    requires (c != [] ==> !CanBeGap(last, first)) && CanBeGap(last, if c == [] then first else c[|c| - 1].len)
    ensures var x := SyncBuffer(s, r, last);
            if |c| <= 16 then
              && x.len == (if c == [] then first else c[|c| - 1].len)
              && Ahead(x.s.tape) == tail && x.s.tape.sum == 0
            else x.len == 0
  {
    hide Next, Whole, Clock, Near, SyncLoop, Skipped;
    NextReads(s.tape, 1000000, Space(first), c + tail);
    var q := NextSpace(s, 1000000);
    LoopSkips(q.s, last, first, 0, c, tail);
    EvenLength(last, c);
    RestartedAhead(SyncLoop(q.s, last, first, 0).s);
  }

  lemma EvenLength(last: Last, c: seq<Sig>)
    requires last.Last? && Skipped(last, c)
    ensures |c| % 2 == 0 && (c != [] ==> c[|c| - 1].len > 0)
  {
  }

  lemma RestartedAhead(s: Rx)
    requires Safe(s.tape)
    ensures Safe(RestartSum(s).tape) && Ahead(RestartSum(s).tape) == Ahead(s.tape) && RestartSum(s).tape.sum == 0
  {
  }

  // ----- waiting -----

  function Sum(waits: seq<nat>): nat {
    if waits == [] then 0 else waits[0] + Sum(waits[1..])
  }

  function Timeouts(waits: seq<nat>): seq<Event> {
    if waits == [] then [] else [Timeout(waits[0])] + Timeouts(waits[1..])
  }

  lemma {:induction false} WaitsInternal(t: Tape, limit: nat, waits: seq<nat>, x: Sig, rest: seq<Event>)
    requires Safe(t) && t.rptr == |t.buf| < RBUF_SIZE && x.len > 0
    requires t.feed == Timeouts(waits) + ([Mark(x)] + rest)
    ensures NextInternal(t, limit).got == if waits == [] || Sum(waits) < limit then x else NOTHING
    decreases |waits|
  {
    if waits == [] {
      assert t.feed == [Mark(x)] + rest;
    } else {
      assert t.feed == [Timeout(waits[0])] + (Timeouts(waits[1..]) + ([Mark(x)] + rest));
      var u := t.(feed := t.feed[1..]);
      if waits[0] < limit {
        WaitsInternal(u, limit - waits[0], waits[1..], x, rest);
      }
    }
  }

  /** A read waits while the device reports that nothing happens, until as much as twice the time
      expected has passed, and 100 ms at least. */
  lemma ReadWaits(t: Tape, usec: nat, waits: seq<nat>, x: Sig, rest: seq<Event>)
    requires Safe(t) && t.rptr == |t.buf| < RBUF_SIZE && x.len > 0
    requires t.feed == Timeouts(waits) + ([Mark(x)] + rest)
    ensures Next(t, usec).got == x <==> waits == [] || Sum(waits) < 100000 || Sum(waits) < 2 * usec
    ensures Next(t, usec).got == x || Next(t, usec).got == NOTHING
  {
    hide NextInternal;
    WaitsInternal(t, ReceiveTimeout(usec), waits, x, rest);
  }

  // ----- what a frame begins with -----

  /** Decoding needs a space to begin with. */
  lemma NoSpaceNoFrame(s: Rx, r: Remote, c: Context)
    requires Safe(s.tape) && s.tape.buf != [] && Decodable(r) && !(s.tape.buf[0].Space? && s.tape.buf[0].len > 0)
    ensures ReceiveDecode(s, r, c).frame.None?
  {
    hide SyncLoop, GetHeader, GetRepeat, GetFrame;
  }

  /** With all that was read cleared from the buffer, nothing can be decoded if the device has nothing
      more, reports a timeout, gives up or begins with a pulse. */
  lemma OnlySpaceBegins(s: Rx, r: Remote, c: Context)
    requires Safe(s.tape) && Decodable(r) && s.tape.rptr == |s.tape.buf|
    requires s.tape.feed != [] && s.tape.feed[0].Mark? ==> s.tape.feed[0].sig.Pulse? || s.tape.feed[0].sig.len == 0
    ensures ReceiveDecode(ClearBuffer(s), r, c).frame.None?
  {
    hide ReceiveDecode;
    NoSpaceNoFrame(ClearBuffer(s), r, c);
  }
}
