/** The decoder as it runs: the functions of `Receive`, computed step by step on the receive
    buffer. Since every method keeps the buffer valid, no read or put-back ever leaves it. */
module Receiver {
  import opened Options
  import opened Words
  import opened Remotes
  import opened RecBuffers
  import opened Receive

  method TryOne(b: RecBuffer, r: Remote, k: nat) returns (ok: bool)
    requires b.Valid() && Ready(b.View().tape) && BitsDecodable(r)
    modifies b, b.data
    ensures b.Valid() && Step(b.View(), ok) == ExpectOne(old(b.View()), r, k)
  {
    if r.IsBiphase() {
      if r.sone > 0 {
        ok := b.MatchSpace(r, r.Stretch(k, r.sone));
        if !ok {
          b.UngetSignals(1);
          return;
        }
      }
      b.pendingp := r.Stretch(k, r.pone);
      return true;
    }
    if r.pone > 0 {
      ok := b.MatchPulse(r, r.pone);
      if !ok {
        b.UngetSignals(1);
        return;
      }
    }
    if r.ptrail > 0 {
      if r.sone > 0 {
        ok := b.MatchSpace(r, r.sone);
        if !ok {
          b.UngetSignals(2);
          return;
        }
      }
    } else {
      b.pendings := r.sone;
    }
    ok := true;
  }

  method TryZero(b: RecBuffer, r: Remote, k: nat) returns (ok: bool)
    requires b.Valid() && Ready(b.View().tape)
    modifies b, b.data
    ensures b.Valid() && Step(b.View(), ok) == ExpectZero(old(b.View()), r, k)
  {
    if r.IsBiphase() {
      ok := b.MatchPulse(r, r.Stretch(k, r.pzero));
      if !ok {
        b.UngetSignals(1);
        return;
      }
      b.pendings := r.Stretch(k, r.szero);
      return;
    }
    ok := b.MatchPulse(r, r.pzero);
    if !ok {
      b.UngetSignals(1);
      return;
    }
    if r.ptrail > 0 {
      ok := b.MatchSpace(r, r.szero);
      if !ok {
        b.UngetSignals(2);
      }
    } else {
      b.pendings := r.szero;
    }
  }

  method ReadBits(b: RecBuffer, r: Remote, bits: nat, done: nat) returns (code: Word)
    requires b.Valid() && Ready(b.View().tape) && BitsDecodable(r)
    modifies b, b.data
    ensures b.Valid() && Data(b.View(), code) == GetBits(old(b.View()), r, bits, done, ZERO)
  {
    hide ExpectOne, ExpectZero;
    code := ZERO;
    for i := 0 to bits
      invariant b.Valid() && Ready(b.View().tape)
      invariant GetBits(old(b.View()), r, bits, done, ZERO) == GetBits(b.View(), r, bits - i, done + i, code)
    {
      var one := TryOne(b, r, done + i);
      if one {
        code := ShiftIn(code, true);
      } else {
        var zero := TryZero(b, r, done + i);
        if !zero {
          return FAILED;
        }
        code := ShiftIn(code, false);
      }
    }
  }

  lemma PairsUnfold(s: Rx, r: Remote, n: nat, code: Word)
    requires Ready(s.tape)
    ensures n < 2 ==> GetPairs(s, r, n, code) == Data(s, code)
    ensures n >= 2 ==>
              var p := NextPulse(s, r.pzero + r.pone + r.ptwo + r.pthree);
              var q := NextSpace(p.s, r.szero + r.sone + r.stwo + r.sthree);
              var o := PairOf(r, p.len + q.len);
              GetPairs(s, r, n, code) ==
              if p.len == 0 || q.len == 0 || o.None? then Data(q.s, FAILED)
              else GetPairs(q.s, r, n - 2, ShiftInAll(code, o.value))
  {
    hide PairOf, NextPulse, NextSpace, ShiftInAll;
  }

  method ReadPairs(b: RecBuffer, r: Remote, bits: nat) returns (code: Word)
    requires b.Valid() && Ready(b.View().tape)
    modifies b, b.data
    ensures b.Valid() && Data(b.View(), code) == GetPairs(old(b.View()), r, bits, ZERO)
  {
    hide GetPairs, PairOf, NextPulse, NextSpace, ShiftInAll, Remote.Expect;
    code := ZERO;
    var i := 0;
    while i + 2 <= bits
      invariant i <= bits
      invariant b.Valid() && Ready(b.View().tape)
      invariant GetPairs(old(b.View()), r, bits, ZERO) == GetPairs(b.View(), r, bits - i, code)
      decreases bits - i
    {
      PairsUnfold(b.View(), r, bits - i, code);
      var deltap := b.GetPulse(r.pzero + r.pone + r.ptwo + r.pthree);
      var deltas := b.GetSpace(r.szero + r.sone + r.stwo + r.sthree);
      if deltap == 0 || deltas == 0 {
        return FAILED;
      }
      var symbol := PairOf(r, deltap + deltas);
      if symbol.None? {
        return FAILED;
      }
      code := ShiftInAll(code, symbol.value);
      i := i + 2;
    }
    PairsUnfold(b.View(), r, bits - i, code);
  }

  lemma NibblesUnfold(s: Rx, r: Remote, n: nat, code: Word)
    requires Ready(s.tape) && r.sone > 0
    ensures n < 4 ==> GetNibbles(s, r, n, code) == Data(s, code)
    ensures n >= 4 ==>
              var p := NextPulse(s, r.pzero);
              var q := NextSpace(p.s, r.szero + 16 * r.sone);
              var o := NibbleOf(r, p.len + q.len);
              GetNibbles(s, r, n, code) ==
              if p.len == 0 || q.len == 0 || o.None? then Data(q.s, FAILED)
              else GetNibbles(q.s, r, n - 4, ShiftInAll(code, NibbleBits(o.value)))
  {
    hide NibbleOf, NibbleBits, NextPulse, NextSpace, ShiftInAll;
  }

  method ReadNibbles(b: RecBuffer, r: Remote, bits: nat) returns (code: Word)
    requires b.Valid() && Ready(b.View().tape) && r.sone > 0
    modifies b, b.data
    ensures b.Valid() && Data(b.View(), code) == GetNibbles(old(b.View()), r, bits, ZERO)
  {
    hide GetNibbles, NibbleOf, NibbleBits, NextPulse, NextSpace, ShiftInAll;
    code := ZERO;
    var i := 0;
    while i + 4 <= bits
      invariant i <= bits
      invariant b.Valid() && Ready(b.View().tape)
      invariant GetNibbles(old(b.View()), r, bits, ZERO) == GetNibbles(b.View(), r, bits - i, code)
      decreases bits - i
    {
      NibblesUnfold(b.View(), r, bits - i, code);
      var deltap := b.GetPulse(r.pzero);
      var deltas := b.GetSpace(r.szero + 16 * r.sone);
      if deltap == 0 || deltas == 0 {
        return FAILED;
      }
      var n := NibbleOf(r, deltap + deltas);
      if n.None? {
        return FAILED;
      }
      code := ShiftInAll(code, NibbleBits(n.value));
      i := i + 4;
    }
    NibblesUnfold(b.View(), r, bits - i, code);
  }

  method ReadData(b: RecBuffer, r: Remote, bits: nat, done: nat) returns (code: Word)
    requires b.Valid() && Ready(b.View().tape) && Decodable(r)
    modifies b, b.data
    ensures b.Valid() && Data(b.View(), code) == GetData(old(b.View()), r, bits, done)
  {
    hide SyncSpace, GetBits, GetPairs, GetNibbles;
    match r.protocol {
      case Rcmm =>
        if bits % 2 != 0 || done % 2 != 0 {
          return FAILED;
        }
        var ok := b.SyncPendingSpace(r);
        if !ok {
          return ZERO;
        }
        code := ReadPairs(b, r, bits);
      case Xmp =>
        if bits % 4 != 0 || done % 4 != 0 {
          return FAILED;
        }
        var ok := b.SyncPendingSpace(r);
        if !ok {
          return ZERO;
        }
        code := ReadNibbles(b, r, bits);
      case _ =>
        code := ReadBits(b, r, bits, done);
    }
  }

  /** Returns the space synchronised on, 0 if there is none. */
  method FindSync(b: RecBuffer, r: Remote, last: Last) returns (gap: nat)
    requires b.Valid() && b.rptr == 0
    modifies b, b.data
    ensures b.Valid() && Length(b.View(), gap) == SyncBuffer(old(b.View()), r, last)
  {
    gap := b.GetSpace(1000000);
    if gap == 0 {
      return;
    }
    if last.Last? && !r.protocol.Rcmm? {
      gap := FindGap(b, last, gap);
      if gap == 0 {
        return;
      }
    }
    b.sum := 0;
  }

  lemma SyncUnfold(s: Rx, last: Last, gap: nat, count: nat)
    requires Ready(s.tape) && last.Last? && count <= REC_SYNC
    ensures last.remote.ExpectAtLeast(gap, last.minRemainingGap) ==> SyncLoop(s, last, gap, count) == Length(s, gap)
    ensures !last.remote.ExpectAtLeast(gap, last.minRemainingGap) ==>
              var p := NextPulse(s, 1000000);
              var q := NextSpace(p.s, 1000000);
              SyncLoop(s, last, gap, count) ==
              if p.len == 0 then p
              else if q.len == 0 || count == REC_SYNC then Length(q.s, 0)
              else SyncLoop(q.s, last, q.len, count + 1)
  {
    hide NextPulse, NextSpace, Remote.ExpectAtLeast;
  }

  method FindGap(b: RecBuffer, last: Last, first: nat) returns (gap: nat)
    requires b.Valid() && Ready(b.View().tape) && last.Last?
    modifies b, b.data
    ensures b.Valid() && Length(b.View(), gap) == SyncLoop(old(b.View()), last, first, 0)
  {
    hide SyncLoop, NextPulse, NextSpace, Remote.ExpectAtLeast;
    gap := first;
    var count := 0;
    while !last.remote.ExpectAtLeast(gap, last.minRemainingGap)
      invariant b.Valid() && Ready(b.View().tape) && count <= REC_SYNC
      invariant SyncLoop(old(b.View()), last, first, 0) == SyncLoop(b.View(), last, gap, count)
      decreases REC_SYNC - count
    {
      SyncUnfold(b.View(), last, gap, count);
      var deltap := b.GetPulse(1000000);
      if deltap == 0 {
        return 0;
      }
      gap := b.GetSpace(1000000);
      if gap == 0 {
        return;
      }
      if count == REC_SYNC {
        return 0;
      }
      count := count + 1;
    }
    SyncUnfold(b.View(), last, gap, count);
  }

  method ReadHeader(b: RecBuffer, r: Remote) returns (ok: bool)
    requires b.Valid() && Ready(b.View().tape)
    modifies b, b.data
    ensures b.Valid() && Step(b.View(), ok) == GetHeader(old(b.View()), r)
  {
    hide NextPulse, NextSpace, ExpectPulse, SyncSpace, Remote.Expect;
    if r.protocol.Rcmm? {
      var deltap := b.GetPulse(r.phead);
      if deltap == 0 {
        b.UngetSignals(1);
        return false;
      }
      var deltas := b.GetSpace(r.shead);
      if deltas == 0 {
        b.UngetSignals(2);
        return false;
      }
      if r.Expect(deltap + deltas, r.phead + r.shead) {
        return true;
      }
      b.UngetSignals(2);
      return false;
    }
    if r.shead == 0 {
      ok := b.SyncPendingSpace(r);
      if ok {
        b.pendingp := r.phead;
      }
      return;
    }
    ok := b.MatchPulse(r, r.phead);
    if !ok {
      b.UngetSignals(1);
      return;
    }
    if r.noHeadRep {
      // a decision is needed now if this is really a header
      var deltas := b.GetSpace(r.shead);
      if deltas != 0 {
        if r.Expect(r.shead, deltas) {
          return true;
        }
        b.UngetSignals(2);
        return false;
      }
    }
    b.pendings := r.shead;
  }

  method ReadLead(b: RecBuffer, r: Remote) returns (ok: bool)
    requires b.Valid() && Ready(b.View().tape)
    modifies b, b.data
    ensures b.Valid() && Step(b.View(), ok) == GetLead(old(b.View()), r)
  {
    if r.plead == 0 {
      return true;
    }
    ok := b.SyncPendingSpace(r);
    if ok {
      b.pendingp := r.plead;
    }
  }

  method ReadTrail(b: RecBuffer, r: Remote) returns (ok: bool)
    requires b.Valid() && Ready(b.View().tape)
    modifies b, b.data
    ensures b.Valid() && Step(b.View(), ok) == GetTrail(old(b.View()), r)
  {
    ok := true;
    if r.ptrail != 0 {
      ok := b.MatchPulse(r, r.ptrail);
      if !ok {
        return;
      }
    }
    if b.pendingp > 0 {
      ok := b.SyncPendingPulse(r);
    }
  }

  method ReadFoot(b: RecBuffer, r: Remote) returns (ok: bool)
    requires b.Valid() && Ready(b.View().tape)
    modifies b, b.data
    ensures b.Valid() && Step(b.View(), ok) == GetFoot(old(b.View()), r)
  {
    ok := b.MatchSpace(r, r.sfoot);
    if ok {
      ok := b.MatchPulse(r, r.pfoot);
    }
  }

  method FindGapAfter(b: RecBuffer, r: Remote, gap: nat) returns (ok: bool)
    requires b.Valid() && Ready(b.View().tape)
    modifies b, b.data
    ensures b.Valid() && Step(b.View(), ok) == GetGap(old(b.View()), r, gap)
  {
    hide NextInternal;
    var slack := gap * r.eps / 100;
    var got := b.GetNext(if slack <= gap then gap - slack else 0);
    if got == NOTHING {
      return true;
    }
    if got.Pulse? {
      return false;
    }
    b.UngetSignals(1);
    ok := r.ExpectAtLeast(got.len, gap);
  }

  method ReadRepeat(b: RecBuffer, r: Remote) returns (ok: bool)
    requires b.Valid() && Ready(b.View().tape)
    modifies b, b.data
    ensures b.Valid() && Step(b.View(), ok) == GetRepeat(old(b.View()), r)
  {
    hide GetLead, GetTrail, GetGap, RepeatGapOf;
    ok := ReadLead(b, r);
    if !ok {
      return;
    }
    if r.IsBiphase() {
      ok := b.MatchSpace(r, r.srepeat);
      if !ok {
        return;
      }
      ok := b.MatchPulse(r, r.prepeat);
      if !ok {
        return;
      }
    } else {
      ok := b.MatchPulse(r, r.prepeat);
      if !ok {
        return;
      }
      b.pendings := r.srepeat;
    }
    ok := ReadTrail(b, r);
    if ok {
      ok := FindGapAfter(b, r, RepeatGapOf(r, r.MinGap(), b.sum));
    }
  }

  method ReadDivider(b: RecBuffer, r: Remote, p: nat, d: nat) returns (ok: bool)
    requires b.Valid() && Ready(b.View().tape)
    modifies b, b.data
    ensures b.Valid() && Step(b.View(), ok) == GetDivider(old(b.View()), r, p, d)
  {
    ok := true;
    if p > 0 && d > 0 {
      ok := b.MatchPulse(r, p);
      if ok {
        b.pendings := d;
      }
    }
  }

  method ReadPre(b: RecBuffer, r: Remote) returns (code: Word)
    requires b.Valid() && Ready(b.View().tape) && Decodable(r)
    modifies b, b.data
    ensures b.Valid() && Data(b.View(), code) == GetPre(old(b.View()), r)
  {
    hide GetData, GetDivider;
    code := ReadData(b, r, r.preDataBits, 0);
    if code == FAILED {
      return;
    }
    var ok := ReadDivider(b, r, r.preP, r.preS);
    if !ok {
      return FAILED;
    }
  }

  method ReadPost(b: RecBuffer, r: Remote) returns (code: Word)
    requires b.Valid() && Ready(b.View().tape) && Decodable(r)
    modifies b, b.data
    ensures b.Valid() && Data(b.View(), code) == GetPost(old(b.View()), r)
  {
    hide GetData, GetDivider;
    var ok := ReadDivider(b, r, r.postP, r.postS);
    if !ok {
      return FAILED;
    }
    code := ReadData(b, r, r.postDataBits, r.preDataBits + r.bits);
  }

  method ReadBody(b: RecBuffer, r: Remote) returns (pre: Word, code: Word, post: Word, ok: bool)
    requires b.Valid() && Ready(b.View().tape) && Decodable(r)
    modifies b, b.data
    ensures b.Valid()
    ensures var x := GetBody(old(b.View()), r);
            b.View() == x.s && ok == x.ok && (ok ==> pre == x.pre && code == x.code && post == x.post)
  {
    hide GetData, GetPre, GetPost, GetTrail, GetFoot, GetLead;
    pre, code, post := ZERO, ZERO, ZERO;
    ok := ReadLead(b, r);
    if !ok {
      return;
    }
    if r.HasPre() {
      pre := ReadPre(b, r);
      if pre == FAILED {
        ok := false;
        return;
      }
    }
    ZeroIsNotFailed();
    code := ReadData(b, r, r.bits, r.preDataBits);
    if code == FAILED {
      ok := false;
      return;
    }
    if r.HasPost() {
      post := ReadPost(b, r);
      if post == FAILED {
        ok := false;
        return;
      }
    }
    ok := ReadTrail(b, r);
    if ok && r.HasFoot() {
      ok := ReadFoot(b, r);
    }
  }

  lemma ZeroIsNotFailed()
    ensures ZERO != FAILED
  {
    assert !ZERO[0] && FAILED[0];
  }

  method ReadFrame(b: RecBuffer, r: Remote, c: Context, sync: nat) returns (frame: Option<Frame>)
    requires b.Valid() && Ready(b.View().tape) && Decodable(r)
    modifies b, b.data
    ensures b.Valid() && Decoded(b.View(), frame) == GetFrame(old(b.View()), r, c, sync)
  {
    hide GetHeader, GetBody, GetGap, Remaining, GapAfter;
    var header := false;
    if r.HasHeader() {
      header := ReadHeader(b, r);
      if !header && !(r.noHeadRep && r.ExpectAtMost(sync, r.MaxGap())) {
        return None;
      }
    }
    var pre, code, post, ok := ReadBody(b, r);
    if !ok {
      return None;
    }
    if header && r.constLength && r.noHeadRep {
      b.sum := b.sum - (r.phead + r.shead);
    }
    ok := FindGapAfter(b, r, GapAfter(r, b.sum));
    if !ok {
      return None;
    }
    var repeat := (!r.HasRepeat() || c.reps < r.minCodeRepeat) && r.ExpectAtMost(sync, c.maxRemainingGap);
    if r.constLength {
      return Some(Frame(pre, code, post, repeat, Remaining(r.MinGap(), b.sum), Remaining(r.MaxGap(), b.sum)));
    } else {
      return Some(Frame(pre, code, post, repeat, r.MinGap(), r.MaxGap()));
    }
  }

  /** `receive_decode`: whatever the device delivers, it runs within the buffer and computes
      `ReceiveDecode`. */
  method Decode(b: RecBuffer, r: Remote, c: Context) returns (frame: Option<Frame>)
    requires b.Valid() && Decodable(r)
    modifies b, b.data
    ensures b.Valid() && Decoded(b.View(), frame) == ReceiveDecode(old(b.View()), r, c)
  {
    hide GetHeader, GetRepeat, GetFrame, SyncBuffer, RepeatGapOf;
    b.RewindBuffer();
    var sync := FindSync(b, r, c.last);
    if sync == 0 {
      return None;
    }
    if r.HasRepeat() && c.own {
      if r.repeatHeader && r.HasHeader() {
        var ok := ReadHeader(b, r);
        if !ok {
          return None;
        }
      }
      var ok := ReadRepeat(b, r);
      if ok {
        if c.lastCode.None? {
          return None;
        }
        return Some(Frame(r.preData, c.lastCode.value, r.postData, true,
                          RepeatGapOf(r, r.MinGap(), b.sum), RepeatGapOf(r, r.MaxGap(), b.sum)));
      }
      b.RewindBuffer();
      var again := FindSync(b, r, c.last);
    }
    frame := ReadFrame(b, r, c, sync);
  }
}
