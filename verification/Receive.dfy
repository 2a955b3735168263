/** From received signals back to a code word (receive.c), for remotes that send the pulse of a
    bit first, for biphase remotes, RC-MM and XMP. */
module Receive {
  import opened Options
  import opened Words
  import opened Remotes
  import opened RecBuffers

  const REC_SYNC := 8

  datatype Data = Data(s: Rx, code: Word)

  /** The remote that was decoded last, and the gap its frame has to be followed by. */
  datatype Last = NoLast | Last(remote: Remote, minRemainingGap: nat, maxRemainingGap: nat)

  /** The state outside the receive buffer that decoding looks at; `own` says that the last
      remote is the one being tried. */
  datatype Context = Context(last: Last, own: bool, lastCode: Option<Word>, reps: nat, maxRemainingGap: nat)

  datatype Frame = Frame(pre: Word, code: Word, post: Word, repeatFlag: bool, minRemaining: nat, maxRemaining: nat)

  datatype Decoded = Decoded(s: Rx, frame: Option<Frame>)

  /** A symbol stands for one bit. */
  predicate OneBitSymbols(r: Remote) {
    !r.protocol.Rcmm? && !r.protocol.Xmp?
  }

  /** Where a one is put back as two signals, it has a pulse to begin it. */
  predicate BitsDecodable(r: Remote) {
    !r.IsBiphase() && r.ptrail > 0 && r.sone > 0 ==> r.pone > 0
  }

  /** Timings the decoder can work with: an XMP unit to divide by, and single bits that can be put
      back. */
  predicate Decodable(r: Remote) {
    (r.protocol.Xmp? ==> r.sone > 0) && (OneBitSymbols(r) ==> BitsDecodable(r))
  }

  function ExpectOne(s: Rx, r: Remote, k: nat): (x: Step)
    requires Ready(s.tape) && BitsDecodable(r)
    ensures Ready(x.s.tape)
  {
    if r.IsBiphase() then
      if r.sone > 0 then
        var x := ExpectSpace(s, r, r.Stretch(k, r.sone));
        if !x.ok then Step(Unget(x.s, 1), false) else Step(x.s.(pendingp := r.Stretch(k, r.pone)), true)
      else Step(s.(pendingp := r.Stretch(k, r.pone)), true)
    else
      var x := if r.pone > 0 then ExpectPulse(s, r, r.pone) else Step(s, true);
      if !x.ok then Step(Unget(x.s, 1), false)
      else if r.ptrail == 0 then Step(x.s.(pendings := r.sone), true)
      else if r.sone == 0 then x
      else
        var y := ExpectSpace(x.s, r, r.sone);
        if !y.ok then Step(Unget(y.s, 2), false) else y
  }

  function ExpectZero(s: Rx, r: Remote, k: nat): (x: Step)
    requires Ready(s.tape)
    ensures Ready(x.s.tape)
  {
    if r.IsBiphase() then
      var x := ExpectPulse(s, r, r.Stretch(k, r.pzero));
      if !x.ok then Step(Unget(x.s, 1), false) else Step(x.s.(pendings := r.Stretch(k, r.szero)), true)
    else
      var x := ExpectPulse(s, r, r.pzero);
      if !x.ok then Step(Unget(x.s, 1), false)
      else if r.ptrail == 0 then Step(x.s.(pendings := r.szero), true)
      else
        var y := ExpectSpace(x.s, r, r.szero);
        if !y.ok then Step(Unget(y.s, 2), false) else y
  }

  /** Each bit is first tried as a one, then as a zero. */
  function GetBits(s: Rx, r: Remote, n: nat, k: nat, code: Word): (x: Data)
    requires Ready(s.tape) && BitsDecodable(r)
    ensures Ready(x.s.tape)
    decreases n
  {
    if n == 0 then Data(s, code)
    else
      var one := ExpectOne(s, r, k);
      if one.ok then GetBits(one.s, r, n - 1, k + 1, ShiftIn(code, true))
      else
        var zero := ExpectZero(one.s, r, k);
        if zero.ok then GetBits(zero.s, r, n - 1, k + 1, ShiftIn(code, false))
        else Data(zero.s, FAILED)
  }

  /** An RC-MM symbol is told by the length of its pulse and space together; they are tried in
      order. */
  function PairOf(r: Remote, sum: nat): (o: Option<seq<bool>>)
    ensures o.Some? ==> |o.value| == 2
  {
    if r.Expect(sum, r.pzero + r.szero) then Some([false, false])
    else if r.Expect(sum, r.pone + r.sone) then Some([false, true])
    else if r.Expect(sum, r.ptwo + r.stwo) then Some([true, false])
    else if r.Expect(sum, r.pthree + r.sthree) then Some([true, true])
    else None
  }

  function GetPairs(s: Rx, r: Remote, n: nat, code: Word): (x: Data)
    requires Ready(s.tape)
    ensures Ready(x.s.tape)
    decreases n
  {
    if n < 2 then Data(s, code)
    else
      var p := NextPulse(s, r.pzero + r.pone + r.ptwo + r.pthree);
      var q := NextSpace(p.s, r.szero + r.sone + r.stwo + r.sthree);
      if p.len == 0 || q.len == 0 then Data(q.s, FAILED)
      else
        match PairOf(r, p.len + q.len)
        case None => Data(q.s, FAILED)
        case Some(bs) => GetPairs(q.s, r, n - 2, ShiftInAll(code, bs))
  }

  /** Division that truncates toward zero. */
  function TruncDiv(a: int, b: nat): int
    requires b > 0
  {
    if a >= 0 then a / b else -(-a / b)
  }

  function NibbleBits(n: nat): (bs: seq<bool>)
    ensures |bs| == 4
  {
    [n / 8 % 2 == 1, n / 4 % 2 == 1, n / 2 % 2 == 1, n % 2 == 1]
  }

  /** The value of an XMP symbol of length `sum`, rounded to the nearest unit; a negative one is
      enormous as an unsigned number. */
  function NibbleOf(r: Remote, sum: int): Option<nat>
    requires r.sone > 0
  {
    var n := TruncDiv(sum - (r.pzero + r.szero) + r.sone / 2, r.sone);
    if 0 <= n < 16 then Some(n) else None
  }

  function GetNibbles(s: Rx, r: Remote, n: nat, code: Word): (x: Data)
    requires Ready(s.tape) && r.sone > 0
    ensures Ready(x.s.tape)
    decreases n
  {
    if n < 4 then Data(s, code)
    else
      var p := NextPulse(s, r.pzero);
      var q := NextSpace(p.s, r.szero + 16 * r.sone);
      if p.len == 0 || q.len == 0 then Data(q.s, FAILED)
      else
        match NibbleOf(r, p.len + q.len)
        case None => Data(q.s, FAILED)
        case Some(v) => GetNibbles(q.s, r, n - 4, ShiftInAll(code, NibbleBits(v)))
  }

  /** `get_data`. A pending space that fails to arrive makes RC-MM and XMP return 0, which is a
      code like any other. */
  function GetData(s: Rx, r: Remote, bits: nat, done: nat): (x: Data)
    requires Ready(s.tape) && Decodable(r)
    ensures Ready(x.s.tape)
  {
    match r.protocol
    case Rcmm =>
      if bits % 2 != 0 || done % 2 != 0 then Data(s, FAILED)
      else
        var y := SyncSpace(s, r);
        if !y.ok then Data(y.s, ZERO) else GetPairs(y.s, r, bits, ZERO)
    case Xmp =>
      if bits % 4 != 0 || done % 4 != 0 then Data(s, FAILED)
      else
        var y := SyncSpace(s, r);
        if !y.ok then Data(y.s, ZERO) else GetNibbles(y.s, r, bits, ZERO)
    case _ => GetBits(s, r, bits, done, ZERO)
  }

  function SyncLoop(s: Rx, last: Last, gap: nat, count: nat): (x: Length)
    requires Ready(s.tape) && last.Last? && count <= REC_SYNC
    ensures Ready(x.s.tape)
    decreases REC_SYNC + 1 - count
  {
    if last.remote.ExpectAtLeast(gap, last.minRemainingGap) then Length(s, gap)
    else
      var p := NextPulse(s, 1000000);
      if p.len == 0 then p
      else
        var q := NextSpace(p.s, 1000000);
        if q.len == 0 || count == REC_SYNC then Length(q.s, 0) else SyncLoop(q.s, last, q.len, count + 1)
  }

  function RestartSum(s: Rx): Rx {
    s.(tape := s.tape.(sum := 0))
  }

  /** `sync_rec_buffer`: reads up to a space long enough to have ended the last frame. */
  function SyncBuffer(s: Rx, r: Remote, last: Last): (x: Length)
    requires Safe(s.tape) && s.tape.rptr == 0
    ensures Safe(x.s.tape)
    ensures x.len != 0 || Ready(s.tape) ==> Ready(x.s.tape)
  {
    var q := NextSpace(s, 1000000);
    if q.len == 0 then q
    else if last.NoLast? || r.protocol.Rcmm? then Length(RestartSum(q.s), q.len)
    else
      var x := SyncLoop(q.s, last, q.len, 0);
      if x.len == 0 then x else Length(RestartSum(x.s), x.len)
  }

  function GetHeader(s: Rx, r: Remote): (x: Step)
    requires Ready(s.tape)
    ensures Ready(x.s.tape)
  {
    if r.protocol.Rcmm? then
      var p := NextPulse(s, r.phead);
      if p.len == 0 then Step(Unget(p.s, 1), false)
      else
        var q := NextSpace(p.s, r.shead);
        if q.len == 0 || !r.Expect(p.len + q.len, r.phead + r.shead) then Step(Unget(q.s, 2), false)
        else Step(q.s, true)
    else if r.shead == 0 then
      var y := SyncSpace(s, r);
      if !y.ok then y else Step(y.s.(pendingp := r.phead), true)
    else
      var x := ExpectPulse(s, r, r.phead);
      if !x.ok then Step(Unget(x.s, 1), false)
      else if r.noHeadRep then
        var q := NextSpace(x.s, r.shead);
        if q.len == 0 then Step(q.s.(pendings := r.shead), true)
        else if r.Expect(r.shead, q.len) then Step(q.s, true)
        else Step(Unget(q.s, 2), false)
      else Step(x.s.(pendings := r.shead), true)
  }

  function GetLead(s: Rx, r: Remote): (x: Step)
    requires Ready(s.tape)
    ensures Ready(x.s.tape)
  {
    if r.plead == 0 then Step(s, true)
    else
      var y := SyncSpace(s, r);
      if !y.ok then y else Step(y.s.(pendingp := r.plead), true)
  }

  function GetTrail(s: Rx, r: Remote): (x: Step)
    requires Ready(s.tape)
    ensures Ready(x.s.tape)
  {
    var x := if r.ptrail != 0 then ExpectPulse(s, r, r.ptrail) else Step(s, true);
    if !x.ok then x else SyncPulse(x.s, r)
  }

  function GetFoot(s: Rx, r: Remote): (x: Step)
    requires Ready(s.tape)
    ensures Ready(x.s.tape)
  {
    var x := ExpectSpace(s, r, r.sfoot);
    if !x.ok then x else ExpectPulse(x.s, r, r.pfoot)
  }

  /** Silence, or a space of at least the gap; the space is left for the next frame. */
  function GetGap(s: Rx, r: Remote, gap: nat): (x: Step)
    requires Ready(s.tape)
    ensures Ready(x.s.tape)
  {
    var slack := gap * r.eps / 100;
    var x := Next(s.tape, if slack <= gap then gap - slack else 0);
    var y := s.(tape := x.tape);
    if x.got == NOTHING then Step(y, true)
    else if x.got.Pulse? then Step(y, false)
    else Step(Unget(y, 1), r.ExpectAtLeast(x.got.len, gap))
  }

  /** What is left of a gap once `sum` has passed. */
  function Remaining(gap: nat, sum: int): (g: nat) {
    if sum < 0 then gap - sum else if gap > sum then gap - sum else 0
  }

  function RepeatGapOf(r: Remote, gap: nat, sum: int): nat {
    if r.constLength then Remaining(gap, sum) else if r.HasRepeatGap() then r.repeatGap else gap
  }

  function GetRepeatMark(s: Rx, r: Remote): (x: Step)
    requires Ready(s.tape)
    ensures Ready(x.s.tape)
  {
    if r.IsBiphase() then
      var y := ExpectSpace(s, r, r.srepeat);
      if !y.ok then y else ExpectPulse(y.s, r, r.prepeat)
    else
      var y := ExpectPulse(s, r, r.prepeat);
      if !y.ok then y else Step(y.s.(pendings := r.srepeat), true)
  }

  function GetRepeat(s: Rx, r: Remote): (x: Step)
    requires Ready(s.tape)
    ensures Ready(x.s.tape)
  {
    var lead := GetLead(s, r);
    if !lead.ok then lead
    else
      var x := GetRepeatMark(lead.s, r);
      if !x.ok then x
      else
        var trail := GetTrail(x.s, r);
        if !trail.ok then trail
        else GetGap(trail.s, r, RepeatGapOf(r, r.MinGap(), trail.s.tape.sum))
  }

  /** The signal between two parts of a code, if there is one. */
  function GetDivider(s: Rx, r: Remote, p: nat, d: nat): (x: Step)
    requires Ready(s.tape)
    ensures Ready(x.s.tape)
  {
    if p > 0 && d > 0 then
      var x := ExpectPulse(s, r, p);
      if !x.ok then x else Step(x.s.(pendings := d), true)
    else Step(s, true)
  }

  function GetPre(s: Rx, r: Remote): (x: Data)
    requires Ready(s.tape) && Decodable(r)
    ensures Ready(x.s.tape)
  {
    var d := GetData(s, r, r.preDataBits, 0);
    if d.code == FAILED then d
    else
      var x := GetDivider(d.s, r, r.preP, r.preS);
      Data(x.s, if x.ok then d.code else FAILED)
  }

  function GetPost(s: Rx, r: Remote): (x: Data)
    requires Ready(s.tape) && Decodable(r)
    ensures Ready(x.s.tape)
  {
    var x := GetDivider(s, r, r.postP, r.postS);
    if !x.ok then Data(x.s, FAILED) else GetData(x.s, r, r.postDataBits, r.preDataBits + r.bits)
  }

  /** Everything between the header and the end of the frame. */
  datatype Body = Body(s: Rx, pre: Word, code: Word, post: Word, ok: bool)

  function GetBody(s: Rx, r: Remote): (x: Body)
    requires Ready(s.tape) && Decodable(r)
    ensures Ready(x.s.tape)
  {
    var lead := GetLead(s, r);
    if !lead.ok then Body(lead.s, ZERO, ZERO, ZERO, false)
    else
      var pre := if r.HasPre() then GetPre(lead.s, r) else Data(lead.s, ZERO);
      if pre.code == FAILED then Body(pre.s, ZERO, ZERO, ZERO, false)
      else
        var code := GetData(pre.s, r, r.bits, r.preDataBits);
        if code.code == FAILED then Body(code.s, ZERO, ZERO, ZERO, false)
        else
          var post := if r.HasPost() then GetPost(code.s, r) else Data(code.s, ZERO);
          if post.code == FAILED then Body(post.s, ZERO, ZERO, ZERO, false)
          else
            var trail := GetTrail(post.s, r);
            if !trail.ok then Body(trail.s, ZERO, ZERO, ZERO, false)
            else
              var foot := if r.HasFoot() then GetFoot(trail.s, r) else trail;
              Body(foot.s, pre.code, code.code, post.code, foot.ok)
  }

  function GapAfter(r: Remote, sum: int): nat {
    if r.protocol.Rcmm? then 1000
    else if r.constLength then Remaining(r.MinGap(), sum)
    else r.MinGap()
  }

  function DiscountHeader(s: Rx, r: Remote, header: bool): Rx {
    if header && r.constLength && r.noHeadRep then s.(tape := s.tape.(sum := s.tape.sum - (r.phead + r.shead))) else s
  }

  /** A whole frame, once synchronised by a space of length `sync`. */
  function GetFrame(s: Rx, r: Remote, c: Context, sync: nat): (x: Decoded)
    requires Ready(s.tape) && Decodable(r)
    ensures Ready(x.s.tape)
  {
    var head := if r.HasHeader() then GetHeader(s, r) else Step(s, false);
    if r.HasHeader() && !head.ok && !(r.noHeadRep && r.ExpectAtMost(sync, r.MaxGap())) then Decoded(head.s, None)
    else
      var b := GetBody(head.s, r);
      if !b.ok then Decoded(b.s, None)
      else
        var t := DiscountHeader(b.s, r, head.ok);
        var g := GetGap(t, r, GapAfter(r, t.tape.sum));
        if !g.ok then Decoded(g.s, None)
        else
          var repeat := (!r.HasRepeat() || c.reps < r.minCodeRepeat) && r.ExpectAtMost(sync, c.maxRemainingGap);
          Decoded(g.s, Some(Frame(b.pre, b.code, b.post, repeat,
                                  if r.constLength then Remaining(r.MinGap(), g.s.tape.sum) else r.MinGap(),
                                  if r.constLength then Remaining(r.MaxGap(), g.s.tape.sum) else r.MaxGap())))
  }

  /** `receive_decode` for a device that reports pulses and spaces. Whatever the device delivers,
      the read pointer stays inside the data (see `Safe`). */
  function ReceiveDecode(s: Rx, r: Remote, c: Context): (x: Decoded)
    requires Safe(s.tape) && Decodable(r)
    ensures Safe(x.s.tape)
  {
    var y := SyncBuffer(Rewind(s), r, c.last);
    if y.len == 0 then Decoded(y.s, None)
    else if r.HasRepeat() && c.own then
      var head := if r.repeatHeader && r.HasHeader() then GetHeader(y.s, r) else Step(y.s, true);
      if !head.ok then Decoded(head.s, None)
      else
        var rep := GetRepeat(head.s, r);
        if rep.ok then
          if c.lastCode.None? then Decoded(rep.s, None)
          else Decoded(rep.s, Some(Frame(r.preData, c.lastCode.value, r.postData, true,
                                         RepeatGapOf(r, r.MinGap(), rep.s.tape.sum),
                                         RepeatGapOf(r, r.MaxGap(), rep.s.tape.sum))))
        else GetFrame(SyncBuffer(Rewind(rep.s), r, c.last).s, r, c, y.len)
    else GetFrame(y.s, r, c, y.len)
  }
}
