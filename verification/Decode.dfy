/** From a decoded frame to an event: `get_code`, `set_code` and `decode_all` for one remote. */
module Decode {
  import opened Options
  import opened Words
  import opened Remotes
  import opened Recogniser

  datatype Frames = Frames(pre: Word, code: Word, post: Word)

  /** `w` with its `k` low bits combined with the bits `lo`, `lo + 1`, ... of the mask. */
  function XorPart(w: Word, mask: Word, lo: nat, k: nat): Word
    requires lo + k <= 64
  {
    seq(64, i requires 0 <= i < 64 => w[i] != (i >= 64 - k && mask[i - lo]))
  }

  /** The toggle mask taken off a frame again. */
  function Untoggle(r: Remote, w: Frames): Frames
    requires r.BitCount() <= 64
  {
    Frames(XorPart(w.pre, r.toggleMask, r.postDataBits + r.bits, r.preDataBits),
           XorPart(w.code, r.toggleMask, r.postDataBits, r.bits),
           XorPart(w.post, r.toggleMask, 0, r.postDataBits))
  }

  function Min(a: int, b: int): int {
    if a < b then a else b
  }

  function Clamp(a: int, b: int): int {
    if a < 0 then 0 else Min(a, b)
  }

  lemma XorPartNext(w: Word, mask: Word, lo: nat, k: nat)
    requires lo + k < 64
    ensures XorPart(w, mask, lo, k)[63 - k := w[63 - k] != mask[63 - lo - k]] == XorPart(w, mask, lo, k + 1)
    ensures XorPart(w, mask, lo, k)[63 - k] == w[63 - k]
  {
  }

  lemma XorPartNothing(w: Word, mask: Word, lo: nat)
    requires lo <= 64
    ensures XorPart(w, mask, lo, 0) == w
  {
  }

  /** Bit `bit` of the mask goes to bit `current` of the part that is affected. */
  method FlipBit(ghost w: Word, v: Word, mask: Word, bit: nat, current: nat) returns (u: Word)
    requires current <= bit < 64 && v == XorPart(w, mask, bit - current, current)
    ensures u == XorPart(w, mask, bit - current, current + 1)
  {
    XorPartNext(w, mask, bit - current, current);
    u := v[63 - current := v[63 - current] != TestBit(mask, bit)];
  }

  /** The loop of `get_code` over the bits of the mask, lowest first; `current` counts within the
      part of the frame that is affected. */
  method UntoggleBits(r: Remote, w: Frames) returns (u: Frames)
    requires r.BitCount() <= 64
    ensures u == Untoggle(r, w)
  {
    hide XorPart;
    var p, b := r.postDataBits, r.bits;
    XorPartNothing(w.post, r.toggleMask, 0);
    XorPartNothing(w.code, r.toggleMask, p);
    XorPartNothing(w.pre, r.toggleMask, p + b);
    var pre, code, post := w.pre, w.code, w.post;
    var affected, current := 0, 0;
    for bit := 0 to r.BitCount()
      invariant affected == if bit > p + b then 2 else if bit > p then 1 else 0
      invariant current == if bit > p + b then bit - p - b else if bit > p then bit - p else bit
      invariant post == XorPart(w.post, r.toggleMask, 0, Clamp(bit, p))
      invariant code == XorPart(w.code, r.toggleMask, p, Clamp(bit - p, b))
      invariant pre == XorPart(w.pre, r.toggleMask, p + b, Clamp(bit - p - b, r.preDataBits))
    {
      if bit == p {
        affected, current := 1, 0;
      }
      if bit == p + b {
        affected, current := 2, 0;
      }
      if affected == 0 {
        post := FlipBit(w.post, post, r.toggleMask, bit, current);
      } else if affected == 1 {
        code := FlipBit(w.code, code, r.toggleMask, bit, current);
      } else {
        pre := FlipBit(w.pre, pre, r.toggleMask, bit, current);
      }
      current := current + 1;
    }
    u := Frames(pre, code, post);
  }

  /** The state of a remote between frames, its buttons apart. */
  datatype State = State(maskState: nat, toggleCode: Option<nat>, reps: nat, lastCode: Option<nat>,
                         releaseDetected: bool, bitMaskState: Word)

  /** How a frame relates to the one before it: the decoder marked it as a repetition, this remote
      was the last to be decoded, and that was less than a second ago. */
  datatype Timing = Timing(repeatFlag: bool, sameRemote: bool, recent: bool)

  /** Pre-data and post-data are right, up to toggle bits and ignored bits. */
  predicate DataMatches(r: Remote, w: Frames)
    requires r.BitCount() <= 64
  {
    var preMask := Or(ShiftRight(r.toggleBitMask, r.bits + r.postDataBits),
                      ShiftRight(r.ignoreMask, r.bits + r.postDataBits));
    var postMask := Or(Mask(r.toggleBitMask, r.postDataBits), Mask(r.ignoreMask, r.postDataBits));
    && (r.HasPre() ==> Or(w.pre, preMask) == Or(r.preData, preMask))
    && (r.HasPost() ==> Or(w.post, postMask) == Or(r.postData, postMask))
  }

  /** The words agree in every bit but those, of the last `bits`, that are toggle bits or ignored at
      their place in the whole word, `lo` bits further up. */
  predicate SameBut(r: Remote, a: Word, b: Word, lo: nat, bits: nat)
    requires bits <= 64
  {
    forall j :: 0 <= j < 64 ==> a[j] == b[j] || (j >= 64 - bits && Disregarded(r, j - lo))
  }

  predicate Disregarded(r: Remote, i: int) {
    0 <= i < 64 && (r.toggleBitMask[i] || r.ignoreMask[i])
  }

  lemma SameUnder(a: Word, b: Word, mask: Word)
    ensures Or(a, mask) == Or(b, mask) <==> forall j :: 0 <= j < 64 ==> a[j] == b[j] || mask[j]
  {
    if Or(a, mask) == Or(b, mask) {
      forall j | 0 <= j < 64
        ensures a[j] == b[j] || mask[j]
      {
        assert Or(a, mask)[j] == Or(b, mask)[j];
      }
    }
  }

  /** Pre-data and post-data have to agree with what is configured, but for toggle bits and ignored
      bits. */
  lemma DataMatchesBitwise(r: Remote, w: Frames)
    requires r.BitCount() <= 64
    ensures DataMatches(r, w) <==>
            && (r.HasPre() ==> SameBut(r, w.pre, r.preData, r.bits + r.postDataBits, 64))
            && (r.HasPost() ==> SameBut(r, w.post, r.postData, 0, r.postDataBits))
  {
    var k := r.bits + r.postDataBits;
    var pre := Or(ShiftRight(r.toggleBitMask, k), ShiftRight(r.ignoreMask, k));
    var post := Or(Mask(r.toggleBitMask, r.postDataBits), Mask(r.ignoreMask, r.postDataBits));
    SameUnder(w.pre, r.preData, pre);
    SameUnder(w.post, r.postData, post);
    assert forall j :: 0 <= j < 64 ==> pre[j] == Disregarded(r, j - k);
    assert forall j :: 0 <= j < 64 ==> post[j] == (j >= 64 - r.postDataBits && Disregarded(r, j));
  }

  predicate Odd(r: Remote, s: State) {
    r.HasToggleMask() && s.maskState % 2 == 1
  }

  /** The frame with the toggle mask taken off, if this is a frame that has it. */
  function Plaintext(r: Remote, s: State, w: Frames): Frames
    requires r.BitCount() <= 64
  {
    if Odd(r, s) then Untoggle(r, w) else w
  }

  function WholeCode(r: Remote, w: Frames): Word
    requires r.BitCount() <= 64
  {
    GenCode(r, w.pre, w.code, w.post)
  }

  /** A remote with a toggle mask sends each code twice: the second frame has to be of the button
      that the first was of. */
  function CheckToggle(r: Remote, s: State, found: Option<nat>): (State, Option<nat>) {
    if found.None? || !r.HasToggleMask() then (s, found)
    else if s.maskState % 2 == 0 then (s.(toggleCode := found), found)
    else (s.(toggleCode := None), if found == s.toggleCode then found else None)
  }

  /** The frame goes on with what was received before. */
  predicate Repeats(r: Remote, s: State, c: NCode, found: nat, bitMask: Word, t: Timing) {
    && t.sameRemote && t.recent && t.repeatFlag && !s.releaseDetected
    && (s.lastCode == Some(found) || (c.next != [] && c.current != 0))
    && (!r.HasToggleBitMask() || bitMask == s.bitMaskState)
  }

  /** `set_code`: `c` is the button found, after it was advanced. */
  function SetCode(r: Remote, s: State, c: NCode, found: nat, bitMask: Word, t: Timing): State {
    var u :=
      if Repeats(r, s, c, found, bitMask, t) then
        if r.HasToggleMask() then
          if s.maskState + 1 == 4 then s.(maskState := 2, reps := s.reps + 1) else s.(maskState := s.maskState + 1)
        else if c.current == 0 then s.(reps := s.reps + 1) else s
      else
        State(if r.HasToggleMask() then 1 else s.maskState,
              if r.HasToggleMask() then Some(found) else s.toggleCode,
              if c.next != [] && c.current == 0 then 1 else 0,
              s.lastCode, s.releaseDetected,
              if r.HasToggleBitMask() then bitMask else s.bitMaskState);
    u.(lastCode := if c.current == 0 then Some(found) else s.lastCode, releaseDetected := false)
  }

  /** A button where all sequences start over: the one that was found, of an XMP remote, goes on from
      its second code. */
  function Restarted(r: Remote, c: NCode, found: bool): NCode {
    c.(current := if found && r.protocol.Xmp? && c.next != [] then 1 else 0)
  }

  /** The repeat count that is announced, if the event is: half of a toggled pair and the middle of
      a sequence are not, nor are suppressed repeats. */
  function Announced(r: Remote, s: State, c: NCode): Option<int> {
    if Odd(r, s) || c.current != 0 then None
    else
      var reps := s.reps - if c.next != [] then 1 else 0;
      if reps <= 0 then Some(reps)
      else if reps <= r.suppressRepeat then None
      else Some(reps - r.suppressRepeat)
  }

  datatype Event = Event(button: nat, reps: int)

  /** One frame of this remote: from state `s` with buttons `codes` to state `u`, announcing `e`. */
  ghost predicate Step(r: Remote, s: State, codes: seq<NCode>, w: Frames, t: Timing, u: State, e: Option<Event>)
    requires r.BitCount() <= 64 && AllValid(codes)
  {
    var v := Plaintext(r, s, w);
    if !DataMatches(r, v) then u == s.(maskState := 0) && e == None
    else
      exists found ::
        Reported(r, codes, WholeCode(r, v), found) && Outcome(r, s, codes, WholeCode(r, v), found, t, u, e)
  }

  predicate Outcome(r: Remote, s: State, codes: seq<NCode>, all: Word, found: Option<nat>, t: Timing,
                    u: State, e: Option<Event>)
    requires r.BitCount() <= 64
  {
    var (s', found') := CheckToggle(r, s, found);
    if found'.None? then u == s'.(maskState := 0) && e == None
    else
      && found'.value < |codes| && codes[found'.value].Valid()
      && var c := Advance(r, codes[found'.value], all);
         && u == SetCode(r, s', c, found'.value, And(all, r.toggleBitMask), t)
         && e == match Announced(r, u, c) { case None => None case Some(n) => Some(Event(found'.value, n)) }
  }

  /** At an odd mask state a frame has to be of the button that the frame before it was of; of another
      one, or of none, it makes no event, and the pair begins anew. */
  lemma SecondFrameDecides(r: Remote, s: State, codes: seq<NCode>, all: Word, found: Option<nat>, t: Timing, u: State,
                           e: Option<Event>)
    requires r.BitCount() <= 64 && r.HasToggleMask() && s.maskState % 2 == 1
    requires Outcome(r, s, codes, all, found, t, u, e)
    ensures found.None? || found != s.toggleCode ==>
              e == None && u.maskState == 0 && u.reps == s.reps && u.lastCode == s.lastCode
              && (found.Some? ==> u.toggleCode == None)
    ensures u.maskState > 0 ==> found.Some? && found == s.toggleCode
    ensures e.Some? ==> e.value.button == found.value
  {
    hide Advance, And;
  }

  /** What `get_code` leaves behind and finds. */
  ghost predicate Finds(r: Remote, s: State, codes: seq<NCode>, w: Frames, u: State, all: Word, found: Option<nat>)
    requires r.BitCount() <= 64 && AllValid(codes)
  {
    var v := Plaintext(r, s, w);
    if !DataMatches(r, v) then u == s && found == None
    else
      && all == WholeCode(r, v)
      && exists first :: Reported(r, codes, all, first) && (u, found) == CheckToggle(r, s, first)
  }

  function And(a: seq<bool>, b: seq<bool>): (c: seq<bool>)
    requires |a| == |b|
    ensures |c| == |a|
  {
    seq(|a|, i requires 0 <= i < |a| => a[i] && b[i])
  }

  lemma ReportedInRange(r: Remote, codes: seq<NCode>, all: Word, found: Option<nat>)
    requires r.BitCount() <= 64 && AllValid(codes) && Reported(r, codes, all, found)
    ensures found.Some? ==> found.value < |codes|
  {
  }

  class RemoteState {
    const codes: array<NCode>
    var maskState: nat
    var toggleCode: Option<nat>
    var reps: nat
    var lastCode: Option<nat>
    var releaseDetected: bool
    var bitMaskState: Word

    ghost predicate Valid()
      reads this, codes
    {
      AllValid(codes[..])
    }

    function View(): State
      reads this
    {
      State(maskState, toggleCode, reps, lastCode, releaseDetected, bitMaskState)
    }

    constructor (codes: array<NCode>)
      requires AllValid(codes[..])
      ensures Valid() && this.codes == codes
      ensures View() == State(0, None, 0, None, false, ZERO)
    {
      this.codes := codes;
      maskState, toggleCode, reps, lastCode, releaseDetected, bitMaskState := 0, None, 0, None, false, ZERO;
    }

    /** `get_code` */
    method GetCode(r: Remote, w: Frames) returns (found: Option<nat>, all: Word)
      requires Valid() && r.BitCount() <= 64
      modifies this`toggleCode, codes
      ensures Valid()
      ensures Finds(r, old(View()), old(codes[..]), w, View(), all, found)
      ensures if DataMatches(r, Plaintext(r, old(View()), w)) then
                forall i :: 0 <= i < codes.Length ==> codes[i] == Advance(r, old(codes[i]), all)
              else codes[..] == old(codes[..])
      ensures found.Some? ==> found.value < codes.Length && DataMatches(r, Plaintext(r, old(View()), w))
    {
      hide Advance, Reported, DataMatches, Untoggle, GenCode;
      var v := w;
      all := ZERO;
      if r.HasToggleMask() && maskState % 2 == 1 {
        v := UntoggleBits(r, w);
      }
      if !DataMatches(r, v) {
        return None, all;
      }
      all := GenCode(r, v.pre, v.code, v.post);
      label before:
      found := FindButton(r, codes, all);
      assert Reported(r, old@before(codes[..]), all, found);
      ReportedInRange(r, old@before(codes[..]), all, found);
      if found.Some? && r.HasToggleMask() {
        if maskState % 2 == 0 {
          toggleCode := found;
        } else {
          if found != toggleCode {
            found := None;
          }
          toggleCode := None;
        }
      }
    }

    /** `set_code` */
    method RecordCode(r: Remote, found: nat, bitMask: Word, t: Timing)
      requires Valid() && found < codes.Length
      modifies this
      ensures Valid() && View() == SetCode(r, old(View()), codes[found], found, bitMask, t)
    {
      var c := codes[found];
      var flag := t.repeatFlag;
      if releaseDetected {
        releaseDetected := false;
        flag := false;
      }
      if t.sameRemote && (lastCode == Some(found) || (c.next != [] && c.current != 0)) && flag && t.recent
         && (!r.HasToggleBitMask() || bitMask == bitMaskState) {
        if r.HasToggleMask() {
          maskState := maskState + 1;
          if maskState == 4 {
            reps := reps + 1;
            maskState := 2;
          }
        } else if c.current == 0 {
          reps := reps + 1;
        }
      } else {
        reps := if c.next != [] && c.current == 0 then 1 else 0;
        if r.HasToggleMask() {
          maskState := 1;
          toggleCode := Some(found);
        }
        if r.HasToggleBitMask() {
          bitMaskState := bitMask;
        }
      }
      if c.current == 0 {
        lastCode := Some(found);
      }
    }
  }
}
