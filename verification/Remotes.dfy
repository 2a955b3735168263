/** The description of a remote control (`struct ir_remote`): the values a configuration file
    sets, the tests on them, and the tolerance comparisons every decoder uses. */
module Remotes {
  import opened Words

  /** The protocols that can be both sent and decoded. */
  datatype Protocol = SpaceEnc | Rc5 | Rc6 | Rcmm | Xmp

  datatype Remote = Remote(
    protocol: Protocol,
    bits: nat,
    constLength: bool, noHeadRep: bool, noFootRep: bool, repeatHeader: bool,
    eps: nat, aeps: nat, resolution: nat,
    phead: nat, shead: nat,
    pthree: nat, sthree: nat, ptwo: nat, stwo: nat, pone: nat, sone: nat, pzero: nat, szero: nat,
    plead: nat, ptrail: nat, pfoot: nat, sfoot: nat, prepeat: nat, srepeat: nat,
    preDataBits: nat, preData: Word, postDataBits: nat, postData: Word,
    preP: nat, preS: nat, postP: nat, postS: nat,
    gap: nat, gap2: nat, repeatGap: nat,
    toggleBitMask: Word, toggleMask: Word, rc6Mask: Word, ignoreMask: Word,
    suppressRepeat: nat, minRepeat: nat, minCodeRepeat: nat)
  {
    function BitCount(): nat { preDataBits + bits + postDataBits }

    predicate IsBiphase() { protocol.Rc5? || protocol.Rc6? || rc6Mask != ZERO }

    predicate HasHeader() { phead > 0 && shead > 0 }

    predicate HasFoot() { pfoot > 0 && sfoot > 0 }

    predicate HasPre() { preDataBits > 0 }

    predicate HasPost() { postDataBits > 0 }

    predicate HasRepeat() { prepeat > 0 && srepeat > 0 }

    predicate HasRepeatGap() { repeatGap > 0 }

    predicate HasToggleMask() { toggleMask != ZERO }

    predicate HasToggleBitMask() { toggleBitMask != ZERO }

    function MinGap(): nat { if gap2 != 0 && gap2 < gap then gap2 else gap }

    function MaxGap(): nat { if gap2 > gap then gap2 else gap }

    function Aeps(): nat { if resolution > aeps then resolution else aeps }

    /** `delta` is inside `ex` +/- `ex * eps / 100`, or within the absolute tolerance. */
    predicate Expect(delta: int, ex: nat) {
      var diff := if ex > delta then ex - delta else delta - ex;
      diff <= ex * eps / 100 || diff <= Aeps()
    }

    predicate ExpectAtLeast(delta: nat, ex: nat) {
      delta + ex * eps / 100 >= ex || delta + Aeps() >= ex
    }

    predicate ExpectAtMost(delta: nat, ex: nat) {
      delta <= ex + ex * eps / 100 || delta <= ex + Aeps()
    }

    /** The length `d` as bit `k` of a frame has it: RC-6 doubles some bits. */
    function Stretch(k: nat, d: nat): nat {
      if k < BitCount() <= 64 && TestBit(rc6Mask, BitCount() - 1 - k) then 2 * d else d
    }
  }

  /** A remote as it is allocated, every field zero. */
  const BLANK: Remote := Remote(
    SpaceEnc, 0, false, false, false, false, 0, 0, 0,
    0, 0, 0, 0, 0, 0, 0, 0, 0, 0, 0, 0, 0, 0, 0, 0,
    0, ZERO, 0, ZERO, 0, 0, 0, 0, 0, 0, 0, ZERO, ZERO, ZERO, ZERO, 0, 0, 0)

  lemma ExpectExact(r: Remote, d: nat)
    ensures r.Expect(d, d)
  {
  }

  lemma ExpectAtLeastMore(r: Remote, d: nat, ex: nat)
    requires d >= ex
    ensures r.ExpectAtLeast(d, ex)
  {
  }
}
