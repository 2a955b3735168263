/** The passes of `init_send`: what each one sends, which gap follows it, and which pass is next. */
module Passes {
  import opened Options
  import opened Words
  import opened Signals
  import opened Remotes
  import opened Transmit

  const EXACT_GAP_THRESHOLD := 10000

  /** A button: one code, or a sequence of them. */
  datatype Button = Button(code: Word, next: seq<Word>)

  /** The sender's state at the beginning of a pass; `transmit` is the place in the sequence. */
  datatype Turn = Turn(countdown: int, toggles: Toggles, transmit: Option<nat>, repeat: bool)

  /** One pass of the loop, and the gap it computed. */
  datatype Pass = Pass(turn: Turn, gap: nat)

  predicate InSequence(b: Button, t: Turn) {
    t.transmit.Some? ==> t.transmit.value < |b.next|
  }

  function SendsCode(r: Remote, t: Turn): bool {
    !(t.repeat && r.HasRepeat())
  }

  function CodeOf(b: Button, t: Turn): Word
    requires InSequence(b, t)
  {
    if t.transmit.None? then b.code else b.next[t.transmit.value]
  }

  function PassSignals(r: Remote, b: Button, t: Turn): seq<Sig>
    requires r.BitCount() <= 64 && InSequence(b, t)
  {
    if SendsCode(r, t) then FrameSignals(r, t.toggles, CodeOf(b, t), t.repeat) else RepeatSignals(r)
  }

  function PassDiscount(r: Remote, t: Turn): nat {
    if SendsCode(r, t) then HeaderDiscount(r, t.repeat) else 0
  }

  /** The toggle mask steps through 0, 1, 2, 3, 2, 3, ... */
  function StepMask(r: Remote, t: Toggles): Toggles {
    if !r.HasToggleMask() then t
    else t.(maskState := if t.maskState + 1 == 4 then 2 else t.maskState + 1)
  }

  function NextNode(r: Remote, b: Button, transmit: Option<nat>): (n: Option<nat>)
    ensures n.Some? ==> n.value < |b.next| || n == transmit
  {
    if b.next == [] then transmit
    else
      var n := if transmit.None? then Some(0)
               else if transmit.value + 1 < |b.next| then Some(transmit.value + 1) else None;
      if n.None? && r.protocol.Xmp? then Some(0) else n
  }

  /** The state after a pass. */
  function Advance(r: Remote, b: Button, t: Turn): (u: Turn)
    requires InSequence(b, t)
    ensures InSequence(b, u)
  {
    Turn(t.countdown, if SendsCode(r, t) then StepMask(r, t.toggles) else t.toggles,
         NextNode(r, b, t.transmit), t.repeat)
  }

  predicate GoesOn(u: Turn, gap: nat) {
    (u.countdown > 0 || u.transmit.Some?) && gap < EXACT_GAP_THRESHOLD
  }

  function NextTurn(b: Button, u: Turn): Turn {
    u.(countdown := if b.next == [] || u.transmit.None? then u.countdown - 1 else u.countdown, repeat := true)
  }

  /** The gap after a pass of length `sum`; a remote of constant length may have no room for one. */
  function GapOf(r: Remote, repeat: bool, sum: int): Option<nat> {
    if r.HasRepeatGap() && repeat && r.HasRepeat() then Some(r.repeatGap)
    else if r.constLength then if r.MinGap() > sum then Some(r.MinGap() - sum) else None
    else Some(r.MinGap())
  }

  /** The greatest gap that may follow. */
  function MaxGapOf(r: Remote, repeat: bool, sum: int): int {
    if r.HasRepeatGap() && repeat && r.HasRepeat() then r.repeatGap
    else if r.constLength then r.MaxGap() - sum
    else r.MaxGap()
  }

  /** Each pass but the first follows from the one before it. */
  ghost predicate Chained(r: Remote, b: Button, passes: seq<Pass>) {
    && (forall i :: 0 <= i < |passes| ==> InSequence(b, passes[i].turn))
    && forall i, j :: 0 <= i && j == i + 1 && j < |passes| ==> Follows(r, b, passes[i], passes[j])
  }

  predicate Follows(r: Remote, b: Button, p: Pass, q: Pass) {
    && InSequence(b, p.turn)
    && GoesOn(Advance(r, b, p.turn), p.gap)
    && q.turn == NextTurn(b, Advance(r, b, p.turn))
  }

  /** All frames, each but the last followed by its gap. */
  function Joined(r: Remote, b: Button, passes: seq<Pass>): seq<Sig>
    requires r.BitCount() <= 64 && forall i :: 0 <= i < |passes| ==> InSequence(b, passes[i].turn)
  {
    if passes == [] then []
    else
      var last := passes[|passes| - 1];
      WithGaps(r, b, passes[..|passes| - 1]) + PassSignals(r, b, last.turn)
  }

  function WithGaps(r: Remote, b: Button, passes: seq<Pass>): seq<Sig>
    requires r.BitCount() <= 64 && forall i :: 0 <= i < |passes| ==> InSequence(b, passes[i].turn)
  {
    if passes == [] then []
    else
      var last := passes[|passes| - 1];
      WithGaps(r, b, passes[..|passes| - 1]) + PassSignals(r, b, last.turn) + [Space(last.gap)]
  }
}
