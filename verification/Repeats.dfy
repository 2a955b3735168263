/** How often a button is transmitted: SEND_ONCE, SEND_START, SEND_STOP and the timer between the
    transmissions (lircd.c), for a button that is a single code. */
module Repeats {
  import opened Options
  import opened Remotes
  import opened SendBuffers
  import opened Passes
  import opened InitSend

  /** `countdown` is repeat_countdown of the remote, `repeating` says that repeat_remote is set,
      `sent` counts the frames on the air since the request. */
  datatype State = State(repeating: bool, countdown: int, sent: nat)

  /** What bounds the repeats; `low` says that gaps are so short that frames are put into one buffer. */
  datatype Limits = Limits(minRepeat: nat, repeatMax: nat, low: bool)

  /** One call of the transmitter: so many frames, and so many repeats still to do. */
  function Burst(countdown: int, low: bool): (nat, int) {
    if low && countdown > 0 then (1 + countdown, 0) else (1, countdown)
  }

  /** That is what `init_send` puts into the buffer. */
  lemma BurstIsPrepared(r: Remote, b: Button, first: Turn, passes: seq<Pass>, t: Tx, low: bool)
    requires r.BitCount() <= 64 && b.next == [] && Result(r, b, first, passes, t)
    requires forall i :: 0 <= i < |passes| ==> (passes[i].gap < EXACT_GAP_THRESHOLD <==> low)
    ensures (|passes|, passes[|passes| - 1].turn.countdown) == Burst(first.countdown, low)
  {
    hide AllProper, Joined;
    LaterTurns(r, b, passes, |passes| - 1);
    RepeatsInOneBuffer(r, b, first, passes, t);
    FirstGapIsShort(r, b, passes);
  }

  lemma FirstGapIsShort(r: Remote, b: Button, passes: seq<Pass>)
    requires Chained(r, b, passes)
    ensures |passes| > 1 ==> passes[0].gap < EXACT_GAP_THRESHOLD
  {
    if |passes| > 1 {
      assert Follows(r, b, passes[0], passes[1]);
    }
  }

  function Max(a: int, b: int): int {
    if a > b then a else b
  }

  /** `send_core`; `once` holds the repeats asked for by SEND_ONCE. A request while another button
      is being repeated is refused. */
  function Requested(l: Limits, s: State, once: Option<nat>): State {
    if s.repeating then s
    else
      var (frames, left) := Burst(l.minRepeat, l.low);
      var countdown := if once.Some? then Max(left, once.value) else l.repeatMax;
      State(countdown > 0, countdown, frames)
  }

  /** While a button is being repeated a request changes nothing; otherwise the first frames go out, and
      repeating begins if any are left. */
  lemma RequestsAreRefused(l: Limits, s: State, once: Option<nat>)
    ensures s.repeating ==> Requested(l, s, once) == s
    ensures !s.repeating ==>
              var u := Requested(l, s, once);
              u.sent >= 1 && (u.repeating <==> u.countdown > 0)
  {
  }

  datatype Event =
    | Timer                // the gap is over, and the next transmission succeeds
    | FailedTimer          // the gap is over, but the transmission fails
    | Interrupted          // the gap is over, but another code was received meanwhile
    | Stop                 // SEND_STOP

  function After(l: Limits, s: State, e: Event): State {
    if !s.repeating then s
    else match e
      case Timer =>
        var (frames, left) := Burst(s.countdown - 1, l.low);
        State(left > 0, left, s.sent + frames)
      case FailedTimer => State(false, s.countdown - 1, s.sent)
      case Interrupted => s.(repeating := false)
      case Stop =>
        var done := l.repeatMax - s.countdown;
        if done < l.minRepeat then s.(countdown := l.minRepeat - done) else s.(repeating := false)
  }

  function Run(l: Limits, s: State, events: seq<Event>): State {
    if events == [] then s else After(l, Run(l, s, events[..|events| - 1]), events[|events| - 1])
  }

  function Count(events: seq<Event>, e: Event): nat {
    if events == [] then 0 else Count(events[..|events| - 1], e) + if events[|events| - 1] == e then 1 else 0
  }

  const IDLE := State(false, 0, 0)

  // ----- SEND_ONCE -----

  /** The frames that SEND_ONCE with `n` repeats sends in all. */
  function OnceTotal(l: Limits, n: nat): nat {
    1 + if l.low then l.minRepeat + n else Max(l.minRepeat, n)
  }

  predicate OnlyTimers(events: seq<Event>) {
    forall i :: 0 <= i < |events| ==> events[i] == Timer
  }

  /** At any time, frames sent and repeats still to do make up the total. */
  lemma {:induction false} OnceConserves(l: Limits, n: nat, events: seq<Event>)
    requires OnlyTimers(events)
    ensures var s := Run(l, Requested(l, IDLE, Some(n)), events);
            && s.sent + (if s.repeating then s.countdown else 0) == OnceTotal(l, n)
            && (s.repeating ==> 0 < s.countdown && |events| + s.countdown <= OnceTotal(l, n))
    decreases |events|
  {
    if events == [] {
    } else {
      OnceConserves(l, n, events[..|events| - 1]);
    }
  }

  /** SEND_ONCE comes to an end, and then exactly that many frames were sent. */
  lemma OnceSendsAll(l: Limits, n: nat, events: seq<Event>)
    requires OnlyTimers(events) && |events| >= OnceTotal(l, n)
    ensures !Run(l, Requested(l, IDLE, Some(n)), events).repeating
    ensures Run(l, Requested(l, IDLE, Some(n)), events).sent == OnceTotal(l, n)
  {
    OnceConserves(l, n, events);
  }

  /** It is the greater of both counts exactly if gaps are long or one of the counts is 0: frames
      that share a buffer have used up the minimum before the count asked for is looked at. */
  lemma OnceTotalIsGreater(l: Limits, n: nat)
    ensures OnceTotal(l, n) == 1 + Max(l.minRepeat, n) <==> !l.low || l.minRepeat == 0 || n == 0
  {
  }

  // ----- interruptions -----

  /** Another code received, or a transmission that fails, is the end: nothing is sent after it. */
  lemma {:induction false} DisturbanceEnds(l: Limits, s: State, events: seq<Event>, i: nat)
    requires i < |events| && (events[i] == Interrupted || events[i] == FailedTimer)
    ensures !Run(l, s, events).repeating && Run(l, s, events).sent == Run(l, s, events[..i]).sent
    decreases |events|
  {
    var before := events[..|events| - 1];
    if i < |before| {
      DisturbanceEnds(l, s, before, i);
      assert before[..i] == events[..i];
    }
  }

  // ----- SEND_START and SEND_STOP -----

  predicate Undisturbed(events: seq<Event>) {
    forall i :: 0 <= i < |events| ==> events[i] == Timer || events[i] == Stop
  }

  lemma {:induction false} StartBounds(l: Limits, events: seq<Event>)
    requires !l.low && l.minRepeat <= l.repeatMax && Count(events, Stop) <= 1
    ensures var s := Run(l, Requested(l, IDLE, None), events);
            && 1 <= s.sent <= 1 + l.repeatMax
            && (s.repeating ==> s.countdown > 0)
            && (s.repeating ==> s.sent - 1 + s.countdown
                                == if Count(events, Stop) == 0 then l.repeatMax else l.minRepeat)
            && (!s.repeating && Undisturbed(events) ==> l.minRepeat <= s.sent - 1)
    decreases |events|
  {
    if events == [] {
    } else {
      StartBounds(l, events[..|events| - 1]);
    }
  }

  /** With one SEND_STOP at any time, or none, SEND_START transmits no more than repeat_max repeats
      whatever goes wrong, and no fewer than min_repeat unless something does. */
  lemma StartTransmitsBetween(l: Limits, events: seq<Event>)
    requires !l.low && l.minRepeat <= l.repeatMax && Count(events, Stop) <= 1
    ensures var s := Run(l, Requested(l, IDLE, None), events);
            && s.sent - 1 <= l.repeatMax
            && (!s.repeating && Undisturbed(events) ==> l.minRepeat <= s.sent - 1)
  {
    StartBounds(l, events);
  }

  /** If frames share a buffer, the repeats of the first one come on top. */
  lemma {:induction false} StartInOneBuffer(l: Limits, events: seq<Event>)
    requires l.low && l.repeatMax > 0 && OnlyTimers(events) && events != []
    ensures var s := Run(l, Requested(l, IDLE, None), events);
            !s.repeating && s.sent - 1 == l.minRepeat + l.repeatMax
    decreases |events|
  {
    var init := events[..|events| - 1];
    if init == [] {
      assert Run(l, Requested(l, IDLE, None), init) == Requested(l, IDLE, None);
    } else {
      StartInOneBuffer(l, init);
    }
  }

  /** A SEND_STOP that comes before the minimum is done. */
  predicate Early(l: Limits, s: State) {
    s.repeating && s.sent - 1 < l.minRepeat
  }

  /** How many of them there are in a run. */
  function EarlyStops(l: Limits, s: State, events: seq<Event>): nat {
    if events == [] then 0
    else
      var init, last := events[..|events| - 1], events[|events| - 1];
      EarlyStops(l, s, init) + if last == Stop && Early(l, Run(l, s, init)) then 1 else 0
  }

  /** After the first early SEND_STOP the countdown is what is left of the minimum; the second takes
      it for what is left of repeat_max, and from then on too little is left, or too much for a
      minimum above repeat_max. */
  predicate StopsKeep(l: Limits, s: State, stops: nat) {
    && s.sent >= 1 && (s.repeating ==> s.countdown > 0)
    && if l.minRepeat > l.repeatMax then
         if stops == 0 then s.sent - 1 + (if s.repeating then s.countdown else 0) == l.repeatMax
         else s.sent - 1 + (if s.repeating then s.countdown else 0) >= l.minRepeat
       else if stops == 0 || l.minRepeat == l.repeatMax then
         if s.repeating then s.sent - 1 + s.countdown == l.repeatMax else s.sent - 1 >= l.minRepeat
       else if stops == 1 then
         if s.repeating then s.sent - 1 + s.countdown == l.minRepeat else s.sent - 1 >= l.minRepeat
       else s.sent - 1 + (if s.repeating then s.countdown else 0) < l.minRepeat
  }

  lemma {:induction false} EarlyStopsDecide(l: Limits, events: seq<Event>)
    requires !l.low && Undisturbed(events)
    ensures var s := Requested(l, IDLE, None);
            StopsKeep(l, Run(l, s, events), EarlyStops(l, s, events))
    decreases |events|
  {
    if events == [] {
    } else {
      EarlyStopsDecide(l, events[..|events| - 1]);
    }
  }

  /** Frames that share a buffer do the minimum at once. */
  lemma {:induction false} MinimumAtOnce(l: Limits, events: seq<Event>)
    requires l.low
    ensures var s := Requested(l, IDLE, None);
            Run(l, s, events).sent - 1 >= l.minRepeat && EarlyStops(l, s, events) == 0
    decreases |events|
  {
    if events == [] {
    } else {
      MinimumAtOnce(l, events[..|events| - 1]);
    }
  }

  /** A finished run of SEND_START and any SEND_STOPs did at least min_repeat repeats if and only if
      frames share a buffer, or the minimum is also the maximum, or at most one SEND_STOP came
      before the minimum was done; a minimum above the maximum takes one such SEND_STOP. */
  lemma MinimumIsMet(l: Limits, events: seq<Event>)
    requires Undisturbed(events) && !Run(l, Requested(l, IDLE, None), events).repeating
    ensures var stops := EarlyStops(l, Requested(l, IDLE, None), events);
            Run(l, Requested(l, IDLE, None), events).sent - 1 >= l.minRepeat
            <==> l.low || l.minRepeat == l.repeatMax || if l.minRepeat < l.repeatMax then stops <= 1 else stops >= 1
  {
    if l.low { MinimumAtOnce(l, events); } else { EarlyStopsDecide(l, events); }
  }

  /** Two at once miss it whenever there is something between minimum and maximum: the rest of the
      run cannot make up for them. */
  lemma TwoStops(l: Limits, rest: seq<Event>)
    requires 0 < l.minRepeat < l.repeatMax && !l.low && Undisturbed(rest)
    requires !Run(l, Requested(l, IDLE, None), [Stop, Stop] + rest).repeating
    ensures Run(l, Requested(l, IDLE, None), [Stop, Stop] + rest).sent - 1 < l.minRepeat
  {
    var s := Requested(l, IDLE, None);
    TwoEarlyStops(l, rest);
    MinimumIsMet(l, [Stop, Stop] + rest);
  }

  lemma {:induction false} TwoEarlyStops(l: Limits, rest: seq<Event>)
    requires 0 < l.minRepeat < l.repeatMax && !l.low && Undisturbed(rest)
    ensures EarlyStops(l, Requested(l, IDLE, None), [Stop, Stop] + rest) >= 2
    decreases |rest|
  {
    var s := Requested(l, IDLE, None);
    var events := [Stop, Stop] + rest;
    if rest == [] {
      assert events == [Stop, Stop] && events[..1] == [Stop] && [Stop][..0] == [];
      assert Run(l, s, []) == s && EarlyStops(l, s, []) == 0;
      assert Run(l, s, [Stop]) == After(l, s, Stop) && EarlyStops(l, s, [Stop]) == 1;
    } else {
      assert events[..|events| - 1] == [Stop, Stop] + rest[..|rest| - 1];
      TwoEarlyStops(l, rest[..|rest| - 1]);
    }
  }

  // ----- the code -----

  class Repeater {
    const limits: Limits
    var repeating: bool
    var countdown: int
    var sent: nat

    function View(): State
      reads this
    {
      State(repeating, countdown, sent)
    }

    constructor (limits: Limits)
      ensures View() == IDLE && this.limits == limits
    {
      this.limits := limits;
      repeating, countdown, sent := false, 0, 0;
    }

    /** `send_ir_ncode`: frames as long as they share the buffer. */
    method Transmit()
      modifies this
      ensures var (frames, left) := Burst(if old(repeating) then old(countdown) else limits.minRepeat, limits.low);
              View() == State(old(repeating), left, old(sent) + frames)
    {
      if !repeating {
        countdown := limits.minRepeat;
      }
      ghost var c := countdown;
      sent := sent + 1;
      while countdown > 0 && limits.low
        invariant repeating == old(repeating)
        invariant countdown == c || (limits.low && 0 <= countdown <= c)
        invariant sent + countdown == old(sent) + 1 + c
      {
        countdown := countdown - 1;
        sent := sent + 1;
      }
    }

    method Request(once: Option<nat>)
      modifies this
      ensures View() == Requested(limits, old(View()), once)
    {
      if repeating {
        return;
      }
      sent := 0;
      Transmit();
      countdown := if once.Some? then Max(countdown, once.value) else limits.repeatMax;
      repeating := countdown > 0;
    }

    /** `dosigalrm` */
    method Alarm(sameCode: bool, ok: bool)
      requires repeating
      modifies this
      ensures View() == After(limits, old(View()), if !sameCode then Interrupted else if ok then Timer else FailedTimer)
    {
      if !sameCode {
        repeating := false;
        return;
      }
      countdown := countdown - 1;
      if ok {
        Transmit();
        if countdown > 0 {
          return;
        }
      }
      repeating := false;
    }

    /** `send_stop` */
    method SendStop()
      modifies this
      ensures View() == After(limits, old(View()), Stop)
    {
      if repeating {
        var done := limits.repeatMax - countdown;
        if done < limits.minRepeat {
          countdown := limits.minRepeat - done;
          return;
        }
        repeating := false;
      }
    }
  }
}
