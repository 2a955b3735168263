/** From decoded frames to the messages clients see: `decode_all` over the list of remotes, the
    release events of release.c, and `input_message` and the timeout of the main loop in lircd.c. */
module Releases {
  import opened Options
  import opened Words
  import opened Remotes
  import opened Recogniser
  import opened Decode

  datatype Key = Key(remote: nat, button: nat)

  datatype Message = Press(key: Key, reps: int) | Release(key: Key)

  /** What one remote's decoder made of the signals: the words, whether it was a repetition, and
      whether this remote was last heard less than a second ago. */
  datatype Heard = Heard(words: Frames, repeatFlag: bool, recent: bool)

  /** `lastDecoded` is the remote that set_code saw last (last_decoded); `lastRemote` is the same until
      nothing decodes (last_remote). `held` is the button that a release will be reported for
      (release_remote, release_ncode), `pending` the one whose release is due (release_remote2,
      release_ncode2). */
  datatype Daemon = Daemon(states: seq<State>, lastDecoded: Option<nat>, lastRemote: Option<nat>,
                           held: Option<Key>, pending: Option<Key>, log: seq<Message>)

  // ----- one step, as a relation between states -----

  /** A remote that decodes nothing, or no button of its own. */
  ghost predicate Misses(r: Remote, s: State, codes: seq<NCode>, heard: Option<Heard>, u: State)
    requires r.BitCount() <= 64 && AllValid(codes)
  {
    if heard.None? then u == s.(maskState := 0)
    else exists v: State, all: Word :: Finds(r, s, codes, heard.value.words, v, all, None) && u == v.(maskState := 0)
  }

  ghost predicate Records(r: Remote, s: State, codes: seq<NCode>, heard: Heard, same: bool, u: State, button: nat,
                       reps: Option<int>)
    requires r.BitCount() <= 64 && AllValid(codes)
  {
    button < |codes| && exists v: State, all: Word ::
      && Finds(r, s, codes, heard.words, v, all, Some(button))
      && var c := Advance(r, codes[button], all);
         && u == SetCode(r, v, c, button, And(all, r.toggleBitMask), Timing(heard.repeatFlag, same, heard.recent))
         && reps == Announced(r, u, c)
  }

  ghost predicate RecordsAs(r: Remote, s: State, codes: seq<NCode>, heard: Heard, same: bool, u: State, button: nat,
                            reps: Option<int>, e: Option<Event>)
    requires r.BitCount() <= 64 && AllValid(codes)
  {
    && Records(r, s, codes, heard, same, u, button, reps)
    && e == match reps { case None => None case Some(n) => Some(Event(button, n)) }
  }

  lemma StepMissesOrRecords(r: Remote, s: State, codes: seq<NCode>, heard: Heard, same: bool, u: State,
                            e: Option<Event>)
    requires r.BitCount() <= 64 && AllValid(codes)
    requires Step(r, s, codes, heard.words, Timing(heard.repeatFlag, same, heard.recent), u, e)
    ensures (e.None? && Misses(r, s, codes, Some(heard), u))
            || (exists button: nat, reps :: RecordsAs(r, s, codes, heard, same, u, button, reps, e))
  {
    hide DataMatches, Reported, Advance, SetCode, Announced, WholeCode, Plaintext;
    var time, v := Timing(heard.repeatFlag, same, heard.recent), Plaintext(r, s, heard.words);
    var all := WholeCode(r, v);
    if !DataMatches(r, v) {
      assert Finds(r, s, codes, heard.words, s, all, None);
    } else {
      var first :| Reported(r, codes, all, first) && Outcome(r, s, codes, all, first, time, u, e);
      var (s', found) := CheckToggle(r, s, first);
      assert Finds(r, s, codes, heard.words, s', all, found);
      if found.Some? {
        var reps := Announced(r, u, Advance(r, codes[found.value], all));
        HitFound(r, s, codes, heard, same, s', all, u, found.value, reps);
        assert RecordsAs(r, s, codes, heard, same, u, found.value, reps, e);
      }
    }
  }

  lemma MissIsStep(r: Remote, s: State, codes: seq<NCode>, heard: Heard, t: Timing, u: State)
    requires r.BitCount() <= 64 && AllValid(codes) && Misses(r, s, codes, Some(heard), u)
    ensures Step(r, s, codes, heard.words, t, u, None)
  {
    hide DataMatches, Reported, Advance, SetCode, Announced, WholeCode, Plaintext;
    var v := Plaintext(r, s, heard.words);
    var all := WholeCode(r, v);
    var w: State, x: Word :| Finds(r, s, codes, heard.words, w, x, None) && u == w.(maskState := 0);
    if DataMatches(r, v) {
      var first :| Reported(r, codes, all, first) && (w, None) == CheckToggle(r, s, first);
      assert Outcome(r, s, codes, all, first, t, u, None);
    }
  }

  lemma RecordIsStep(r: Remote, s: State, codes: seq<NCode>, heard: Heard, same: bool, u: State, button: nat,
                     reps: Option<int>, e: Option<Event>)
    requires r.BitCount() <= 64 && AllValid(codes) && RecordsAs(r, s, codes, heard, same, u, button, reps, e)
    ensures Step(r, s, codes, heard.words, Timing(heard.repeatFlag, same, heard.recent), u, e)
  {
    hide DataMatches, Reported, Advance, SetCode, Announced, WholeCode, Plaintext;
    var time, all := Timing(heard.repeatFlag, same, heard.recent), WholeCode(r, Plaintext(r, s, heard.words));
    var w: State, x: Word :|
      && Finds(r, s, codes, heard.words, w, x, Some(button))
      && var c := Advance(r, codes[button], x);
         && u == SetCode(r, w, c, button, And(x, r.toggleBitMask), time) && reps == Announced(r, u, c);
    var first :| Reported(r, codes, all, first) && (w, Some(button)) == CheckToggle(r, s, first);
    FirstInRange(r, codes, all, first);
    assert Outcome(r, s, codes, all, first, time, u, e);
  }

  lemma FirstInRange(r: Remote, codes: seq<NCode>, all: Word, first: Option<nat>)
    requires r.BitCount() <= 64 && AllValid(codes) && Reported(r, codes, all, first)
    ensures first.Some? ==> first.value < |codes| && codes[first.value].Valid()
  {
  }

  /** What one remote makes of a frame is either a miss, or it is recorded. */
  lemma StepIsMissOrRecord(r: Remote, s: State, codes: seq<NCode>, heard: Heard, same: bool, u: State,
                           e: Option<Event>)
    requires r.BitCount() <= 64 && AllValid(codes)
    ensures Step(r, s, codes, heard.words, Timing(heard.repeatFlag, same, heard.recent), u, e)
            <==> (e.None? && Misses(r, s, codes, Some(heard), u))
                 || (exists button: nat, reps :: RecordsAs(r, s, codes, heard, same, u, button, reps, e))
  {
    hide Step, Misses, RecordsAs;
    var time := Timing(heard.repeatFlag, same, heard.recent);
    if Step(r, s, codes, heard.words, time, u, e) {
      StepMissesOrRecords(r, s, codes, heard, same, u, e);
    } else {
      if e.None? && Misses(r, s, codes, Some(heard), u) { MissIsStep(r, s, codes, heard, time, u); }
      if button: nat, reps :| RecordsAs(r, s, codes, heard, same, u, button, reps, e) {
        RecordIsStep(r, s, codes, heard, same, u, button, reps, e);
      }
    }
  }

  /** After `set_code` for remote `n`. */
  function FoundBy(d: Daemon, states: seq<State>, n: nat): Daemon {
    d.(states := states, lastDecoded := Some(n), lastRemote := Some(n))
  }

  /** `register_button_press` */
  function Registered(d: Daemon, key: Key, reps: int): Daemon {
    d.(pending := if reps == 0 && d.held.Some? then d.held else d.pending, held := Some(key))
  }

  /** `input_message`: a release that is due goes first. */
  function Delivered(d: Daemon, m: Message, useRelease: bool): Daemon {
    d.(pending := None,
       log := d.log + (if d.pending.Some? && useRelease then [Release(d.pending.value)] else [])
              + if m.Press? || useRelease then [m] else [])
  }

  function Notified(d: Daemon, key: Key, reps: Option<int>, useRelease: bool): Daemon {
    match reps
    case None => d
    case Some(k) => Delivered(Registered(d, key, k), Press(key, k), useRelease)
  }

  ghost predicate Fitting(remotes: seq<Remote>, codes: seq<seq<NCode>>, d: Daemon) {
    && |codes| == |d.states| == |remotes|
    && forall i :: 0 <= i < |remotes| ==> remotes[i].BitCount() <= 64 && AllValid(codes[i])
  }

  /** The first remote in the list that decodes the signals and knows the button announces it. If
      there is none, the decoder forgets which remote was last, but set_code does not. */
  ghost predicate Decodes(remotes: seq<Remote>, codes: seq<seq<NCode>>, useRelease: bool, d: Daemon,
                          heard: seq<Option<Heard>>, n: nat, button: nat, reps: Option<int>, e: Daemon)
    requires Fitting(remotes, codes, d) && |heard| == |remotes|
  {
    && n <= |remotes| == |e.states|
    && (forall j :: 0 <= j < n ==> Misses(remotes[j], d.states[j], codes[j], heard[j], e.states[j]))
    && (forall j :: n < j < |remotes| ==> e.states[j] == d.states[j])
    && if n == |remotes| then e == d.(states := e.states, lastRemote := None)
       else
         && heard[n].Some?
         && Records(remotes[n], d.states[n], codes[n], heard[n].value, d.lastDecoded == Some(n), e.states[n], button,
                    reps)
         && e == Notified(FoundBy(d, e.states, n), Key(n, button), reps, useRelease)
  }

  lemma HitDecodes(remotes: seq<Remote>, codes: seq<seq<NCode>>, useRelease: bool, d: Daemon,
                   heard: seq<Option<Heard>>, n: nat, button: nat, reps: Option<int>, e: Daemon)
    requires Fitting(remotes, codes, d) && |heard| == |remotes| == |e.states| && n < |remotes| && heard[n].Some?
    requires forall j :: 0 <= j < n ==> Misses(remotes[j], d.states[j], codes[j], heard[j], e.states[j])
    requires forall j :: n < j < |remotes| ==> e.states[j] == d.states[j]
    requires Records(remotes[n], d.states[n], codes[n], heard[n].value, d.lastDecoded == Some(n), e.states[n], button,
                     reps)
    requires e == Notified(FoundBy(d, e.states, n), Key(n, button), reps, useRelease)
    ensures Decodes(remotes, codes, useRelease, d, heard, n, button, reps, e)
  {
    hide Misses, Records, Notified;
  }

  lemma NoneDecodes(remotes: seq<Remote>, codes: seq<seq<NCode>>, useRelease: bool, d: Daemon,
                    heard: seq<Option<Heard>>, e: Daemon)
    requires Fitting(remotes, codes, d) && |heard| == |remotes| == |e.states|
    requires e == d.(states := e.states, lastRemote := None)
    requires forall j :: 0 <= j < |remotes| ==> Misses(remotes[j], d.states[j], codes[j], heard[j], e.states[j])
    ensures forall button, reps :: Decodes(remotes, codes, useRelease, d, heard, |remotes|, button, reps, e)
  {
    hide Misses, Records, Notified;
  }

  lemma HitFound(r: Remote, s: State, codes: seq<NCode>, h: Heard, same: bool, v: State, all: Word, u: State,
                 button: nat, reps: Option<int>)
    requires r.BitCount() <= 64 && AllValid(codes) && button < |codes|
    requires Finds(r, s, codes, h.words, v, all, Some(button))
    requires var c := Advance(r, codes[button], all);
             && u == SetCode(r, v, c, button, And(all, r.toggleBitMask), Timing(h.repeatFlag, same, h.recent))
             && reps == Announced(r, u, c)
    ensures Records(r, s, codes, h, same, u, button, reps)
  {
    hide Finds, Advance, SetCode, Announced;
  }

  /** The release timer ran out (`trigger_release_event`). */
  function Expired(d: Daemon, useRelease: bool): Daemon
    requires d.held.Some? ==> d.held.value.remote < |d.states|
  {
    if d.held.None? then d
    else
      var k := d.held.value;
      var u := d.(states := d.states[k.remote := d.states[k.remote].(releaseDetected := true)], held := None);
      Delivered(u, Release(k), useRelease)
  }

  ghost predicate Moves(remotes: seq<Remote>, codes: seq<seq<NCode>>, useRelease: bool, d: Daemon, e: Daemon)
    requires Fitting(remotes, codes, d)
  {
    || (exists heard, n, button, reps ::
          |heard| == |remotes| && Decodes(remotes, codes, useRelease, d, heard, n, button, reps, e))
    || ((d.held.Some? ==> d.held.value.remote < |d.states|) && e == Expired(d, useRelease))
  }

  // ----- presses and releases alternate -----

  datatype Hold = Hold(key: Key, count: int)

  /** Reads a log: the button held at its end and the number of its last message, or None if
      some message was out of place. A first press needs that nothing is held, a repetition is
      of the button held and numbered one higher than the message before, a release is of the
      button held. */
  function Track(log: seq<Message>): Option<Option<Hold>> {
    if log == [] then Some(None)
    else
      var before := Track(log[..|log| - 1]);
      if before.None? then None else Next(before.value, log[|log| - 1])
  }

  function Next(h: Option<Hold>, m: Message): Option<Option<Hold>> {
    match m
    case Press(k, n) =>
      if n == 0 then if h.None? then Some(Some(Hold(k, 0))) else None
      else if h == Some(Hold(k, n - 1)) then Some(Some(Hold(k, n))) else None
    case Release(k) => if h.Some? && h.value.key == k then Some(None) else None
  }

  predicate Simple(r: Remote, codes: seq<NCode>) {
    !r.HasToggleMask() && forall i :: 0 <= i < |codes| ==> codes[i].next == [] && codes[i].current == 0
  }

  predicate AllSimple(remotes: seq<Remote>, codes: seq<seq<NCode>>) {
    |codes| == |remotes| && forall i :: 0 <= i < |remotes| ==> Simple(remotes[i], codes[i])
  }

  function Shown(r: Remote, reps: nat): nat {
    if reps <= r.suppressRepeat then 0 else reps - r.suppressRepeat
  }

  /** What holds between the turns of the main loop. */
  predicate Settled(remotes: seq<Remote>, d: Daemon) {
    && |d.states| == |remotes| && d.pending == None
    && (d.held.Some? ==> d.lastDecoded == Some(d.held.value.remote))
    && (d.lastDecoded.Some? ==> d.lastDecoded.value < |d.states|)
    && (d.lastDecoded.Some? ==>
          var s := d.states[d.lastDecoded.value];
          (d.held.Some? <==> !s.releaseDetected) && (d.held.Some? ==> s.lastCode == Some(d.held.value.button)))
    && Track(d.log) == Some(if d.held.None? then None
                            else Some(Hold(d.held.value,
                                           Shown(remotes[d.held.value.remote], d.states[d.held.value.remote].reps))))
  }

  lemma TrackAppend(log: seq<Message>, m: Message)
    ensures Track(log + [m]) == if Track(log).None? then None else Next(Track(log).value, m)
  {
    assert (log + [m])[..|log|] == log;
  }

  lemma {:induction false} SimpleMiss(r: Remote, s: State, codes: seq<NCode>, heard: Option<Heard>, u: State)
    requires r.BitCount() <= 64 && AllValid(codes) && Simple(r, codes) && Misses(r, s, codes, heard, u)
    ensures u == s.(maskState := 0)
  {
    hide Reported, DataMatches, WholeCode, Plaintext;
  }

  lemma SimpleHit(r: Remote, s: State, codes: seq<NCode>, heard: Heard, same: bool, u: State, button: nat,
                  reps: Option<int>)
    requires r.BitCount() <= 64 && AllValid(codes) && Simple(r, codes)
    requires Records(r, s, codes, heard, same, u, button, reps)
    ensures u.lastCode == Some(button) && !u.releaseDetected
    ensures u.reps == 0 || (same && !s.releaseDetected && s.lastCode == Some(button) && u.reps == s.reps + 1)
    ensures reps == if 0 < u.reps <= r.suppressRepeat then None else Some(Shown(r, u.reps))
  {
    hide Reported, DataMatches, WholeCode, Plaintext;
  }

  lemma PressSettles(remotes: seq<Remote>, d: Daemon, e: Daemon, u: Daemon, key: Key, k: nat)
    requires Settled(remotes, d) && u.held == d.held && u.pending == None && u.log == d.log
    requires key.remote < |u.states| == |remotes| && u.lastDecoded == Some(key.remote)
    requires var s := u.states[key.remote];
             s.lastCode == Some(key.button) && !s.releaseDetected && k == Shown(remotes[key.remote], s.reps)
    requires k == 0 || Track(d.log) == Some(Some(Hold(key, k - 1)))
    requires e == Delivered(Registered(u, key, k), Press(key, k), true)
    ensures Settled(remotes, e)
  {
    if k == 0 && d.held.Some? {
      TrackAppend(d.log, Release(d.held.value));
      TrackAppend(d.log + [Release(d.held.value)], Press(key, k));
    } else {
      assert d.log + [] == d.log;
      TrackAppend(d.log, Press(key, k));
    }
  }

  /** Every turn of the main loop keeps it. */
  lemma DecodeSettles(remotes: seq<Remote>, codes: seq<seq<NCode>>, d: Daemon, heard: seq<Option<Heard>>, n: nat,
                      button: nat, reps: Option<int>, e: Daemon)
    requires Fitting(remotes, codes, d) && |heard| == |remotes| && Settled(remotes, d)
    requires AllSimple(remotes, codes)
    requires Decodes(remotes, codes, true, d, heard, n, button, reps, e)
    ensures Settled(remotes, e)
  {
    hide Misses, Records, Simple, Track;
    forall j | 0 <= j < n
      ensures e.states[j] == d.states[j].(maskState := 0)
    {
      SimpleMiss(remotes[j], d.states[j], codes[j], heard[j], e.states[j]);
    }
    if n < |remotes| {
      SimpleHit(remotes[n], d.states[n], codes[n], heard[n].value, d.lastDecoded == Some(n), e.states[n], button, reps);
      if reps.Some? {
        PressSettles(remotes, d, e, FoundBy(d, e.states, n), Key(n, button), reps.value);
      }
    }
  }

  lemma ExpirySettles(remotes: seq<Remote>, d: Daemon)
    requires Settled(remotes, d)
    ensures Settled(remotes, Expired(d, true))
  {
    if d.held.Some? {
      assert d.log + [] == d.log;
      TrackAppend(d.log, Release(d.held.value));
    }
  }

  /** The daemon right after it was started. */
  predicate Started(remotes: seq<Remote>, d: Daemon) {
    && |d.states| == |remotes| && d.lastDecoded == None && d.lastRemote == None
    && d.held == None && d.pending == None && d.log == []
  }

  /** Over every interleaving of decoded signals and timeouts, for all remotes and inputs. */
  lemma {:induction false} RunAlternates(remotes: seq<Remote>, codes: seq<seq<NCode>>, run: seq<Daemon>)
    requires run != [] && Started(remotes, run[0])
    requires AllSimple(remotes, codes)
    requires forall i :: 0 <= i < |run| ==> Fitting(remotes, codes, run[i])
    requires forall i, j :: 0 <= i && j == i + 1 && j < |run| ==> Moves(remotes, codes, true, run[i], run[j])
    ensures Settled(remotes, run[|run| - 1])
    decreases |run|
  {
    hide Decodes, AllSimple, Settled, Fitting;
    var last := |run| - 1;
    if last == 0 {
      StartSettled(remotes, run[0]);
    } else {
      RunAlternates(remotes, codes, run[..last]);
      var d, e := run[last - 1], run[last];
      assert Moves(remotes, codes, true, d, e);
      MoveSettles(remotes, codes, d, e);
    }
  }

  lemma StartSettled(remotes: seq<Remote>, d: Daemon)
    requires Started(remotes, d)
    ensures Settled(remotes, d)
  {
  }

  lemma MoveSettles(remotes: seq<Remote>, codes: seq<seq<NCode>>, d: Daemon, e: Daemon)
    requires Fitting(remotes, codes, d) && Settled(remotes, d) && Moves(remotes, codes, true, d, e)
    requires AllSimple(remotes, codes)
    ensures Settled(remotes, e)
  {
    hide Decodes, AllSimple, Settled;
    if heard, n, button, reps :|
        |heard| == |remotes| && Decodes(remotes, codes, true, d, heard, n, button, reps, e) {
      DecodeSettles(remotes, codes, d, heard, n, button, reps, e);
    } else {
      ExpirySettles(remotes, d);
    }
  }

  // ----- signals that nothing decodes -----

  lemma SimpleRepeat(r: Remote, s: State, codes: seq<NCode>, heard: Heard, u: State, button: nat, reps: Option<int>)
    requires r.BitCount() <= 64 && AllValid(codes) && Simple(r, codes) && !r.HasToggleBitMask()
    requires Records(r, s, codes, heard, true, u, button, reps) && heard.repeatFlag && heard.recent
    requires s.lastCode == Some(button) && !s.releaseDetected
    ensures u.reps == s.reps + 1
  {
    hide Reported, DataMatches, WholeCode, Plaintext;
  }

  /** A button that is held survives a signal that nothing decodes: its next repetition is counted on,
      and no release is reported in between. */
  lemma HoldSurvivesGarbage(remotes: seq<Remote>, codes: seq<seq<NCode>>, d: Daemon, garbled: seq<Option<Heard>>,
                            no: nat, noReps: Option<int>, g: Daemon, heard: seq<Option<Heard>>, key: Key,
                            reps: Option<int>, e: Daemon)
    requires Fitting(remotes, codes, d) && Fitting(remotes, codes, g) && AllSimple(remotes, codes)
    requires Settled(remotes, d) && d.held == Some(key) && |garbled| == |heard| == |remotes|
    requires Decodes(remotes, codes, true, d, garbled, |remotes|, no, noReps, g)
    requires Decodes(remotes, codes, true, g, heard, key.remote, key.button, reps, e)
    requires key.remote < |remotes| && !remotes[key.remote].HasToggleBitMask()
    requires heard[key.remote].Some? ==> heard[key.remote].value.repeatFlag && heard[key.remote].value.recent
    ensures g == d.(states := g.states, lastRemote := None)
    ensures e.states[key.remote].reps == d.states[key.remote].reps + 1
    ensures var count := Shown(remotes[key.remote], e.states[key.remote].reps);
            && e.held == Some(key)
            && e.log == (if count == 0 then d.log else d.log + [Press(key, count)])
  {
    hide Misses, Records, Simple, Track;
    var n := key.remote;
    SimpleMiss(remotes[n], d.states[n], codes[n], garbled[n], g.states[n]);
    SimpleRepeat(remotes[n], g.states[n], codes[n], heard[n].value, e.states[n], key.button, reps);
    SimpleHit(remotes[n], g.states[n], codes[n], heard[n].value, true, e.states[n], key.button, reps);
    assert d.log + [] == d.log;
  }

  // ----- what an accepted log looks like -----

  lemma {:induction false} TrackPrefix(log: seq<Message>, k: nat)
    requires Track(log).Some? && k <= |log|
    ensures Track(log[..k]).Some?
    ensures k < |log| ==> Next(Track(log[..k]).value, log[k]) == Track(log[..k + 1])
    ensures k < |log| ==> Track(log[..k + 1]).Some?
    decreases |log|
  {
    assert log[..|log|] == log;
    if k < |log| {
      TrackPrefix(log[..|log| - 1], k);
      if k + 1 < |log| {
        assert log[..|log| - 1][..k] == log[..k] && log[..|log| - 1][..k + 1] == log[..k + 1];
      }
    }
  }

  /** The button held at the end of a log: the log ends with its presses, numbered from 0. */
  lemma {:induction false} HeldShowsPresses(log: seq<Message>, a: Key, n: int)
    requires Track(log) == Some(Some(Hold(a, n)))
    ensures 0 <= n < |log| && forall m :: 0 <= m <= n ==> log[|log| - 1 - n + m] == Press(a, m)
    decreases |log|
  {
    if n != 0 { HeldShowsPresses(log[..|log| - 1], a, n - 1); }
  }

  /** A repetition is announced only while the button is held: right before it are the presses of
      the same button, numbered 0, 1, 2, ... without a gap. */
  lemma RepeatsOnlyWhileHeld(log: seq<Message>, x: nat)
    requires Track(log).Some? && x < |log| && log[x].Press?
    ensures 0 <= log[x].reps <= x
    ensures forall m :: 0 <= m <= log[x].reps ==> log[x - log[x].reps + m] == Press(log[x].key, m)
  {
    TrackPrefix(log, x);
    HeldShowsPresses(log[..x + 1], log[x].key, log[x].reps);
  }

  predicate FirstPress(m: Message) {
    m.Press? && m.reps == 0
  }

  lemma {:induction false} HeldUntilReleased(log: seq<Message>, a: Key, i: nat, x: nat)
    requires Track(log).Some? && i < x <= |log| && log[i] == Press(a, 0)
    requires forall y :: i < y < x ==> !FirstPress(log[y])
    ensures (Track(log[..x]) == Some(Some(Hold(a, x - i - 1))) && forall y :: i < y < x ==> log[y] == Press(a, y - i))
            || (Track(log[..x]) == Some(None) && i < x - 1 && log[x - 1] == Release(a)
                && forall y :: i < y < x - 1 ==> log[y] == Press(a, y - i))
    decreases x
  {
    hide Track;
    TrackPrefix(log, x - 1);
    if x - 1 > i {
      HeldUntilReleased(log, a, i, x - 1);
    }
  }

  /** Between a first press and the next first press of any button there is exactly one release,
      right before the latter; it is of the button pressed, and all else are its repetitions. */
  lemma OneReleaseBetweenPresses(log: seq<Message>, a: Key, b: Key, i: nat, j: nat)
    requires Track(log).Some? && i < j < |log| && log[i] == Press(a, 0) && log[j] == Press(b, 0)
    requires forall y :: i < y < j ==> !FirstPress(log[y])
    ensures i < j - 1 && log[j - 1] == Release(a)
    ensures forall y :: i < y < j - 1 ==> log[y] == Press(a, y - i)
  {
    hide Track;
    TrackPrefix(log, j);
    HeldUntilReleased(log, a, i, j);
  }
}
