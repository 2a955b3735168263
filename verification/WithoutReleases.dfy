/** The daemon as it runs by default, without release events: what its clients see is what they would
    see with them, less the releases. */
module WithoutReleases {
  import opened Options
  import opened Remotes
  import opened Recogniser
  import opened Releases

  /** A log without its releases. */
  function Presses(log: seq<Message>): seq<Message> {
    if log == [] then []
    else Presses(log[..|log| - 1]) + if log[|log| - 1].Press? then [log[|log| - 1]] else []
  }

  lemma PressesAppend(log: seq<Message>, m: Message)
    ensures Presses(log + [m]) == Presses(log) + if m.Press? then [m] else []
  {
    assert (log + [m])[..|log|] == log;
  }

  /** What one move announces: the press of the remote that decoded the signals, if it made one. */
  ghost predicate Announces(remotes: seq<Remote>, codes: seq<seq<NCode>>, useRelease: bool, d: Daemon, e: Daemon,
                            said: seq<Message>)
    requires Fitting(remotes, codes, d)
  {
    || (exists heard, n: nat, button: nat, reps ::
          && |heard| == |remotes| && Decodes(remotes, codes, useRelease, d, heard, n, button, reps, e)
          && said == if n < |remotes| && reps.Some? then [Press(Key(n, button), reps.value)] else [])
    || ((d.held.Some? ==> d.held.value.remote < |d.states|) && e == Expired(d, useRelease) && said == [])
  }

  /** Each move announces something, or nothing. */
  lemma MoveAnnounces(remotes: seq<Remote>, codes: seq<seq<NCode>>, useRelease: bool, d: Daemon, e: Daemon)
    returns (said: seq<Message>)
    requires Fitting(remotes, codes, d) && Moves(remotes, codes, useRelease, d, e)
    ensures Announces(remotes, codes, useRelease, d, e, said)
  {
    hide Decodes, Expired;
    if heard, n: nat, button: nat, reps :|
        |heard| == |remotes| && Decodes(remotes, codes, useRelease, d, heard, n, button, reps, e) {
      said := if n < |remotes| && reps.Some? then [Press(Key(n, button), reps.value)] else [];
    } else {
      said := [];
    }
  }

  /** Clients see what is announced, and with release events the releases besides. */
  lemma AnnouncedIsLogged(remotes: seq<Remote>, codes: seq<seq<NCode>>, useRelease: bool, d: Daemon, e: Daemon,
                          said: seq<Message>)
    requires Fitting(remotes, codes, d) && Announces(remotes, codes, useRelease, d, e, said)
    ensures !useRelease ==> e.log == d.log + said
    ensures Presses(e.log) == Presses(d.log) + said
  {
    hide Misses, Records, Presses;
    assert d.log + [] == d.log && Presses(d.log) + [] == Presses(d.log);
    if heard, n: nat, button: nat, reps :|
        && |heard| == |remotes| && Decodes(remotes, codes, useRelease, d, heard, n, button, reps, e)
        && said == if n < |remotes| && reps.Some? then [Press(Key(n, button), reps.value)] else [] {
      if n < |remotes| && reps.Some? {
        var u := Registered(FoundBy(d, e.states, n), Key(n, button), reps.value);
        DeliveredLog(u, Press(Key(n, button), reps.value), useRelease);
      }
    } else if d.held.Some? {
      DeliveredLog(d.(held := None), Release(d.held.value), useRelease);
    }
  }

  lemma DeliveredLog(d: Daemon, m: Message, useRelease: bool)
    ensures var log := Delivered(d, m, useRelease).log;
            && Presses(log) == Presses(d.log) + (if m.Press? then [m] else [])
            && (!useRelease ==> log == d.log + if m.Press? then [m] else [])
  {
    hide Presses;
    assert d.log + [] == d.log && Presses(d.log) + [] == Presses(d.log);
    PressesAppend(d.log, m);
    if d.pending.Some? {
      PressesAppend(d.log, Release(d.pending.value));
      PressesAppend(d.log + [Release(d.pending.value)], m);
    }
  }

  // ----- runs -----

  ghost predicate Runs(remotes: seq<Remote>, codes: seq<seq<NCode>>, useRelease: bool, run: seq<Daemon>) {
    && run != [] && Started(remotes, run[0])
    && (forall i :: 0 <= i < |run| ==> Fitting(remotes, codes, run[i]))
    && (forall i, j :: 0 <= i && j == i + 1 && j < |run| ==> Moves(remotes, codes, useRelease, run[i], run[j]))
  }

  function Concat(said: seq<seq<Message>>): seq<Message> {
    if said == [] then [] else Concat(said[..|said| - 1]) + said[|said| - 1]
  }

  ghost predicate Saying(remotes: seq<Remote>, codes: seq<seq<NCode>>, useRelease: bool, run: seq<Daemon>,
                         said: seq<seq<Message>>)
    requires Runs(remotes, codes, useRelease, run)
  {
    |said| == |run| - 1
    && forall i, j :: 0 <= i && j == i + 1 && j < |run| ==>
                        Announces(remotes, codes, useRelease, run[i], run[j], said[i])
  }

  /** Over every run without release events, the log holds exactly the presses that the decodes
      announced, in order; there is no release in it. */
  lemma {:induction false} QuietRunLogsPresses(remotes: seq<Remote>, codes: seq<seq<NCode>>, run: seq<Daemon>)
    returns (said: seq<seq<Message>>)
    requires Runs(remotes, codes, false, run)
    ensures Saying(remotes, codes, false, run, said)
    ensures run[|run| - 1].log == Concat(said) && Presses(run[|run| - 1].log) == run[|run| - 1].log
    decreases |run|
  {
    hide Announces, Moves, Fitting;
    var last := |run| - 1;
    if last == 0 {
      said := [];
    } else {
      var before := QuietRunLogsPresses(remotes, codes, run[..last]);
      var d, e := run[last - 1], run[last];
      var m := MoveAnnounces(remotes, codes, false, d, e);
      AnnouncedIsLogged(remotes, codes, false, d, e, m);
      said := before + [m];
      assert said[..|said| - 1] == before;
      forall i, j | 0 <= i && j == i + 1 && j < |run|
        ensures Announces(remotes, codes, false, run[i], run[j], said[i])
      {
        if j < last { assert run[..last][i] == run[i] && run[..last][j] == run[j]; }
      }
    }
  }

  /** The same daemon with another log. */
  predicate Alike(d: Daemon, e: Daemon) {
    e == d.(log := e.log) && Presses(e.log) == Presses(d.log)
  }

  lemma DecodeIsMatched(remotes: seq<Remote>, codes: seq<seq<NCode>>, useRelease: bool, d: Daemon,
                        heard: seq<Option<Heard>>, n: nat, button: nat, reps: Option<int>, e: Daemon, other: bool,
                        f: Daemon)
    returns (g: Daemon)
    requires Fitting(remotes, codes, d) && Fitting(remotes, codes, f) && Alike(d, f) && |heard| == |remotes|
    requires Decodes(remotes, codes, useRelease, d, heard, n, button, reps, e)
    ensures Decodes(remotes, codes, other, f, heard, n, button, reps, g) && g == e.(log := g.log)
  {
    hide Misses, Records, Presses;
    g := if n == |remotes| then f.(states := e.states, lastRemote := None)
         else Notified(FoundBy(f, e.states, n), Key(n, button), reps, other);
  }

  /** What happens does not depend on whether releases are reported. */
  lemma MoveIsMatched(remotes: seq<Remote>, codes: seq<seq<NCode>>, useRelease: bool, d: Daemon, e: Daemon,
                      other: bool, f: Daemon)
    returns (g: Daemon)
    requires Fitting(remotes, codes, d) && Fitting(remotes, codes, f) && Alike(d, f)
    requires Moves(remotes, codes, useRelease, d, e)
    ensures Moves(remotes, codes, other, f, g) && Alike(e, g)
  {
    hide Presses, Decodes, Expired, Concat;
    var said := MoveAnnounces(remotes, codes, useRelease, d, e);
    AnnouncedIsLogged(remotes, codes, useRelease, d, e, said);
    if heard, n: nat, button: nat, reps :|
        && |heard| == |remotes| && Decodes(remotes, codes, useRelease, d, heard, n, button, reps, e)
        && said == if n < |remotes| && reps.Some? then [Press(Key(n, button), reps.value)] else [] {
      g := DecodeIsMatched(remotes, codes, useRelease, d, heard, n, button, reps, e, other, f);
    } else {
      g := Expired(f, other);
      ExpiryIsMatched(d, useRelease, other, f);
    }
    assert Announces(remotes, codes, other, f, g, said);
    AnnouncedIsLogged(remotes, codes, other, f, g, said);
  }

  lemma ExpiryIsMatched(d: Daemon, useRelease: bool, other: bool, f: Daemon)
    requires Alike(d, f) && (d.held.Some? ==> d.held.value.remote < |d.states|)
    ensures Expired(f, other) == Expired(d, useRelease).(log := Expired(f, other).log)
  {
    hide Presses;
  }

  lemma StillFitting(remotes: seq<Remote>, codes: seq<seq<NCode>>, e: Daemon, g: Daemon)
    requires Fitting(remotes, codes, e) && Alike(e, g)
    ensures Fitting(remotes, codes, g)
  {
    hide Presses;
  }

  /** With release events a run goes on in the same way: its log without them is that of the same run
      less the releases. */
  lemma {:induction false} QuietRunIsFullRun(remotes: seq<Remote>, codes: seq<seq<NCode>>, run: seq<Daemon>)
    returns (full: seq<Daemon>)
    requires Runs(remotes, codes, false, run)
    ensures Runs(remotes, codes, true, full) && |full| == |run|
    ensures forall i :: 0 <= i < |run| ==> full[i] == run[i].(log := full[i].log) && run[i].log == Presses(full[i].log)
    decreases |run|
  {
    hide Moves, Fitting, Presses;
    var last := |run| - 1;
    if last == 0 {
      full := run;
      assert Presses([]) == [] by { NothingPressed(); }
    } else {
      var before := QuietRunIsFullRun(remotes, codes, run[..last]);
      var d, e, f := run[last - 1], run[last], before[last - 1];
      assert run[..last][last - 1] == d;
      var said := QuietRunLogsPresses(remotes, codes, run[..last]);
      var g := MoveIsMatched(remotes, codes, false, d, e, true, f);
      StillFitting(remotes, codes, e, g);
      var all := QuietRunLogsPresses(remotes, codes, run);
      full := before + [g];
      forall i, j | 0 <= i && j == i + 1 && j < |full|
        ensures Moves(remotes, codes, true, full[i], full[j])
      {
        if j < last { assert full[i] == before[i] && full[j] == before[j]; }
      }
      forall i | 0 <= i < |run|
        ensures full[i] == run[i].(log := full[i].log) && run[i].log == Presses(full[i].log)
      {
        if i < last { assert full[i] == before[i] && run[..last][i] == run[i]; }
      }
    }
  }

  lemma NothingPressed()
    ensures Presses([]) == []
  {
  }
}
