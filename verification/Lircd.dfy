/** The daemon itself: the list of remotes updated in place, the release state, and the messages
    that go out to the clients. */
module Lircd {
  import opened Options
  import opened Words
  import opened Remotes
  import opened Recogniser
  import opened Decode
  import opened Releases

  lemma LastCodeSet(r: Remote, s: State, c: NCode, found: nat, bitMask: Word, t: Timing)
    ensures c.current == 0 ==> SetCode(r, s, c, found, bitMask, t).lastCode == Some(found)
  {
  }

  lemma NotifiedStates(d: Daemon, key: Key, reps: Option<int>, useRelease: bool)
    ensures Notified(d, key, reps, useRelease).states == d.states
  {
  }

  lemma AnnouncedWhole(r: Remote, s: State, c: NCode)
    ensures Announced(r, s, c).Some? ==> !Odd(r, s) && c.current == 0
  {
  }

  class Server {
    const remotes: seq<Remote>
    const list: seq<RemoteState>
    const useRelease: bool
    var lastDecoded: Option<nat>
    var lastRemote: Option<nat>
    var held: Option<Key>
    var pending: Option<Key>
    var log: seq<Message>

    ghost predicate Valid()
      reads this, list, set i | 0 <= i < |list| :: list[i].codes
    {
      && |remotes| == |list|
      && (forall i :: 0 <= i < |list| ==> remotes[i].BitCount() <= 64 && list[i].Valid())
      && (forall i, j :: 0 <= i < j < |list| ==> list[i] != list[j] && list[i].codes != list[j].codes)
    }

    ghost function Codes(): seq<seq<NCode>>
      reads set i | 0 <= i < |list| :: list[i].codes
    {
      seq(|list|, i requires 0 <= i < |list| reads (set j | 0 <= j < |list| :: list[j].codes) => list[i].codes[..])
    }

    ghost function View(): Daemon
      reads this, list
    {
      Daemon(seq(|list|, i requires 0 <= i < |list| reads list => list[i].View()), lastDecoded, lastRemote, held,
             pending, log)
    }

    constructor (remotes: seq<Remote>, list: seq<RemoteState>, useRelease: bool)
      requires |remotes| == |list|
      requires forall i :: 0 <= i < |list| ==> remotes[i].BitCount() <= 64 && list[i].Valid()
      requires forall i, j :: 0 <= i < j < |list| ==> list[i] != list[j] && list[i].codes != list[j].codes
      ensures Valid() && Started(remotes, View())
      ensures this.remotes == remotes && this.list == list && this.useRelease == useRelease
    {
      this.remotes, this.list, this.useRelease := remotes, list, useRelease;
      lastDecoded, lastRemote, held, pending, log := None, None, None, None, [];
    }

    /** `register_button_press` */
    method RegisterButtonPress(key: Key, reps: int)
      modifies `held, `pending
      ensures View() == Registered(old(View()), key, reps)
    {
      if reps == 0 && held.Some? {
        pending := held;
      }
      held := Some(key);
    }

    /** `check_release_event` */
    method CheckRelease() returns (m: Option<Message>)
      modifies `pending
      ensures View() == old(View()).(pending := None)
      ensures m == if old(pending).Some? then Some(Release(old(pending).value)) else None
    {
      m := None;
      if pending.Some? {
        m := Some(Release(pending.value));
        pending := None;
      }
    }

    /** `trigger_release_event` */
    method TriggerRelease() returns (m: Option<Message>)
      requires Valid() && (held.Some? ==> held.value.remote < |list|)
      modifies `held, list
      ensures Valid()
      ensures m == if old(held).Some? then Some(Release(old(held).value)) else None
      ensures View() == if old(held).None? then old(View())
                        else var k := old(held).value;
                             old(View()).(states := old(View()).states[k.remote :=
                               old(View()).states[k.remote].(releaseDetected := true)], held := None)
    {
      m := None;
      if held.Some? {
        var k := held.value;
        list[k.remote].releaseDetected := true;
        m := Some(Release(k));
        held := None;
      }
    }

    /** `input_message`, which calls itself for a release that is due. */
    method InputMessage(m: Message)
      modifies `pending, `log
      ensures View() == Delivered(old(View()), m, useRelease)
      decreases pending.Some?
    {
      var release := CheckRelease();
      if release.Some? {
        InputMessage(release.value);
      }
      if m.Press? || useRelease {
        log := log + [m];
      }
    }

    /** An event that is to be announced is registered and sent. */
    method Notify(key: Key, reps: Option<int>)
      modifies `held, `pending, `log
      ensures View() == Notified(old(View()), key, reps, useRelease)
    {
      if reps.Some? {
        RegisterButtonPress(key, reps.value);
        InputMessage(Press(key, reps.value));
      }
    }

    /** The timer of the main loop. */
    method Timeout()
      requires Valid() && (held.Some? ==> held.value.remote < |list|)
      modifies this, list
      ensures Valid() && View() == Expired(old(View()), useRelease)
    {
      var m := TriggerRelease();
      if m.Some? {
        InputMessage(m.value);
      }
    }

    /** `get_code` for remote `n`, and if it finds no button, the reset of its mask state. */
    method TryRemote(n: nat, h: Option<Heard>) returns (found: Option<nat>, all: Word)
      requires Valid() && n < |list|
      modifies list[n], list[n].codes
      ensures Valid()
      ensures found.None? ==> Misses(remotes[n], old(list[n].View()), old(list[n].codes[..]), h, list[n].View())
      ensures found.Some? ==>
                h.Some? && Finds(remotes[n], old(list[n].View()), old(list[n].codes[..]), h.value.words,
                                 list[n].View(), all, found)
      ensures found.Some? ==> found.value < list[n].codes.Length
                              && list[n].codes[found.value] == Advance(remotes[n], old(list[n].codes[found.value]), all)
      ensures Simple(remotes[n], old(list[n].codes[..])) ==> list[n].codes[..] == old(list[n].codes[..])
    {
      hide Advance, Reported, DataMatches, WholeCode, Plaintext;
      found, all := None, ZERO;
      if h.Some? {
        found, all := list[n].GetCode(remotes[n], h.value.words);
      }
      if found.None? {
        ghost var v := list[n].View();
        list[n].maskState := 0;
      }
    }

    /** The buttons of all remotes go back to the beginning of their sequences. */
    method ResetSequences()
      requires Valid()
      modifies set i | 0 <= i < |list| :: list[i].codes
      ensures Valid()
      ensures forall i, k :: 0 <= i < |list| && 0 <= k < list[i].codes.Length ==>
                list[i].codes[k] == old(list[i].codes[k]).(current := 0)
    {
      for i := 0 to |list|
        invariant forall j, k :: i <= j < |list| && 0 <= k < list[j].codes.Length ==>
            list[j].codes[k] == old(list[j].codes[k])
        invariant forall j, k :: 0 <= j < i && 0 <= k < list[j].codes.Length ==>
            list[j].codes[k] == old(list[j].codes[k]).(current := 0)
      {
        var codes := list[i].codes;
        for k := 0 to codes.Length
          invariant forall j, m :: i < j < |list| && 0 <= m < list[j].codes.Length ==>
              list[j].codes[m] == old(list[j].codes[m])
          invariant forall j, m :: 0 <= j < i && 0 <= m < list[j].codes.Length ==>
              list[j].codes[m] == old(list[j].codes[m]).(current := 0)
          invariant forall m :: 0 <= m < k ==> codes[m] == old(codes[m]).(current := 0)
          invariant forall m :: k <= m < codes.Length ==> codes[m] == old(codes[m])
        {
          codes[k] := codes[k].(current := 0);
        }
      }
    }

    /** All buttons of all remotes are at the beginning of their sequences; only the button that was
        found is already at the second code of its sequence if the remote is an XMP one. */
    ghost predicate StartedOver(n: nat, found: nat)
      reads set i | 0 <= i < |list| :: list[i].codes
      requires |remotes| == |list| && n < |list|
    {
      forall i, k :: 0 <= i < |list| && 0 <= k < list[i].codes.Length ==>
        list[i].codes[k] == Restarted(remotes[n], list[i].codes[k], i == n && k == found)
    }

    /** All sequences start over; the completed one of an XMP remote goes on from its second code. */
    method StartOver(n: nat, last: nat)
      requires Valid() && n < |list| && last < list[n].codes.Length
      modifies set i | 0 <= i < |list| :: list[i].codes
      ensures Valid() && StartedOver(n, last)
      ensures forall i, k :: 0 <= i < |list| && 0 <= k < list[i].codes.Length ==>
                list[i].codes[k] == old(list[i].codes[k]).(current := list[i].codes[k].current)
    {
      ResetSequences();
      var codes := list[n].codes;
      if remotes[n].protocol.Xmp? {
        codes[last] := codes[last].(current := if codes[last].next != [] then 1 else 0);
      }
    }

    lemma SimpleStaysPut(r: Remote, before: seq<NCode>, after: seq<NCode>)
      requires Simple(r, before) && |after| == |before|
      requires forall k :: 0 <= k < |after| ==> after[k] == before[k].(current := after[k].current)
      requires forall k :: 0 <= k < |after| && after[k].next == [] ==> after[k].current == 0
      ensures after == before
    {
    }

    /** What `decode_all` does after `set_code` found the event to be complete: the sequences start
        over, and suppressed repetitions are not announced. */
    method Conclude(n: nat, found: nat) returns (reps: Option<int>)
      requires Valid() && n < |list| && found < list[n].codes.Length
      requires list[n].codes[found].current == 0 ==> list[n].lastCode == Some(found)
      modifies set i | 0 <= i < |list| :: list[i].codes
      ensures Valid()
      ensures reps == Announced(remotes[n], list[n].View(), old(list[n].codes[found]))
      ensures if Odd(remotes[n], list[n].View()) || old(list[n].codes[found]).current != 0 then
                forall i :: 0 <= i < |list| ==> list[i].codes[..] == old(list[i].codes[..])
              else
                && StartedOver(n, found)
                && forall i, k :: 0 <= i < |list| && 0 <= k < list[i].codes.Length ==>
                     list[i].codes[k] == old(list[i].codes[k]).(current := list[i].codes[k].current)
      ensures forall i :: 0 <= i < |list| && Simple(remotes[i], old(list[i].codes[..])) ==>
                list[i].codes[..] == old(list[i].codes[..])
    {
      var r, me := remotes[n], list[n];
      var c := me.codes[found];
      if (r.HasToggleMask() && me.maskState % 2 == 1) || c.current != 0 {
        return None;
      }
      StartOver(n, me.lastCode.value);
      forall i | 0 <= i < |list| && Simple(remotes[i], old(list[i].codes[..]))
        ensures list[i].codes[..] == old(list[i].codes[..])
      {
        SimpleStaysPut(remotes[i], old(list[i].codes[..]), list[i].codes[..]);
      }
      var k := me.reps - if c.next != [] then 1 else 0;
      if k > 0 {
        if k <= r.suppressRepeat {
          return None;
        }
        k := k - r.suppressRepeat;
      }
      reps := Some(k);
    }

    /** The rest of `decode_all` once remote `n` has found a button, and the main loop after it. */
    method Answer(n: nat, found: nat, h: Heard, all: Word) returns (reps: Option<int>)
      requires Valid() && n < |list| && found < list[n].codes.Length
      modifies this, list[n], set i | 0 <= i < |list| :: list[i].codes
      ensures Valid()
      ensures list[n].View() == SetCode(remotes[n], old(list[n].View()), old(list[n].codes[found]), found,
                                        And(all, remotes[n].toggleBitMask),
                                        Timing(h.repeatFlag, old(lastDecoded) == Some(n), h.recent))
      ensures reps == Announced(remotes[n], list[n].View(), old(list[n].codes[found]))
      ensures View() == Notified(FoundBy(old(View()), View().states, n), Key(n, found), reps,
                                 useRelease)
      ensures reps.Some? ==> StartedOver(n, found)
      ensures forall i :: 0 <= i < |list| && Simple(remotes[i], old(list[i].codes[..])) ==>
                list[i].codes[..] == old(list[i].codes[..])
    {
      hide Announced, Simple, SetCode, StartedOver, Notified, Odd;
      var r, me := remotes[n], list[n];
      LastCodeSet(r, me.View(), me.codes[found], found, And(all, r.toggleBitMask),
                  Timing(h.repeatFlag, lastDecoded == Some(n), h.recent));
      me.RecordCode(r, found, And(all, r.toggleBitMask), Timing(h.repeatFlag, lastDecoded == Some(n), h.recent));
      lastDecoded, lastRemote := Some(n), Some(n);
      ghost var c := me.codes[found];
      reps := Conclude(n, found);
      if reps.Some? {
        AnnouncedWhole(r, me.View(), c);
      }
      ghost var d := View();
      NotifiedStates(d, Key(n, found), reps, useRelease);
      Notify(Key(n, found), reps);
    }

    lemma Fits()
      requires Valid()
      ensures |list| == |remotes| && Fitting(remotes, Codes(), View())
    {
    }

    /** Remote `n` in turn: it misses, or it has the button and the rest is done. */
    method Offer(n: nat, h: Option<Heard>) returns (found: Option<nat>, reps: Option<int>)
      requires Valid() && n < |list|
      modifies this, list[n], set i | 0 <= i < |list| :: list[i].codes
      ensures Valid()
      ensures found.None? ==>
                && Misses(remotes[n], old(list[n].View()), old(list[n].codes[..]), h, list[n].View())
                && View() == old(View()).(states := View().states)
                && forall i :: 0 <= i < |list| && i != n ==> list[i].codes[..] == old(list[i].codes[..])
      ensures forall i :: 0 <= i < |list| && i != n ==> list[i].View() == old(list[i].View())
      ensures found.Some? ==>
                && h.Some?
                && Records(remotes[n], old(list[n].View()), old(list[n].codes[..]), h.value,
                           old(lastDecoded) == Some(n), list[n].View(), found.value, reps)
                && View() == Notified(FoundBy(old(View()), View().states, n),
                                      Key(n, found.value), reps, useRelease)
                && (reps.Some? ==> StartedOver(n, found.value))
      ensures forall i :: 0 <= i < |list| && Simple(remotes[i], old(list[i].codes[..])) ==>
                list[i].codes[..] == old(list[i].codes[..])
    {
      hide Misses, Finds, SetCode, Announced, Simple, Records, Notified, Advance, And, StartedOver;
      ghost var s, codes, same := list[n].View(), list[n].codes[..], lastDecoded == Some(n);
      var all;
      found, all := TryRemote(n, h);
      reps := None;
      if found.Some? {
        ghost var v := list[n].View();
        reps := Answer(n, found.value, h.value, all);
        HitFound(remotes[n], s, codes, h.value, same, v, all, list[n].View(), found.value, reps);
      }
    }

    /** The decoder forgets which remote was last. */
    method ForgetRemote()
      requires Valid()
      modifies `lastRemote
      ensures Valid() && View() == old(View()).(lastRemote := None)
    {
      lastRemote := None;
    }

    /** One turn of the main loop for signals received: `heard` is what the decoder of each remote
        makes of them. */
    method Decode(heard: seq<Option<Heard>>) returns (ghost n: nat, ghost button: nat, ghost reps: Option<int>)
      requires Valid() && |heard| == |list|
      modifies this, list, set i | 0 <= i < |list| :: list[i].codes
      ensures Valid()
      ensures Fitting(remotes, old(Codes()), old(View()))
      ensures Decodes(remotes, old(Codes()), useRelease, old(View()), heard, n, button, reps, View())
      ensures reps.Some? ==> n < |list| && StartedOver(n, button)
      ensures forall i :: 0 <= i < |list| && Simple(remotes[i], old(list[i].codes[..])) ==>
                list[i].codes[..] == old(list[i].codes[..])
    {
      hide Misses, Simple, Records, Notified, Decodes, Valid, StartedOver;
      Fits();
      ghost var d, codes := View(), Codes();
      button, reps := 0, None;
      for i := 0 to |list|
        invariant Valid()
        invariant lastDecoded == d.lastDecoded && lastRemote == d.lastRemote
        invariant held == d.held && pending == d.pending && log == d.log
        invariant forall j :: 0 <= j < i ==> Misses(remotes[j], d.states[j], codes[j], heard[j], list[j].View())
        invariant forall j :: i <= j < |list| ==> list[j].View() == d.states[j] && list[j].codes[..] == codes[j]
        invariant forall j :: 0 <= j < |list| && Simple(remotes[j], codes[j]) ==> list[j].codes[..] == codes[j]
      {
        var found, times := Offer(i, heard[i]);
        if found.Some? {
          n, button, reps := i, found.value, times;
          HitDecodes(remotes, codes, useRelease, d, heard, n, button, reps, View());
          return;
        }
      }
      n := |list|;
      ForgetRemote();
      NoneDecodes(remotes, codes, useRelease, d, heard, View());
    }
  }
}
