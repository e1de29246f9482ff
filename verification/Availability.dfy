/** The offline debounce, over whole runs: what the pair (availability, offlineAt) remembers. */
module AvailabilityTheory {
  import opened Common
  import opened Model
  import opened Entry

  datatype Event = Reading | SaidOnline | SaidOffline(at: int) | Ticked(at: int)

  function Step(l: Link, e: Event, debounce: int): Link {
    match e
    case Reading => ReportOnline(l)
    case SaidOnline => ReportOnline(l)
    case SaidOffline(at) => ReportOffline(l, at, debounce)
    case Ticked(at) => Mature(l, at, debounce)
  }

  function Run(es: seq<Event>, debounce: int): Link {
    if es == [] then Link(NotSeen, None) else Step(Run(es[..|es| - 1], debounce), es[|es| - 1], debounce)
  }

  /** Proof of life. */
  predicate Live(e: Event) { e.Reading? || e.SaidOnline? }

  /** The events since the last proof of life. */
  function Silence(es: seq<Event>): seq<Event> {
    if es == [] || Live(es[|es| - 1]) then [] else Silence(es[..|es| - 1]) + [es[|es| - 1]]
  }

  lemma {:induction false} SilenceIsTheTail(es: seq<Event>)
    ensures var n := |es| - |Silence(es)|;
            && 0 <= n && es[n..] == Silence(es)
            && (forall k :: n <= k < |es| ==> !Live(es[k]))
            && (n > 0 ==> Live(es[n - 1]))
  {
    if es != [] && !Live(es[|es| - 1]) {
      SilenceIsTheTail(es[..|es| - 1]);
    }
  }

  /** The first offline report of a silence opens the outage. */
  predicate Opens(silence: seq<Event>, i: nat) {
    i < |silence| && silence[i].SaidOffline? && forall k :: 0 <= k < i ==> !silence[k].SaidOffline?
  }

  /** A later offline report or tick found the outage at least `debounce` old. */
  ghost predicate Confirmed(silence: seq<Event>, i: nat, debounce: int)
    requires i < |silence| && silence[i].SaidOffline?
  {
    exists j: nat :: ConfirmedBy(silence, i, j, debounce)
  }

  predicate ConfirmedBy(silence: seq<Event>, i: nat, j: nat, debounce: int)
    requires i < |silence| && silence[i].SaidOffline?
  {
    i < j < |silence| && (silence[j].SaidOffline? || silence[j].Ticked?) && silence[j].at - silence[i].at >= debounce
  }

  predicate NoOffline(silence: seq<Event>) { forall k :: 0 <= k < |silence| ==> !silence[k].SaidOffline? }

  /** The link, read off the history. */
  ghost predicate Describes(es: seq<Event>, debounce: int, l: Link) {
    var silence := Silence(es);
    && (NoOffline(silence) ==> l == Link(if |silence| == |es| then NotSeen else Online, None))
    && (forall i: nat :: Opens(silence, i) ==>
          l == Link(if Confirmed(silence, i, debounce) then Offline else OfflinePending, Some(silence[i].at)))
  }

  lemma {:induction false} SomeoneOpens(silence: seq<Event>)
    requires !NoOffline(silence)
    ensures exists i: nat :: Opens(silence, i)
  {
    var n := |silence| - 1;
    if NoOffline(silence[..n]) {
      assert forall k :: 0 <= k < n ==> silence[k] == silence[..n][k];
      assert Opens(silence, n);
    } else {
      SomeoneOpens(silence[..n]);
      var i: nat :| Opens(silence[..n], i);
      assert Opens(silence, i);
    }
  }

  lemma ConfirmedGrows(silence: seq<Event>, e: Event, i: nat, debounce: int)
    requires i < |silence| && silence[i].SaidOffline?
    ensures Confirmed(silence + [e], i, debounce)
            <==> Confirmed(silence, i, debounce)
                 || ((e.SaidOffline? || e.Ticked?) && e.at - silence[i].at >= debounce)
  {
    var all := silence + [e];
    if Confirmed(silence, i, debounce) {
      var j: nat :| ConfirmedBy(silence, i, j, debounce);
      assert ConfirmedBy(all, i, j, debounce);
    }
    if Confirmed(all, i, debounce) {
      var j: nat :| ConfirmedBy(all, i, j, debounce);
      assert j < |silence| ==> ConfirmedBy(silence, i, j, debounce);
    }
    if (e.SaidOffline? || e.Ticked?) && e.at - silence[i].at >= debounce {
      assert ConfirmedBy(all, i, |silence|, debounce);
    }
  }

  lemma StepDescribes(es: seq<Event>, e: Event, debounce: int, l: Link)
    requires debounce > 0 && Describes(es, debounce, l)
    ensures Describes(es + [e], debounce, Step(l, e, debounce))
  {
    var all, silence := es + [e], Silence(es);
    assert all[..|all| - 1] == es;
    SilenceIsTheTail(es);
    if !Live(e) {
      var longer := silence + [e];
      assert Silence(all) == longer;
      assert forall k :: 0 <= k < |silence| ==> longer[k] == silence[k];
      if NoOffline(silence) {
        forall i: nat | Opens(longer, i)
          ensures var now := if Confirmed(longer, i, debounce) then Offline else OfflinePending;
                  Step(l, e, debounce) == Link(now, Some(longer[i].at))
        {
          assert i == |silence|;
        }
        assert longer[|silence|] == e;
      } else {
        SomeoneOpens(silence);
        var o: nat :| Opens(silence, o);
        ConfirmedGrows(silence, e, o, debounce);
        assert Opens(longer, o);
      }
    } else if !NoOffline(silence) {
      SomeoneOpens(silence);
    }
  }

  lemma DescribesOn(es: seq<Event>, e: Event, debounce: int)
    requires debounce > 0 && Describes(es, debounce, Run(es, debounce))
    ensures Describes(es + [e], debounce, Run(es + [e], debounce))
  {
    StepDescribes(es, e, debounce, Run(es, debounce));
    assert (es + [e])[..|es|] == es;
  }

  /** The debounce remembers exactly the silence: with no offline report in it the device is
      online (or never seen); otherwise the outage is dated by the first one and the device is
      offline exactly if a later report or tick found it old enough. No assumption on clocks. */
  lemma {:induction false} LinkDescribesHistory(es: seq<Event>, debounce: int)
    requires debounce > 0
    ensures Describes(es, debounce, Run(es, debounce))
  {
    if es != [] {
      var before, last := es[..|es| - 1], es[|es| - 1];
      LinkDescribesHistory(before, debounce);
      DescribesOn(before, last, debounce);
      assert before + [last] == es;
    }
  }

  predicate Clocked(e: Event) { e.SaidOffline? || e.Ticked? }

  /** An offline report, at position i, that no proof of life has followed. */
  predicate Unanswered(es: seq<Event>, i: nat) {
    i < |es| && es[i].SaidOffline? && forall k :: i < k < |es| ==> !Live(es[k])
  }

  /** Safety: offline at time t (no clock so far having passed t) means an offline report at
      least `debounce` before t with no proof of life since. */
  lemma OfflineIsEarned(es: seq<Event>, debounce: int, t: int) returns (i: nat)
    requires debounce > 0 && Run(es, debounce).availability.Offline?
    requires forall k :: 0 <= k < |es| && Clocked(es[k]) ==> es[k].at <= t
    ensures Unanswered(es, i) && es[i].at <= t - debounce
  {
    LinkDescribesHistory(es, debounce);
    var silence := Silence(es);
    SomeoneOpens(silence);
    var o: nat :| Opens(silence, o);
    assert Confirmed(silence, o, debounce);
    i := OutageInHistory(es, debounce, t, o);
  }

  lemma OutageInHistory(es: seq<Event>, debounce: int, t: int, o: nat) returns (i: nat)
    requires Opens(Silence(es), o) && Confirmed(Silence(es), o, debounce)
    requires forall k :: 0 <= k < |es| && Clocked(es[k]) ==> es[k].at <= t
    ensures Unanswered(es, i) && es[i].at <= t - debounce
  {
    var silence := Silence(es);
    var j: nat :| ConfirmedBy(silence, o, j, debounce);
    SilenceIsTheTail(es);
    i := |es| - |silence| + o;
    assert es[|es| - |silence| + j] == silence[j];
  }

  /** Promptness: the first tick or offline report at or after the deadline makes it offline. */
  lemma OfflineIsPrompt(es: seq<Event>, debounce: int, i: nat, e: Event)
    requires debounce > 0 && Opens(Silence(es), i) && Clocked(e) && e.at - Silence(es)[i].at >= debounce
    ensures Run(es + [e], debounce).availability.Offline?
  {
    LinkDescribesHistory(es, debounce);
    assert (es + [e])[..|es|] == es;
  }

  /** Only a reading or an online report leaves offline. */
  lemma OnlyLifeEndsOffline(es: seq<Event>, e: Event, debounce: int)
    requires debounce > 0 && Run(es, debounce).availability.Offline?
    ensures Run(es + [e], debounce).availability.Offline? <==> !Live(e)
  {
    LinkDescribesHistory(es, debounce);
    SomeoneOpens(Silence(es));
    assert (es + [e])[..|es|] == es;
  }

  lemma OfflineOn(silence: seq<Event>, e: Event)
    ensures NoOffline(silence + [e]) <==> NoOffline(silence) && !e.SaidOffline?
  {
    var all := silence + [e];
    assert all[|silence|] == e && forall k :: 0 <= k < |silence| ==> all[k] == silence[k];
  }

  /** Without a debounce the first offline report since the last sign of life is enough. */
  lemma {:induction false} NoDebounceNoDelay(es: seq<Event>, debounce: int)
    requires debounce <= 0
    ensures Run(es, debounce)
            == Link(if !NoOffline(Silence(es)) then Offline
                    else if |Silence(es)| == |es| then NotSeen else Online, None)
  {
    if es != [] {
      var before, last := es[..|es| - 1], es[|es| - 1];
      NoDebounceNoDelay(before, debounce);
      SilenceIsTheTail(before);
      if !Live(last) {
        OfflineOn(Silence(before), last);
      }
    }
  }
}
