/** internal/state/signal_store.go: asserted signals and the high-water mark of their activity. */
module Signals {
  import opened Common

  datatype Signal = Signal(id: string, since: int, expiresAt: int)

  /** A zero expiry never comes. */
  predicate IsExpired(s: Signal, now: int) { s.expiresAt != 0 && now > s.expiresAt }

  // ------------------------------------------------------------ the store as a value

  datatype State = State(signals: map<string, Signal>, lastAt: int)

  const EMPTY := State(map[], 0)

  function Upserted(st: State, s: Signal): State { State(st.signals[s.id := s], Max(st.lastAt, s.since)) }

  function Cleared(st: State, id: string, at: int): State { State(st.signals - {id}, Max(st.lastAt, at)) }

  ghost function Expired(m: map<string, Signal>, now: int): set<string> { set id | id in m && IsExpired(m[id], now) }

  /** m is the greatest of the marks the ids leave and what it was. */
  ghost predicate IsRaised(m: int, was: int, signals: map<string, Signal>, ids: set<string>)
    requires ids <= signals.Keys
  {
    && m >= was && (forall id :: id in ids ==> m >= signals[id].expiresAt)
    && (m == was || exists id :: id in ids && m == signals[id].expiresAt)
  }

  ghost predicate IsPruned(st: State, now: int, next: State) {
    && next.signals == st.signals - Expired(st.signals, now)
    && IsRaised(next.lastAt, st.lastAt, st.signals, Expired(st.signals, now))
  }

  class SignalStore {
    var signals: map<string, Signal>
    var lastAt: int

    ghost function View(): State
      reads this
    {
      State(signals, lastAt)
    }

    constructor ()
      ensures View() == EMPTY
    {
      signals, lastAt := map[], 0;
    }

    method Upsert(s: Signal)
      modifies this
      ensures View() == Upserted(old(View()), s)
    {
      signals := signals[s.id := s];
      if s.since > lastAt {
        lastAt := s.since;
      }
    }

    method ClearAt(id: string, at: int)
      modifies this
      ensures View() == Cleared(old(View()), id, at)
    {
      signals := signals - {id};
      if at > lastAt {
        lastAt := at;
      }
    }

    /** The map is walked in any order while entries are taken out of it. */
    method Prune(now: int)
      modifies this
      ensures IsPruned(old(View()), now, View())
    {
      ghost var was := signals;
      var todo := signals.Keys;
      while todo != {}
        invariant todo <= was.Keys
        invariant signals == was - (Expired(was, now) - todo)
        invariant IsRaised(lastAt, old(lastAt), was, Expired(was, now) - todo)
        decreases todo
      {
        var id :| id in todo;
        ghost var gone := Expired(was, now) - todo;
        todo := todo - {id};
        var s := signals[id];
        if IsExpired(s, now) {
          signals := signals - {id};
          if s.expiresAt > lastAt {
            lastAt := s.expiresAt;
          }
          assert Expired(was, now) - todo == gone + {id};
        } else {
          assert Expired(was, now) - todo == gone;
        }
      }
      assert Expired(was, now) - todo == Expired(was, now);
    }

    /** The live signals, each once, in any order. */
    method Active(now: int) returns (out: seq<Signal>)
      ensures IsActive(out, signals, now)
    {
      out := [];
      var todo := signals.Keys;
      while todo != {}
        invariant todo <= signals.Keys && |out| == |(signals.Keys - todo) - Expired(signals, now)|
        invariant forall s :: s in out <==>
                              exists id :: id in signals.Keys - todo && !IsExpired(signals[id], now) && s == signals[id]
        decreases todo
      {
        var id :| id in todo;
        ghost var live := (signals.Keys - todo) - Expired(signals, now);
        todo := todo - {id};
        if !IsExpired(signals[id], now) {
          out := out + [signals[id]];
          assert (signals.Keys - todo) - Expired(signals, now) == live + {id};
        } else {
          assert (signals.Keys - todo) - Expired(signals, now) == live;
        }
      }
    }
  }

  ghost predicate IsActive(out: seq<Signal>, m: map<string, Signal>, now: int) {
    && |out| == |m.Keys - Expired(m, now)|
    && forall s :: s in out <==> exists id :: id in m && !IsExpired(m[id], now) && s == m[id]
  }

  // ------------------------------------------------------------ runs

  datatype Event = Assert(s: Signal) | Clear(id: string, at: int) | Prune(now: int)

  ghost predicate Step(st: State, e: Event, next: State) {
    match e
    case Assert(s) => next == Upserted(st, s)
    case Clear(id, at) => next == Cleared(st, id, at)
    case Prune(now) => IsPruned(st, now, next)
  }

  /** The states an empty store goes through under the events. */
  ghost predicate IsRun(events: seq<Event>, states: seq<State>) {
    && |states| == |events| + 1 && states[0] == EMPTY
    && forall k :: 0 <= k < |events| ==> Step(states[k], events[k], states[k + 1])
  }

  /** Signals are filed under their ids and none began after the high-water mark. */
  ghost predicate Marked(st: State) {
    st.lastAt >= 0 && forall id :: id in st.signals ==> st.signals[id].id == id && st.signals[id].since <= st.lastAt
  }

  lemma StepKeepsMark(st: State, e: Event, next: State)
    requires Marked(st) && Step(st, e, next)
    ensures Marked(next) && st.lastAt <= next.lastAt && (e.Assert? ==> e.s.since <= next.lastAt)
  {
  }

  /** The mark never falls, and bounds the start of every signal ever asserted, cleared and
      expired ones included. */
  lemma {:induction false} MarkBoundsAll(events: seq<Event>, states: seq<State>, k: nat)
    requires IsRun(events, states) && k <= |events|
    ensures Marked(states[k])
    ensures forall j :: 0 <= j < k ==> states[j].lastAt <= states[k].lastAt
    ensures forall j :: 0 <= j < k && events[j].Assert? ==> events[j].s.since <= states[k].lastAt
  {
    if k > 0 {
      MarkBoundsAll(events, states, k - 1);
      StepKeepsMark(states[k - 1], events[k - 1], states[k]);
    }
  }

  // ------------------------------------------------------------ what is held and marked, event by event

  /** The signal has had its time by then. */
  predicate IsOver(s: Signal, now: int) { s.expiresAt != 0 && s.expiresAt < now }

  /** The event ends the signal: another under its id, its clearing, or a prune after its time. */
  predicate Ends(e: Event, s: Signal) {
    match e
    case Assert(t) => t.id == s.id
    case Clear(id, _) => id == s.id
    case Prune(now) => IsOver(s, now)
  }

  /** Event j asserted the signal and nothing before event k has ended it. */
  ghost predicate LastsFrom(events: seq<Event>, j: nat, k: nat, s: Signal) {
    j < k <= |events| && events[j] == Assert(s) && forall l: nat :: j < l < k ==> !Ends(events[l], s)
  }

  ghost predicate Lasts(events: seq<Event>, k: nat, s: Signal) {
    exists j: nat :: LastsFrom(events, j, k, s)
  }

  lemma StepHolds(st: State, e: Event, next: State, s: Signal)
    requires Step(st, e, next) && Marked(st)
    ensures IsHeld(next, s) <==> e == Assert(s) || (IsHeld(st, s) && !Ends(e, s))
  {
  }

  predicate IsHeld(st: State, s: Signal) { s.id in st.signals && st.signals[s.id] == s }

  lemma LastsOn(events: seq<Event>, k: nat, s: Signal)
    requires k < |events|
    ensures Lasts(events, k + 1, s) <==> events[k] == Assert(s) || (Lasts(events, k, s) && !Ends(events[k], s))
  {
    if Lasts(events, k + 1, s) {
      var j: nat :| LastsFrom(events, j, k + 1, s);
      assert j < k ==> LastsFrom(events, j, k, s) && !Ends(events[k], s);
    }
    if events[k] == Assert(s) {
      assert LastsFrom(events, k, k + 1, s);
    } else if Lasts(events, k, s) && !Ends(events[k], s) {
      var j: nat :| LastsFrom(events, j, k, s);
      assert LastsFrom(events, j, k + 1, s);
    }
  }

  /** Over every run the store holds exactly the signals that were asserted and not ended since. */
  lemma {:induction false} HeldMeans(events: seq<Event>, states: seq<State>, k: nat, s: Signal)
    requires IsRun(events, states) && k <= |events|
    ensures IsHeld(states[k], s) <==> Lasts(events, k, s)
  {
    if k > 0 {
      HeldMeans(events, states, k - 1, s);
      MarkBoundsAll(events, states, k - 1);
      assert Step(states[k - 1], events[k - 1], states[k]);
      StepHolds(states[k - 1], events[k - 1], states[k], s);
      LastsOn(events, k - 1, s);
    }
  }

  /** Of those, the live ones are the ones whose time has not passed. */
  lemma ActiveMeans(events: seq<Event>, states: seq<State>, k: nat, now: int, out: seq<Signal>, s: Signal)
    requires IsRun(events, states) && k <= |events| && IsActive(out, states[k].signals, now)
    ensures s in out <==> Lasts(events, k, s) && !IsOver(s, now)
  {
    HeldMeans(events, states, k, s);
    MarkBoundsAll(events, states, k);
    if IsHeld(states[k], s) && !IsOver(s, now) {
      assert s.id in states[k].signals && !IsExpired(states[k].signals[s.id], now);
    }
  }

  /** An instant the event leaves in the mark. */
  ghost predicate Marks(st: State, e: Event, at: int) {
    match e
    case Assert(s) => at == s.since
    case Clear(_, t) => at == t
    case Prune(now) => exists id :: id in st.signals && IsOver(st.signals[id], now) && at == st.signals[id].expiresAt
  }

  lemma StepMarks(st: State, e: Event, next: State)
    requires Step(st, e, next)
    ensures next.lastAt >= st.lastAt && (next.lastAt == st.lastAt || Marks(st, e, next.lastAt))
    ensures forall at :: Marks(st, e, at) ==> at <= next.lastAt
  {
    if e.Prune? {
      forall id | id in st.signals && IsOver(st.signals[id], e.now) ensures st.signals[id].expiresAt <= next.lastAt {
        assert id in Expired(st.signals, e.now);
      }
    }
  }

  /** Over every run the mark is the latest instant any assertion, clearing or expiry has left. */
  lemma {:induction false} MarkMeans(events: seq<Event>, states: seq<State>, k: nat)
    requires IsRun(events, states) && k <= |events|
    ensures forall j: nat, at :: j < k && Marks(states[j], events[j], at) ==> at <= states[k].lastAt
    ensures states[k].lastAt == 0 || exists j: nat :: j < k && Marks(states[j], events[j], states[k].lastAt)
  {
    if k > 0 {
      MarkMeans(events, states, k - 1);
      assert Step(states[k - 1], events[k - 1], states[k]);
      StepMarks(states[k - 1], events[k - 1], states[k]);
    }
  }
}
