/** What becomes of each call of the publisher (internal/mqtt/publisher.go): when a job is refused,
    that every call returns, and that every job asked for is accounted for. */
module PublisherCalls {
  import opened Common
  import opened Publisher

  // ------------------------------------------------------------ what each call comes to

  /** Process p takes its next n steps while nobody else moves. */
  function Alone(cap: nat, s: System, p: Pid, n: nat): System
    decreases n
  {
    if n == 0 then s else Alone(cap, Next(cap, s, Go(p)), p, n - 1)
  }

  /** At the select a job is queued if there is room at all, and refused only by a full queue. */
  lemma RefusedOnlyWhenFull(cap: nat, s: System, p: Pid)
    requires Inv(cap, s) && At(s, p).Sending?
    ensures var t, job := Next(cap, s, Go(p)), At(s, p).job;
            if At(t, p).Refused? then |s.flow.queue| == cap && t.flow == s.flow
            else t.flow.queue == s.flow.queue + [job] && t.flow.enqueued == s.flow.enqueued + [job]
  {
    assert ProcOk(s, p, s.procs[p]);
  }

  /** Process p has come this far, and of what matters to others only the lock may have changed. */
  ghost predicate HasCome(s: System, t: System, p: Pid, at: Proc, mu: Option<Pid>) {
    && At(t, p) == at && t.mu == mu && t.open == s.open && t.closed == s.closed && t.flow == s.flow
    && t.attempts == s.attempts && t.dropped == s.dropped && t.wg == s.wg
  }

  lemma AloneTwo(cap: nat, s: System, p: Pid)
    ensures Alone(cap, s, p, 2) == Next(cap, Next(cap, s, Go(p)), Go(p))
    ensures Alone(cap, s, p, 3) == Next(cap, Next(cap, Next(cap, s, Go(p)), Go(p)), Go(p))
  {
    var t := Next(cap, s, Go(p));
    var u := Next(cap, t, Go(p));
    assert Alone(cap, s, p, 2) == Alone(cap, t, p, 1) == Alone(cap, u, p, 0);
    assert Alone(cap, s, p, 3) == Alone(cap, t, p, 2) == Alone(cap, u, p, 1) == Alone(cap, Next(cap, u, Go(p)), p, 0);
  }

  lemma PublishLocks(cap: nat, s: System, p: Pid, job: Job)
    requires At(s, p) == Publishing(job) && s.mu.None?
    ensures HasCome(s, Next(cap, s, Go(p)), p, Looking(job), Some(p))
  {
  }

  lemma PublishLooks(cap: nat, s: System, t: System, p: Pid, job: Job)
    requires HasCome(s, t, p, Looking(job), Some(p))
    ensures HasCome(s, Next(cap, t, Go(p)), p, if s.open then Sending(job) else Falling(job), Some(p))
  {
  }

  lemma PublishArrives(cap: nat, s: System, p: Pid, job: Job)
    requires At(s, p) == Publishing(job) && s.mu.None?
    ensures HasCome(s, Alone(cap, s, p, 2), p, if s.open then Sending(job) else Falling(job), Some(p))
  {
    PublishLocks(cap, s, p, job);
    PublishLooks(cap, s, Next(cap, s, Go(p)), p, job);
    AloneTwo(cap, s, p);
  }

  ghost predicate IsQueued(s: System, t: System, p: Pid, job: Job) {
    At(t, p).Free? && t.mu.None? && t.flow == Put(s.flow, job) && t.dropped == s.dropped
  }

  ghost predicate IsDropped(s: System, t: System, p: Pid) {
    At(t, p).Free? && t.mu.None? && t.flow == s.flow && t.dropped == s.dropped + 1
  }

  ghost predicate IsBypassed(s: System, t: System, p: Pid, job: Job) {
    At(t, p).Free? && t.mu.None? && t.flow == Bypass(s.flow, job) && t.dropped == s.dropped
  }

  lemma SendQueues(cap: nat, s: System, t: System, p: Pid, job: Job)
    requires HasCome(s, t, p, Sending(job), Some(p)) && !s.closed && |s.flow.queue| < cap
    ensures var u := Next(cap, t, Go(p));
            At(u, p).Leaving? && u.flow == Put(s.flow, job) && u.dropped == s.dropped
  {
  }

  lemma SendRefuses(cap: nat, s: System, t: System, p: Pid, job: Job)
    requires HasCome(s, t, p, Sending(job), Some(p)) && !s.closed && |s.flow.queue| >= cap
    ensures var u := Next(cap, t, Go(p));
            At(u, p).Refused? && u.flow == s.flow && u.dropped == s.dropped
  {
  }

  lemma Leaves(cap: nat, s: System, p: Pid)
    requires At(s, p).Leaving?
    ensures var t := Next(cap, s, Go(p)); At(t, p).Free? && t.mu.None? && t.flow == s.flow && t.dropped == s.dropped
  {
  }

  lemma CountsItsDrop(cap: nat, s: System, p: Pid)
    requires At(s, p).Refused?
    ensures var t := Next(cap, Next(cap, s, Go(p)), Go(p));
            At(t, p).Free? && t.mu.None? && t.flow == s.flow && t.dropped == s.dropped + 1
  {
  }

  lemma SendEnds(cap: nat, s: System, t: System, p: Pid, job: Job)
    requires HasCome(s, t, p, Sending(job), Some(p)) && !s.closed
    ensures if |s.flow.queue| < cap then IsQueued(s, Alone(cap, t, p, 2), p, job)
            else IsDropped(s, Alone(cap, t, p, 3), p)
  {
    AloneTwo(cap, t, p);
    if |s.flow.queue| < cap {
      SendQueues(cap, s, t, p, job);
      Leaves(cap, Next(cap, t, Go(p)), p);
    } else {
      SendRefuses(cap, s, t, p, job);
      CountsItsDrop(cap, Next(cap, t, Go(p)), p);
    }
  }

  lemma FallsThrough(cap: nat, s: System, t: System, p: Pid, job: Job)
    requires HasCome(s, t, p, Falling(job), Some(p))
    ensures var u := Next(cap, t, Go(p));
            At(u, p).Leaving? && u.flow == Bypass(s.flow, job) && u.dropped == s.dropped
  {
  }

  lemma FallEnds(cap: nat, s: System, t: System, p: Pid, job: Job)
    requires HasCome(s, t, p, Falling(job), Some(p))
    ensures IsBypassed(s, Alone(cap, t, p, 2), p, job)
  {
    AloneTwo(cap, t, p);
    FallsThrough(cap, s, t, p, job);
    Leaves(cap, Next(cap, t, Go(p)), p);
  }

  lemma AloneAdds(cap: nat, s: System, p: Pid, m: nat, n: nat)
    ensures Alone(cap, s, p, m + n) == Alone(cap, Alone(cap, s, p, m), p, n)
    decreases m
  {
    if m > 0 {
      AloneAdds(cap, Next(cap, s, Go(p)), p, m - 1, n);
    }
  }

  /** Once the lock is free a publish returns by its own steps alone: queued if there is room,
      counted as dropped if the queue is full, handed over directly if there is no queue. */
  lemma PublishReturns(cap: nat, s: System, p: Pid, job: Job) returns (n: nat)
    requires Inv(cap, s) && At(s, p) == Publishing(job) && s.mu.None?
    ensures var t := Alone(cap, s, p, n);
            if !s.open then IsBypassed(s, t, p, job)
            else if |s.flow.queue| < cap then IsQueued(s, t, p, job)
            else IsDropped(s, t, p) && |s.flow.queue| == cap
  {
    var t := Alone(cap, s, p, 2);
    PublishArrives(cap, s, p, job);
    n := if s.open && |s.flow.queue| >= cap then 5 else 4;
    AloneAdds(cap, s, p, 2, n - 2);
    if s.open {
      SendEnds(cap, s, t, p, job);
    } else {
      FallEnds(cap, s, t, p, job);
    }
  }

  lemma StepKeeps(cap: nat, s: System, a: Step)
    requires Inv(cap, s)
    ensures Inv(cap, Next(cap, s, a))
  {
    StepKeepsControl(cap, s, a);
    StepKeepsOrder(cap, s, a);
    StepKeepsCount(cap, s, a);
  }

  /** p is inside Close, this far, with no job moved since s. */
  ghost predicate IsClosing(cap: nat, s: System, t: System, p: Pid, at: Proc) {
    Inv(cap, t) && At(t, p) == at && t.flow == s.flow
  }

  lemma CloseSteps(cap: nat, s: System, t: System, p: Pid, at: Proc)
    requires IsClosing(cap, s, t, p, at) && ((at.Closing? && t.mu.None?) || at.CloseHeld? || at.CloseDone?)
    ensures IsClosing(cap, s, Next(cap, t, Go(p)), p,
                      if at.Closing? then CloseHeld else if at.CloseHeld? then CloseDone else Waiting)
  {
    StepKeeps(cap, t, Go(p));
    assert ProcOk(t, p, t.procs[p]);
  }

  lemma CloseArrives(cap: nat, s: System, p: Pid)
    requires Inv(cap, s) && At(s, p).Closing? && s.mu.None?
    ensures IsClosing(cap, s, Alone(cap, s, p, 3), p, Waiting) && Alone(cap, s, p, 3).closed
  {
    var t := Next(cap, s, Go(p));
    var u := Next(cap, t, Go(p));
    CloseSteps(cap, s, s, p, Closing);
    CloseSteps(cap, s, t, p, CloseHeld);
    CloseSteps(cap, s, u, p, CloseDone);
    AloneTwo(cap, s, p);
    var v := Next(cap, u, Go(p));
    assert ProcOk(v, p, v.procs[p]);
  }

  lemma {:induction false} RoundsKeepProcs(s: System, n: nat)
    ensures Rounds(s, n).procs == s.procs
    decreases n
  {
    if n > 0 {
      RoundsKeepProcs(WorkStep(s), n - 1);
    }
  }

  /** Once the lock is free Close returns by its own steps and the worker's, and by then every job
      queued is with the client. */
  lemma CloseReturns(cap: nat, s: System, p: Pid) returns (n: nat)
    requires Inv(cap, s) && At(s, p).Closing? && s.mu.None?
    ensures var t := Next(cap, Rounds(Alone(cap, s, p, 3), n), Go(p));
            At(t, p).Closed? && ByWorker(t.flow.client) == t.flow.enqueued == s.flow.enqueued
  {
    CloseArrives(cap, s, p);
    var t := Alone(cap, s, p, 3);
    n := ClosedDrains(cap, t);
    RoundsKeepProcs(t, n);
  }

  // ------------------------------------------------------------ every call accounted for

  predicate IsInFlight(proc: Proc) { proc.Publishing? || proc.Looking? || proc.Sending? || proc.Falling? }

  function InFlight(procs: map<Pid, Proc>): set<Pid> { set p | p in procs && IsInFlight(procs[p]) }

  /** How many publish calls a run made. */
  function Asked(cap: nat, steps: seq<Step>): nat {
    if steps == [] then 0
    else
      var before, a := steps[..|steps| - 1], steps[|steps| - 1];
      Asked(cap, before) + if a.CallPublish? && At(Run(cap, INITIAL, before), a.p).Free? then 1 else 0
  }

  /** Jobs handed over past the queue. */
  function Bypassed(f: Flow): int { |f.client| - |ByWorker(f.client)| }

  ghost predicate Answered(s: System, asked: int) { asked == s.attempts + Bypassed(s.flow) + |InFlight(s.procs)| }

  function Flying(proc: Proc): nat { if IsInFlight(proc) then 1 else 0 }

  lemma FlightMoves(procs: map<Pid, Proc>, p: Pid, to: Proc)
    ensures |InFlight(procs[p := to])| - Flying(to) == |InFlight(procs)| - if p in procs then Flying(procs[p]) else 0
  {
    var before, after := InFlight(procs), InFlight(procs[p := to]);
    assert after - {p} == before - {p};
    SizeMoves(before, after, p);
  }

  lemma MoveAnswers(s: System, t: System, p: Pid, to: Proc, asked: int, more: int)
    requires Answered(s, asked) && t.procs == s.procs[p := to]
    requires t.attempts + Bypassed(t.flow) + Flying(to) == s.attempts + Bypassed(s.flow) + Flying(At(s, p)) + more
    ensures Answered(t, asked + more)
  {
    FlightMoves(s.procs, p, to);
  }

  lemma SendAnswers(cap: nat, s: System, p: Pid, asked: int)
    requires Answered(s, asked) && At(s, p).Sending?
    ensures Answered(PublishStep(cap, s, p), asked)
  {
    var t := PublishStep(cap, s, p);
    if !s.closed {
      MoveAnswers(s, t, p, if |s.flow.queue| < cap then Leaving else Refused, asked, 0);
    }
  }

  lemma FallAnswers(cap: nat, s: System, p: Pid, asked: int)
    requires Answered(s, asked) && At(s, p).Falling?
    ensures Answered(PublishStep(cap, s, p), asked)
  {
    ByWorkerAppends(s.flow.client, Handed(At(s, p).job, false));
    MoveAnswers(s, PublishStep(cap, s, p), p, Leaving, asked, 0);
  }

  lemma PublishAnswers(cap: nat, s: System, p: Pid, asked: int)
    requires Answered(s, asked)
    ensures Answered(PublishStep(cap, s, p), asked)
  {
    var t := PublishStep(cap, s, p);
    match At(s, p)
    case Sending(_) => SendAnswers(cap, s, p, asked);
    case Falling(_) => FallAnswers(cap, s, p, asked);
    case Publishing(job) => if s.mu.None? { MoveAnswers(s, t, p, Looking(job), asked, 0); }
    case Looking(job) => MoveAnswers(s, t, p, if s.open then Sending(job) else Falling(job), asked, 0);
    case Leaving => MoveAnswers(s, t, p, Free, asked, 0);
    case Refused => MoveAnswers(s, t, p, Dropping, asked, 0);
    case Dropping => MoveAnswers(s, t, p, Free, asked, 0);
    case _ =>
  }

  lemma StartAnswers(s: System, p: Pid, asked: int)
    requires Answered(s, asked)
    ensures Answered(StartStep(s, p), asked)
  {
    var t := StartStep(s, p);
    if At(t, p) != At(s, p) {
      MoveAnswers(s, t, p, At(t, p), asked, 0);
    }
  }

  lemma CloseAnswers(s: System, p: Pid, asked: int)
    requires Answered(s, asked)
    ensures Answered(CloseStep(s, p), asked)
  {
    var t := CloseStep(s, p);
    if At(t, p) != At(s, p) {
      MoveAnswers(s, t, p, At(t, p), asked, 0);
    }
  }

  lemma WorkAnswers(s: System, asked: int)
    requires Answered(s, asked)
    ensures Answered(WorkStep(s), asked)
  {
    if s.flow.worker.InHand? {
      ByWorkerAppends(s.flow.client, Handed(s.flow.worker.job, true));
    }
  }

  lemma StepAnswers(cap: nat, s: System, a: Step, asked: int)
    requires Answered(s, asked)
    ensures Answered(Next(cap, s, a), asked + if a.CallPublish? && At(s, a.p).Free? then 1 else 0)
  {
    match a
    case Go(p) =>
      PublishAnswers(cap, s, p, asked);
      StartAnswers(s, p, asked);
      CloseAnswers(s, p, asked);
    case Work => WorkAnswers(s, asked);
    case CallStart(p) => FlightMoves(s.procs, p, Starting);
    case CallPublish(p, job) => FlightMoves(s.procs, p, Publishing(job));
    case CallClose(p) => FlightMoves(s.procs, p, Closing);
  }

  /** Every publish call a run made is with the client, in hand, queued, counted as dropped or about
      to be, or still under way: none is lost and none is counted twice. */
  lemma {:induction false} EveryCallIsAnswered(cap: nat, steps: seq<Step>)
    ensures var s := Run(cap, INITIAL, steps);
            Asked(cap, steps) == |s.flow.client| + |Hand(s.flow.worker)| + |s.flow.queue| + s.dropped
                                 + |Undropped(s.procs)| + |InFlight(s.procs)|
  {
    RunAnswers(cap, steps);
    RunIsSafe(cap, steps);
  }

  lemma {:induction false} RunAnswers(cap: nat, steps: seq<Step>)
    ensures Answered(Run(cap, INITIAL, steps), Asked(cap, steps))
  {
    if steps != [] {
      var before, a := steps[..|steps| - 1], steps[|steps| - 1];
      RunAnswers(cap, before);
      StepAnswers(cap, Run(cap, INITIAL, before), a, Asked(cap, before));
    }
  }

  /** Something that arrived was not queued only if more arrived than the queue holds. */
  predicate RefusesLate(cap: nat, s: System) { s.attempts > |s.flow.enqueued| ==> s.attempts > cap }

  predicate ArrivesNot(s: System, t: System) { t.attempts == s.attempts && t.flow.enqueued == s.flow.enqueued }

  lemma PublishArrivesNot(cap: nat, s: System, p: Pid)
    requires !At(s, p).Sending?
    ensures ArrivesNot(s, PublishStep(cap, s, p))
  {
  }

  lemma StartAndCloseArriveNot(s: System, p: Pid)
    ensures ArrivesNot(s, StartStep(s, p)) && ArrivesNot(s, CloseStep(s, p))
  {
  }

  lemma OthersArriveNot(cap: nat, s: System, a: Step)
    requires !(a.Go? && At(s, a.p).Sending?)
    ensures ArrivesNot(s, Next(cap, s, a))
  {
    match a
    case Go(p) =>
      PublishArrivesNot(cap, s, p);
      StartAndCloseArriveNot(s, p);
    case _ =>
  }

  lemma ArrivesOnce(cap: nat, s: System, p: Pid)
    requires Inv(cap, s) && At(s, p).Sending?
    ensures Next(cap, s, Go(p)).attempts == s.attempts + 1
  {
    assert ProcOk(s, p, s.procs[p]);
  }

  lemma StepRefusesLate(cap: nat, s: System, a: Step)
    requires Inv(cap, s) && RefusesLate(cap, s)
    ensures RefusesLate(cap, Next(cap, s, a))
  {
    if a.Go? && At(s, a.p).Sending? {
      RefusedOnlyWhenFull(cap, s, a.p);
      assert |s.flow.enqueued| == |Gone(s.flow)| + |s.flow.queue|;
      ArrivesOnce(cap, s, a.p);
    } else {
      OthersArriveNot(cap, s, a);
    }
  }

  lemma {:induction false} RunRefusesLate(cap: nat, steps: seq<Step>)
    ensures RefusesLate(cap, Run(cap, INITIAL, steps))
  {
    if steps != [] {
      var before := steps[..|steps| - 1];
      RunRefusesLate(cap, before);
      RunKeeps(cap, before);
      StepRefusesLate(cap, Run(cap, INITIAL, before), steps[|steps| - 1]);
    }
  }

  /** As long as no more calls were made than the queue holds, nothing is dropped. */
  lemma NothingDroppedBelowCapacity(cap: nat, steps: seq<Step>)
    requires Asked(cap, steps) <= cap
    ensures var s := Run(cap, INITIAL, steps); s.dropped == 0 && Undropped(s.procs) == {}
  {
    RunAnswers(cap, steps);
    RunRefusesLate(cap, steps);
    RunKeeps(cap, steps);
    var s := Run(cap, INITIAL, steps);
    assert s.flow.enqueued == Gone(s.flow) + s.flow.queue;
    ByWorkerIsFewer(s.flow.client);
  }

  lemma {:induction false} ByWorkerIsFewer(client: seq<Handed>)
    ensures |ByWorker(client)| <= |client|
  {
    if client != [] {
      ByWorkerIsFewer(client[..|client| - 1]);
    }
  }
}
