/** internal/mqtt/publisher.go as the steps its mutex, channel and wait group leave: any number of
    producers and closers, one Start, one worker, interleaved at will. A call of Close begins only
    after Start has returned, which is what its documentation asks. */
module Publisher {
  import opened Common

  type Pid = nat

  type Job = nat

  datatype Proc =
    | Free
    | Publishing(job: Job)  // in publishJSON, before the lock
    | Looking(job: Job)     // lock held, p.in not yet read
    | Sending(job: Job)     // lock held, at the select
    | Falling(job: Job)     // lock held, p.in was nil: about to publish synchronously
    | Leaving               // lock held, nothing left to do but unlock
    | Refused               // lock held, the queue was full
    | Dropping              // unlocked, the drop not yet counted
    | Starting | StartHeld | StartSet | Launching
    | Closing | CloseHeld | CloseDone | Waiting | Closed

  datatype Worker = NotStarted | Ready | InHand(job: Job) | Exited

  datatype StartCall = NotCalled | Called(p: Pid) | Returned

  /** A job given to the client, by the worker or by the synchronous fallback. */
  datatype Handed = Handed(job: Job, queued: bool)

  /** Where the jobs are. */
  datatype Flow = Flow(
    queue: seq<Job>,
    worker: Worker,
    enqueued: seq<Job>,   // all jobs ever put on the channel
    client: seq<Handed>)  // all jobs ever handed to the client

  datatype System = System(
    mu: Option<Pid>,
    open: bool,      // p.in is set
    made: bool,      // the channel exists
    closed: bool,    // and is closed
    flow: Flow,
    wg: int,
    start: StartCall,
    panicked: bool,  // a send on a closed channel, or a second close
    attempts: nat,   // arrivals at the select
    dropped: nat,
    procs: map<Pid, Proc>)

  function Put(f: Flow, job: Job): Flow { f.(queue := f.queue + [job], enqueued := f.enqueued + [job]) }

  function Take(f: Flow): Flow
    requires f.queue != []
  {
    f.(worker := InHand(f.queue[0]), queue := f.queue[1..])
  }

  function Deliver(f: Flow): Flow
    requires f.worker.InHand?
  {
    f.(worker := Ready, client := f.client + [Handed(f.worker.job, true)])
  }

  function Bypass(f: Flow, job: Job): Flow { f.(client := f.client + [Handed(job, false)]) }

  datatype Step =
    | CallStart(p: Pid)
    | CallPublish(p: Pid, job: Job)
    | CallClose(p: Pid)
    | Go(p: Pid)  // process p takes its next step, if it can
    | Work        // the worker does

  const INITIAL := System(None, false, false, false, Flow([], NotStarted, [], []), 0, NotCalled, false, 0, 0, map[])

  function At(s: System, p: Pid): Proc { if p in s.procs then s.procs[p] else Free }

  function Goto(s: System, p: Pid, to: Proc): System { s.(procs := s.procs[p := to]) }

  /** The body of publishJSON. */
  function PublishStep(cap: nat, s: System, p: Pid): System {
    match At(s, p)
    case Publishing(job) => if s.mu.None? then Goto(s, p, Looking(job)).(mu := Some(p)) else s
    case Looking(job) => Goto(s, p, if s.open then Sending(job) else Falling(job))
    case Sending(job) =>
      if s.closed then s.(panicked := true)
      else if |s.flow.queue| < cap
      then Goto(s, p, Leaving).(flow := Put(s.flow, job), attempts := s.attempts + 1)
      else Goto(s, p, Refused).(attempts := s.attempts + 1)
    case Falling(job) => Goto(s, p, Leaving).(flow := Bypass(s.flow, job))
    case Leaving => Goto(s, p, Free).(mu := None)
    case Refused => Goto(s, p, Dropping).(mu := None)
    case Dropping => Goto(s, p, Free).(dropped := s.dropped + 1)
    case _ => s
  }

  /** The body of Start, called once. */
  function StartStep(s: System, p: Pid): System {
    match At(s, p)
    case Starting => if s.mu.None? then Goto(s, p, StartHeld).(mu := Some(p)) else s
    case StartHeld => Goto(s, p, StartSet).(made := true, open := true)
    case StartSet => Goto(s, p, Launching).(mu := None)
    case Launching => Goto(s, p, Free).(wg := s.wg + 1, flow := s.flow.(worker := Ready), start := Returned)
    case _ => s
  }

  /** The body of Close. */
  function CloseStep(s: System, p: Pid): System {
    match At(s, p)
    case Closing => if s.mu.None? then Goto(s, p, CloseHeld).(mu := Some(p)) else s
    case CloseHeld =>
      if !s.open then Goto(s, p, CloseDone)
      else if s.closed then s.(panicked := true)
      else Goto(s, p, CloseDone).(open := false, closed := true)
    case CloseDone => Goto(s, p, Waiting).(mu := None)
    case Waiting => if s.wg == 0 then Goto(s, p, Closed) else s
    case _ => s
  }

  /** One round of the worker's loop over the channel. */
  function WorkStep(s: System): System {
    match s.flow.worker
    case Ready =>
      if s.flow.queue != [] then s.(flow := Take(s.flow))
      else if s.closed then s.(flow := s.flow.(worker := Exited), wg := s.wg - 1)
      else s
    case InHand(_) => s.(flow := Deliver(s.flow))
    case _ => s
  }

  function Next(cap: nat, s: System, a: Step): System {
    match a
    case CallStart(p) => if At(s, p).Free? && s.start.NotCalled? then Goto(s, p, Starting).(start := Called(p)) else s
    case CallPublish(p, job) => if At(s, p).Free? then Goto(s, p, Publishing(job)) else s
    case CallClose(p) => if At(s, p).Free? && s.start.Returned? then Goto(s, p, Closing) else s
    case Go(p) =>
      var proc := At(s, p);
      if IsStart(proc) then StartStep(s, p) else if IsClose(proc) then CloseStep(s, p) else PublishStep(cap, s, p)
    case Work => WorkStep(s)
  }

  predicate IsStart(proc: Proc) { proc.Starting? || proc.StartHeld? || proc.StartSet? || proc.Launching? }

  predicate IsClose(proc: Proc) { proc.Closing? || proc.CloseHeld? || proc.CloseDone? || proc.Waiting? || proc.Closed? }

  predicate IsLocked(proc: Proc) {
    || proc.Looking? || proc.Sending? || proc.Falling? || proc.Leaving? || proc.Refused?
    || proc.StartHeld? || proc.StartSet? || proc.CloseHeld? || proc.CloseDone?
  }

  function Run(cap: nat, s: System, steps: seq<Step>): System {
    if steps == [] then s else Next(cap, Run(cap, s, steps[..|steps| - 1]), steps[|steps| - 1])
  }

  // ------------------------------------------------------------ the control invariant

  /** What one process's position says about the shared state. */
  ghost predicate ProcOk(s: System, p: Pid, proc: Proc) {
    && (IsLocked(proc) <==> s.mu == Some(p))
    && match proc
       case Sending(_) => s.open
       case Falling(_) => !s.open
       case Starting => s.start == Called(p) && !s.made
       case StartHeld => s.start == Called(p) && !s.made
       case StartSet => s.start == Called(p) && s.made
       case Launching => s.start == Called(p) && s.made
       case Closing => s.start.Returned?
       case CloseHeld => s.start.Returned?
       case CloseDone => s.closed
       case Waiting => s.closed
       case Closed => s.closed && s.flow.worker.Exited?
       case _ => true
  }

  ghost predicate ProcsOk(s: System, procs: map<Pid, Proc>) {
    && (s.mu.Some? ==> s.mu.value in procs)
    && forall p :: p in procs ==> ProcOk(s, p, procs[p])
  }

  ghost predicate SharedOk(s: System) {
    && (s.open <==> s.made && !s.closed) && (s.closed ==> s.made && s.start.Returned?)
    && (s.start.NotCalled? ==> !s.made) && (s.start.Returned? ==> s.made)
    && (s.flow.worker.NotStarted? <==> !s.start.Returned?)
    && (s.flow.worker.Exited? ==> s.closed && s.flow.queue == [])
    && s.wg == (if s.flow.worker.Ready? || s.flow.worker.InHand? then 1 else 0)
    && !s.panicked
  }

  // ------------------------------------------------------------ the accounting invariant

  function ByWorker(client: seq<Handed>): seq<Job> {
    if client == [] then []
    else ByWorker(client[..|client| - 1]) + if client[|client| - 1].queued then [client[|client| - 1].job] else []
  }

  function Hand(w: Worker): seq<Job> { if w.InHand? then [w.job] else [] }

  /** What the worker has taken off the channel so far. */
  function Gone(f: Flow): seq<Job> { ByWorker(f.client) + Hand(f.worker) }

  function Undropped(procs: map<Pid, Proc>): set<Pid> { set p | p in procs && IsUndropped(procs[p]) }

  /** Every job once on the channel is, in order, with the client, in hand or queued. */
  ghost predicate InOrder(cap: nat, f: Flow) { f.enqueued == Gone(f) + f.queue && |f.queue| <= cap }

  /** Every arrival at the select was put on the channel, counted as dropped, or is about to be. */
  ghost predicate Counted(s: System) { s.attempts == |s.flow.enqueued| + s.dropped + |Undropped(s.procs)| }

  // ------------------------------------------------------------ preservation

  /** What process p may change of the shared state without unsettling the others. */
  ghost predicate Respects(s: System, t: System, p: Pid) {
    && (t.mu == s.mu || (s.mu.None? && t.mu == Some(p)) || (s.mu == Some(p) && t.mu.None?))
    && (t.open == s.open || s.mu == Some(p)) && (t.made == s.made || s.start == Called(p))
    && (s.closed ==> t.closed) && (s.flow.worker.Exited? ==> t.flow.worker.Exited?)
    && (t.start == s.start || s.start.NotCalled? || (s.start == Called(p) && t.start.Returned?))
  }

  lemma OthersStay(s: System, t: System, p: Pid, proc: Proc)
    requires ProcsOk(s, s.procs) && Respects(s, t, p) && ProcOk(t, p, proc) && t.procs == s.procs[p := proc]
    ensures ProcsOk(t, t.procs)
  {
    forall q | q in t.procs ensures ProcOk(t, q, t.procs[q]) {
      assert q in s.procs ==> ProcOk(s, q, s.procs[q]);
    }
  }

  ghost predicate Controlled(s: System) { SharedOk(s) && ProcsOk(s, s.procs) }

  lemma PublishKeepsControl(cap: nat, s: System, p: Pid)
    requires Controlled(s) && p in s.procs
    ensures Controlled(PublishStep(cap, s, p))
  {
    var t := PublishStep(cap, s, p);
    assert ProcOk(s, p, s.procs[p]);
    if t != s {
      OthersStay(s, t, p, t.procs[p]);
    }
  }

  lemma StartKeepsControl(s: System, p: Pid)
    requires Controlled(s) && p in s.procs
    ensures Controlled(StartStep(s, p))
  {
    var t := StartStep(s, p);
    assert ProcOk(s, p, s.procs[p]);
    if t != s {
      OthersStay(s, t, p, t.procs[p]);
    }
  }

  lemma CloseKeepsControl(s: System, p: Pid)
    requires Controlled(s) && p in s.procs
    ensures Controlled(CloseStep(s, p))
  {
    var t := CloseStep(s, p);
    assert ProcOk(s, p, s.procs[p]);
    if t != s {
      OthersStay(s, t, p, t.procs[p]);
    }
  }

  lemma WorkKeepsControl(s: System)
    requires Controlled(s)
    ensures Controlled(WorkStep(s))
  {
    var t := WorkStep(s);
    forall q | q in t.procs ensures ProcOk(t, q, t.procs[q]) {
      assert ProcOk(s, q, s.procs[q]);
    }
  }

  lemma StepKeepsControl(cap: nat, s: System, a: Step)
    requires Controlled(s)
    ensures Controlled(Next(cap, s, a))
  {
    match a
    case Go(p) =>
      if p in s.procs {
        PublishKeepsControl(cap, s, p);
        StartKeepsControl(s, p);
        CloseKeepsControl(s, p);
      }
    case Work => WorkKeepsControl(s);
    case _ =>
      var t := Next(cap, s, a);
      assert a.p in s.procs ==> ProcOk(s, a.p, s.procs[a.p]);
      if t != s {
        OthersStay(s, t, a.p, t.procs[a.p]);
      }
  }

  lemma SizeMoves<T>(before: set<T>, after: set<T>, x: T)
    requires after - {x} == before - {x}
    ensures |after| - (if x in after then 1 else 0) == |before| - (if x in before then 1 else 0)
  {
    assert x in after ==> after == (after - {x}) + {x};
    assert x in before ==> before == (before - {x}) + {x};
    assert x !in after ==> after == after - {x};
    assert x !in before ==> before == before - {x};
  }

  predicate IsUndropped(proc: Proc) { proc.Refused? || proc.Dropping? }

  lemma CountMoves(procs: map<Pid, Proc>, p: Pid, to: Proc)
    ensures |Undropped(procs[p := to])| - (if IsUndropped(to) then 1 else 0)
            == |Undropped(procs)| - if p in procs && IsUndropped(procs[p]) then 1 else 0
  {
    var before, after := Undropped(procs), Undropped(procs[p := to]);
    assert after - {p} == before - {p};
    SizeMoves(before, after, p);
  }

  function Owing(proc: Proc): nat { if IsUndropped(proc) then 1 else 0 }

  /** A step of one process that pays for what it changes keeps the count. */
  lemma PaidKeepsCount(s: System, t: System, p: Pid, to: Proc)
    requires Counted(s) && t.procs == s.procs[p := to]
    requires t.attempts - |t.flow.enqueued| - t.dropped - Owing(to)
             == s.attempts - |s.flow.enqueued| - s.dropped - Owing(At(s, p))
    ensures Counted(t)
  {
    CountMoves(s.procs, p, to);
  }

  lemma PublishKeepsCount(cap: nat, s: System, p: Pid)
    requires Counted(s)
    ensures Counted(PublishStep(cap, s, p))
  {
    var t := PublishStep(cap, s, p);
    if At(t, p) != At(s, p) {
      PaidKeepsCount(s, t, p, At(t, p));
    }
  }

  lemma StartKeepsCount(s: System, p: Pid)
    requires Counted(s)
    ensures Counted(StartStep(s, p))
  {
    var t := StartStep(s, p);
    if At(t, p) != At(s, p) {
      PaidKeepsCount(s, t, p, At(t, p));
    }
  }

  lemma CloseKeepsCount(s: System, p: Pid)
    requires Counted(s)
    ensures Counted(CloseStep(s, p))
  {
    var t := CloseStep(s, p);
    if At(t, p) != At(s, p) {
      PaidKeepsCount(s, t, p, At(t, p));
    }
  }

  lemma StepKeepsCount(cap: nat, s: System, a: Step)
    requires Counted(s)
    ensures Counted(Next(cap, s, a))
  {
    match a
    case Go(p) =>
      PublishKeepsCount(cap, s, p);
      StartKeepsCount(s, p);
      CloseKeepsCount(s, p);
    case CallStart(p) => CountMoves(s.procs, p, Starting);
    case CallPublish(p, job) => CountMoves(s.procs, p, Publishing(job));
    case CallClose(p) => CountMoves(s.procs, p, Closing);
    case Work =>
  }

  lemma ByWorkerAppends(client: seq<Handed>, h: Handed)
    ensures ByWorker(client + [h]) == ByWorker(client) + if h.queued then [h.job] else []
  {
    assert (client + [h])[..|client|] == client;
  }

  lemma PutKeepsOrder(cap: nat, f: Flow, job: Job)
    requires InOrder(cap, f) && |f.queue| < cap
    ensures InOrder(cap, Put(f, job))
  {
    var gone := Gone(f);
    assert (gone + f.queue) + [job] == gone + (f.queue + [job]);
  }

  lemma TakeKeepsOrder(cap: nat, f: Flow)
    requires InOrder(cap, f) && f.queue != [] && !f.worker.InHand?
    ensures InOrder(cap, Take(f))
  {
    var handed, q := ByWorker(f.client), f.queue;
    assert q == [q[0]] + q[1..];
    assert handed + [] == handed;
    assert handed + ([q[0]] + q[1..]) == (handed + [q[0]]) + q[1..];
  }

  lemma DeliverKeepsOrder(cap: nat, f: Flow)
    requires InOrder(cap, f) && f.worker.InHand?
    ensures InOrder(cap, Deliver(f))
  {
    ByWorkerAppends(f.client, Handed(f.worker.job, true));
    assert Gone(Deliver(f)) == Gone(f);
  }

  lemma BypassKeepsOrder(cap: nat, f: Flow, job: Job)
    requires InOrder(cap, f)
    ensures InOrder(cap, Bypass(f, job)) && Gone(Bypass(f, job)) == Gone(f)
  {
    ByWorkerAppends(f.client, Handed(job, false));
    assert ByWorker(f.client) + [] == ByWorker(f.client);
  }

  lemma WorkKeepsOrder(cap: nat, s: System)
    requires InOrder(cap, s.flow)
    ensures InOrder(cap, WorkStep(s).flow)
  {
    if s.flow.worker.InHand? {
      DeliverKeepsOrder(cap, s.flow);
    } else if s.flow.worker.Ready? && s.flow.queue != [] {
      TakeKeepsOrder(cap, s.flow);
    }
  }

  lemma PublishKeepsOrder(cap: nat, s: System, p: Pid)
    requires InOrder(cap, s.flow)
    ensures InOrder(cap, PublishStep(cap, s, p).flow)
  {
    match At(s, p)
    case Sending(job) => if |s.flow.queue| < cap { PutKeepsOrder(cap, s.flow, job); }
    case Falling(job) => BypassKeepsOrder(cap, s.flow, job);
    case _ => assert PublishStep(cap, s, p).flow == s.flow;
  }

  lemma StepKeepsOrder(cap: nat, s: System, a: Step)
    requires Controlled(s) && InOrder(cap, s.flow)
    ensures InOrder(cap, Next(cap, s, a).flow)
  {
    match a
    case Work => WorkKeepsOrder(cap, s);
    case Go(p) =>
      PublishKeepsOrder(cap, s, p);
      if p in s.procs {
        assert ProcOk(s, p, s.procs[p]);
      }
    case _ =>
  }

  ghost predicate Inv(cap: nat, s: System) { Controlled(s) && InOrder(cap, s.flow) && Counted(s) }

  lemma {:induction false} RunKeeps(cap: nat, steps: seq<Step>)
    ensures Inv(cap, Run(cap, INITIAL, steps))
  {
    if steps != [] {
      var was := steps[..|steps| - 1];
      RunKeeps(cap, was);
      StepKeepsControl(cap, Run(cap, INITIAL, was), steps[|steps| - 1]);
      StepKeepsOrder(cap, Run(cap, INITIAL, was), steps[|steps| - 1]);
      StepKeepsCount(cap, Run(cap, INITIAL, was), steps[|steps| - 1]);
    }
  }

  // ------------------------------------------------------------ what every run guarantees

  /** Whoever has returned from Close finds every job that was ever queued with the client. */
  ghost predicate ClosersSeeAll(s: System) {
    forall p :: p in s.procs && s.procs[p].Closed? ==> ByWorker(s.flow.client) == s.flow.enqueued
  }

  lemma StateIsSafe(cap: nat, s: System)
    requires Inv(cap, s)
    ensures !s.panicked && |s.flow.queue| <= cap
    ensures ByWorker(s.flow.client) <= s.flow.enqueued && ClosersSeeAll(s)
    ensures s.attempts
            == |ByWorker(s.flow.client)| + |Hand(s.flow.worker)| + |s.flow.queue| + s.dropped + |Undropped(s.procs)|
  {
    assert s.flow.enqueued == ByWorker(s.flow.client) + (Hand(s.flow.worker) + s.flow.queue);
    forall p | p in s.procs && s.procs[p].Closed? ensures ByWorker(s.flow.client) == s.flow.enqueued {
      assert ProcOk(s, p, s.procs[p]);
    }
  }

  /** For every interleaving: no send on a closed channel and no second close, the queue within
      its capacity, every arrival at the select accounted for, queued jobs handed over in the order
      they were queued, and all of them by the time any Close returns. */
  lemma RunIsSafe(cap: nat, steps: seq<Step>)
    ensures var s := Run(cap, INITIAL, steps);
            && !s.panicked && |s.flow.queue| <= cap
            && ByWorker(s.flow.client) <= s.flow.enqueued && ClosersSeeAll(s)
            && s.attempts
               == |ByWorker(s.flow.client)| + |Hand(s.flow.worker)| + |s.flow.queue| + s.dropped + |Undropped(s.procs)|
  {
    RunKeeps(cap, steps);
    StateIsSafe(cap, Run(cap, INITIAL, steps));
  }

  function Rounds(s: System, n: nat): System
    decreases n
  {
    if n == 0 then s else Rounds(WorkStep(s), n - 1)
  }

  /** Close never waits for ever: once the channel is closed the worker needs nobody else to hand
      over what is left and let the waiters go. */
  lemma {:induction false} ClosedDrains(cap: nat, s: System) returns (n: nat)
    requires Inv(cap, s) && s.closed
    ensures var t := Rounds(s, n);
            t.wg == 0 && t.flow.worker.Exited? && ByWorker(t.flow.client) == t.flow.enqueued == s.flow.enqueued
    decreases |s.flow.queue|, if s.flow.worker.InHand? then 1 else 0
  {
    n := 0;
    if !s.flow.worker.Exited? {
      WorkKeepsControl(s);
      WorkKeepsOrder(cap, s);
      if s.flow.worker.InHand? || s.flow.queue != [] {
        var more := ClosedDrains(cap, WorkStep(s));
        n := more + 1;
      } else {
        n := 1;
        assert Rounds(WorkStep(s), 0) == WorkStep(s);
      }
    }
  }

  // ------------------------------------------------------------ the synchronous fallback

  /** A job is handed over past the queue only while p.in is nil, and then it overtakes exactly
      the jobs still in hand or queued. */
  lemma BypassOvertakesTheRest(cap: nat, s: System, p: Pid)
    requires Inv(cap, s) && At(s, p).Falling?
    ensures var t := Next(cap, s, Go(p));
            && !s.open && t.flow.client == s.flow.client + [Handed(At(s, p).job, false)]
            && Hand(t.flow.worker) + t.flow.queue == Hand(s.flow.worker) + s.flow.queue
            && t.flow.enqueued == ByWorker(s.flow.client) + (Hand(t.flow.worker) + t.flow.queue)
            && (ByWorker(s.flow.client) == s.flow.enqueued <==> Hand(s.flow.worker) + s.flow.queue == [])
  {
    assert ProcOk(s, p, s.procs[p]);
    var rest := Hand(s.flow.worker) + s.flow.queue;
    assert s.flow.enqueued == ByWorker(s.flow.client) + rest;
    assert |s.flow.enqueued| == |ByWorker(s.flow.client)| + |rest|;
  }

  lemma Do(cap: nat, steps: seq<Step>, s: System, a: Step) returns (more: seq<Step>, t: System)
    requires s == Run(cap, INITIAL, steps)
    ensures more == steps + [a] && t == Next(cap, s, a) && t == Run(cap, INITIAL, more)
  {
    more, t := steps + [a], Next(cap, s, a);
    assert more[..|more| - 1] == steps;
  }

  lemma Started(cap: nat) returns (steps: seq<Step>, s: System)
    ensures s == Run(cap, INITIAL, steps) && s.procs == map[0 := Free]
    ensures s == INITIAL.(open := true, made := true, flow := INITIAL.flow.(worker := Ready), wg := 1,
                          start := Returned, procs := map[0 := Free])
  {
    steps, s := [], INITIAL;
    steps, s := Do(cap, steps, s, CallStart(0));
    steps, s := Do(cap, steps, s, Go(0));
    steps, s := Do(cap, steps, s, Go(0));
    steps, s := Do(cap, steps, s, Go(0));
    steps, s := Do(cap, steps, s, Go(0));
  }

  lemma QueuesOne(cap: nat, before: seq<Step>, was: System) returns (steps: seq<Step>, s: System)
    requires cap > 0 && was == Run(cap, INITIAL, before)
    requires was == INITIAL.(open := true, made := true, flow := INITIAL.flow.(worker := Ready), wg := 1,
                             start := Returned, procs := map[0 := Free])
    ensures s == Run(cap, INITIAL, steps)
    ensures s == was.(flow := Put(was.flow, 1), attempts := 1)
  {
    steps, s := Do(cap, before, was, CallPublish(0, 1));
    steps, s := Do(cap, steps, s, Go(0));
    steps, s := Do(cap, steps, s, Go(0));
    steps, s := Do(cap, steps, s, Go(0));
    steps, s := Do(cap, steps, s, Go(0));
    assert s.procs == was.procs;
  }

  /** Process 1 is in Close, process 0 idle, and no job has moved. */
  ghost predicate InClose(s: System, was: Flow, at: Proc, mu: Option<Pid>, open: bool) {
    && At(s, 1) == at && At(s, 0).Free? && s.mu == mu && s.open == open && s.closed == !open
    && s.start.Returned? && s.flow == was
  }

  lemma CloseLocks(cap: nat, s: System, was: Flow)
    requires InClose(s, was, Closing, None, true)
    ensures InClose(Next(cap, s, Go(1)), was, CloseHeld, Some(1), true)
  {
  }

  lemma CloseCloses(cap: nat, s: System, was: Flow)
    requires InClose(s, was, CloseHeld, Some(1), true)
    ensures InClose(Next(cap, s, Go(1)), was, CloseDone, Some(1), false)
  {
  }

  lemma CloseUnlocks(cap: nat, s: System, was: Flow)
    requires InClose(s, was, CloseDone, Some(1), false)
    ensures InClose(Next(cap, s, Go(1)), was, Waiting, None, false)
  {
  }

  lemma LetsGo(cap: nat, before: seq<Step>, was: System) returns (steps: seq<Step>, s: System)
    requires was == Run(cap, INITIAL, before) && InClose(was, was.flow, Free, None, true)
    ensures s == Run(cap, INITIAL, steps) && InClose(s, was.flow, Waiting, None, false)
  {
    steps, s := Do(cap, before, was, CallClose(1));
    CloseLocks(cap, s, was.flow);
    steps, s := Do(cap, steps, s, Go(1));
    CloseCloses(cap, s, was.flow);
    steps, s := Do(cap, steps, s, Go(1));
    CloseUnlocks(cap, s, was.flow);
    steps, s := Do(cap, steps, s, Go(1));
  }

  /** Process 0 is in publishJSON with the queue unset, and no job has moved. */
  ghost predicate InPublish(s: System, was: System, at: Proc, mu: Option<Pid>) {
    At(s, 0) == at && s.mu == mu && !s.open && s.start == was.start && s.flow == was.flow
  }

  lemma PublishLocks(cap: nat, s: System, was: System)
    requires InPublish(s, was, Publishing(2), None)
    ensures InPublish(Next(cap, s, Go(0)), was, Looking(2), Some(0))
  {
  }

  lemma PublishLooks(cap: nat, s: System, was: System)
    requires InPublish(s, was, Looking(2), Some(0))
    ensures InPublish(Next(cap, s, Go(0)), was, Falling(2), Some(0))
  {
  }

  lemma PassesBy(cap: nat, before: seq<Step>, was: System) returns (steps: seq<Step>, s: System)
    requires was == Run(cap, INITIAL, before) && InPublish(was, was, Free, None)
    ensures s == Run(cap, INITIAL, steps) && s.start == was.start && s.flow == Bypass(was.flow, 2)
  {
    steps, s := Do(cap, before, was, CallPublish(0, 2));
    PublishLocks(cap, s, was);
    steps, s := Do(cap, steps, s, Go(0));
    PublishLooks(cap, s, was);
    steps, s := Do(cap, steps, s, Go(0));
    steps, s := Do(cap, steps, s, Go(0));
  }

  /** The fallback is reached in production after all: a publish that comes after Close has let
      go of the lock goes straight to the client, ahead of a job queued earlier. */
  lemma FallbackAfterClose(cap: nat) returns (steps: seq<Step>)
    requires cap > 0
    ensures var s := Run(cap, INITIAL, steps);
            s.flow.enqueued == [1] && s.flow.client == [Handed(2, false), Handed(1, true)] && s.start.Returned?
  {
    var s;
    steps, s := Started(cap);
    steps, s := QueuesOne(cap, steps, s);
    steps, s := LetsGo(cap, steps, s);
    steps, s := PassesBy(cap, steps, s);
    steps, s := Do(cap, steps, s, Work);
    steps, s := Do(cap, steps, s, Work);
  }
}
