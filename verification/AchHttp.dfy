/** The asynchronous HTTP queue of the desktop app (app/src/ach_http.cpp).
  *
  * Requesters on several threads, one worker, one pumping thread and a shutdown share two
  * queues behind a mutex.  `Shared` is what the mutex protects and each function on it is one
  * critical section; `Queue` below is the object whose methods are those sections.  `Step`
  * interleaves the sections with everything that happens outside the lock: the notifications
  * still owed, the parked worker, the transport call and the pump's local batch.
  */
module AchHttp {
  import opened Common

  datatype Job = Job(request: string, callback: nat)

  datatype Result = Result(job: Job, response: string)

  /** The fields guarded by the mutex.  `spawned` counts threads ever started. */
  datatype Shared = Shared(jobs: seq<Job>, results: seq<Result>, stop: bool, started: bool,
                           thread: Option<nat>, spawned: nat)

  // ---------------------------------------------------------------- critical sections

  function EnsureWorker(s: Shared): Shared {
    if s.started then s else s.(started := true, thread := Some(s.spawned), spawned := s.spawned + 1)
  }

  function RequestSection(s: Shared, job: Job): Shared {
    if s.stop then s else var t := EnsureWorker(s); t.(jobs := t.jobs + [job])
  }

  datatype WorkerDecision = Leave | Wait | Take(job: Job)

  function DecisionOf(s: Shared): WorkerDecision {
    if s.stop then Leave else if s.jobs == [] then Wait else Take(s.jobs[0])
  }

  function TakeSection(s: Shared): Shared {
    if DecisionOf(s).Take? then s.(jobs := s.jobs[1..]) else s
  }

  function StoreSection(s: Shared, r: Result): Shared {
    if s.stop then s else s.(results := s.results + [r])
  }

  function SwapSection(s: Shared): Shared {
    s.(results := [])
  }

  function ShutdownSection(s: Shared): Shared {
    s.(stop := true, jobs := [], results := [], thread := None, started := false)
  }

  /** The object itself: each method is the body of one locked region. */
  class Queue {
    var jobs: seq<Job>
    var results: seq<Result>
    var stop: bool
    var started: bool
    var thread: Option<nat>
    var spawned: nat

    ghost function View(): Shared
      reads this
    {
      Shared(jobs, results, stop, started, thread, spawned)
    }

    constructor ()
      ensures View() == Shared([], [], false, false, None, 0)
    {
      jobs, results, stop, started, thread, spawned := [], [], false, false, None, 0;
    }

    method Request(job: Job) returns (owesNotify: bool)
      modifies this
      ensures View() == RequestSection(old(View()), job)
      ensures owesNotify == !old(stop)
    {
      if stop {
        return false;
      }
      if !started {
        started := true;
        thread := Some(spawned);
        spawned := spawned + 1;
      }
      jobs := jobs + [job];
      return true;
    }

    method WorkerTake() returns (d: WorkerDecision)
      modifies this
      ensures d == DecisionOf(old(View())) && View() == TakeSection(old(View()))
    {
      if stop {
        return Leave;
      }
      if jobs == [] {
        return Wait;
      }
      d := Take(jobs[0]);
      jobs := jobs[1..];
    }

    method WorkerStore(r: Result) returns (leave: bool)
      modifies this
      ensures leave == old(stop) && View() == StoreSection(old(View()), r)
    {
      if stop {
        return true;
      }
      results := results + [r];
      return false;
    }

    method PumpSwap() returns (ready: seq<Result>)
      modifies this
      ensures ready == old(results) && View() == SwapSection(old(View()))
    {
      ready := [];
      if results != [] {
        ready, results := results, [];
      }
    }

    method Shutdown() returns (joined: Option<nat>)
      modifies this
      ensures joined == old(thread) && View() == ShutdownSection(old(View()))
    {
      stop := true;
      jobs, results := [], [];
      joined := thread;
      thread := None;
      started := false;
    }
  }

  // ---------------------------------------------------------------- interleavings

  datatype Worker = Ready | Parked | Performing(job: Job) | Finished(result: Result) | Exited

  datatype Closing = Open | OwesNotifyAll(handle: Option<nat>) | Joining(handle: Option<nat>)

  /** `accepted`, `answered` and `delivered` are histories; everything else is live. */
  datatype State = State(
    shared: Shared,
    workers: seq<Worker>,
    owed: nat,
    batch: seq<Result>,
    closing: Closing,
    accepted: seq<Job>,
    answered: seq<Result>,
    delivered: seq<Result>)

  datatype Event =
    | Request(job: Job, response: string)  // response: used only by a build without a transport
    | NotifyOne(wake: nat)
    | Spurious(i: nat)
    | WorkerCheck(i: nat)
    | WorkerRespond(i: nat, resp: string)
    | WorkerStore(i: nat)
    | PumpSwap
    | PumpCall
    | ShutdownLock
    | ShutdownNotify
    | ShutdownJoin

  function Init(): State {
    State(Shared([], [], false, false, None, 0), [], 0, [], Open, [], [], [])
  }

  function WakeAll(ws: seq<Worker>): (r: seq<Worker>)
    ensures |r| == |ws|
    ensures forall i :: 0 <= i < |ws| ==> r[i] == if ws[i].Parked? then Ready else ws[i]
  {
    seq(|ws|, i requires 0 <= i < |ws| => if ws[i].Parked? then Ready else ws[i])
  }

  predicate AnyParked(ws: seq<Worker>) {
    exists i :: 0 <= i < |ws| && ws[i].Parked?
  }

  /** One step; None when the event is not enabled.  `transport` is available(). */
  function Step(transport: bool, s: State, e: Event): Option<State> {
    var q := s.shared;
    match e
    case Request(job, response) =>
      if !transport then
        // Answered from the caller, queued without looking at the stop flag.
        var r := Result(job, response);
        Some(s.(shared := q.(results := q.results + [r]),
                accepted := s.accepted + [job], answered := s.answered + [r]))
      else if q.stop then Some(s)
      else
        var q' := RequestSection(q, job);
        Some(s.(shared := q', owed := s.owed + 1, accepted := s.accepted + [job],
                workers := if q'.spawned > q.spawned then s.workers + [Ready] else s.workers))
    case NotifyOne(w) =>
      if s.owed == 0 then None
      else if !AnyParked(s.workers) then Some(s.(owed := s.owed - 1))
      else if w < |s.workers| && s.workers[w].Parked? then
        Some(s.(owed := s.owed - 1, workers := s.workers[w := Ready]))
      else None
    case Spurious(i) =>
      if i < |s.workers| && s.workers[i].Parked? then Some(s.(workers := s.workers[i := Ready])) else None
    case WorkerCheck(i) =>
      if !(i < |s.workers| && s.workers[i].Ready?) then None
      else
        var w := match DecisionOf(q) case Leave => Exited case Wait => Parked case Take(j) => Performing(j);
        Some(s.(shared := TakeSection(q), workers := s.workers[i := w]))
    case WorkerRespond(i, resp) =>
      if !(i < |s.workers| && s.workers[i].Performing?) then None
      else Some(s.(workers := s.workers[i := Finished(Result(s.workers[i].job, resp))]))
    case WorkerStore(i) =>
      if !(i < |s.workers| && s.workers[i].Finished?) then None
      else if q.stop then Some(s.(workers := s.workers[i := Exited]))
      else Some(s.(shared := StoreSection(q, s.workers[i].result), workers := s.workers[i := Ready],
                   answered := s.answered + [s.workers[i].result]))
    case PumpSwap =>
      if s.batch != [] then None else Some(s.(shared := SwapSection(q), batch := q.results))
    case PumpCall =>
      if s.batch == [] then None
      else Some(s.(batch := s.batch[1..], delivered := s.delivered + [s.batch[0]]))
    case ShutdownLock =>
      if !s.closing.Open? then None
      else Some(s.(shared := ShutdownSection(q), closing := OwesNotifyAll(q.thread)))
    case ShutdownNotify =>
      if !s.closing.OwesNotifyAll? then None
      else Some(s.(workers := WakeAll(s.workers), closing := Joining(s.closing.handle)))
    case ShutdownJoin =>
      if s.closing.Joining? && (s.closing.handle.Some? ==>
           s.closing.handle.value < |s.workers| && s.workers[s.closing.handle.value].Exited?)
      then Some(s.(closing := Open)) else None
  }

  /** The state after a whole run from start-up, None if some event was not enabled. */
  function Exec(transport: bool, run: seq<Event>): Option<State> {
    if run == [] then Some(Init())
    else
      var p := Exec(transport, run[..|run|-1]);
      if p.None? then None else Step(transport, p.value, run[|run|-1])
  }

  // ---------------------------------------------------------------- what every run keeps

  function JobsOf(rs: seq<Result>): (js: seq<Job>)
    ensures |js| == |rs|
    ensures forall i :: 0 <= i < |rs| ==> js[i] == rs[i].job
  {
    seq(|rs|, i requires 0 <= i < |rs| => rs[i].job)
  }

  /** The job the worker is holding outside both queues. */
  function InFlight(ws: seq<Worker>): seq<Job> {
    if |ws| == 0 then []
    else match ws[0]
      case Performing(j) => [j]
      case Finished(r) => [r.job]
      case _ => []
  }

  /** Every accepted request, in lock order, is in exactly one place. */
  ghost predicate Conserved(s: State) {
    && s.delivered + s.batch + s.shared.results == s.answered
    && JobsOf(s.answered) + InFlight(s.workers) + s.shared.jobs == s.accepted
  }

  /** After shutdown: what was or will be called back is a prefix of what was accepted. */
  ghost predicate Closed(s: State) {
    && s.shared.jobs == [] && s.shared.results == []
    && s.delivered + s.batch <= s.answered
    && JobsOf(s.answered) <= s.accepted
  }

  ghost predicate OneWorker(s: State) {
    && |s.workers| == s.shared.spawned <= 1
    && (s.shared.started ==> s.shared.thread == Some(0))
    && (!s.shared.stop ==> (s.shared.started <==> |s.workers| == 1))
    && (!s.shared.stop && |s.workers| == 1 ==> !s.workers[0].Exited?)
    && (s.shared.stop ==> s.shared.thread.None? && !s.shared.started)
    && (!s.shared.started ==> s.shared.thread.None?)
    && (!s.shared.stop && s.workers == [] ==> s.shared.jobs == [])
    && (!s.closing.Open? && s.closing.handle.Some? ==> s.closing.handle.value < |s.workers|)
  }

  /** No lost wake-up: a parked worker with a reason to run is still owed a notification. */
  ghost predicate NoLostWakeup(s: State) {
    && (AnyParked(s.workers) && s.shared.jobs != [] ==> s.owed > 0)
    && (AnyParked(s.workers) && s.shared.stop ==> s.closing.OwesNotifyAll?)
    && (!s.closing.Open? ==> s.shared.stop)
  }

  ghost predicate Inv(s: State) {
    && OneWorker(s) && NoLostWakeup(s)
    && if s.shared.stop then Closed(s) else Conserved(s)
  }

  lemma StepKeepsWorker(s: State, e: Event)
    requires Inv(s) && Step(true, s, e).Some?
    ensures OneWorker(Step(true, s, e).value) && NoLostWakeup(Step(true, s, e).value)
  {
    assert |s.workers| == 1 ==> (AnyParked(s.workers) <==> s.workers[0].Parked?);
    var t := Step(true, s, e).value;
    assert |t.workers| == 1 ==> (AnyParked(t.workers) <==> t.workers[0].Parked?);
  }

  lemma JobsOfPlus(a: seq<Result>, b: seq<Result>)
    ensures JobsOf(a + b) == JobsOf(a) + JobsOf(b)
  {
  }

  lemma WorkerKeepsOrder(s: State, e: Event)
    requires OneWorker(s) && !s.shared.stop && Conserved(s) && Step(true, s, e).Some?
    requires e.WorkerCheck? || e.WorkerRespond? || e.WorkerStore?
    ensures Conserved(Step(true, s, e).value)
  {
    var t := Step(true, s, e).value;
    if e.WorkerCheck? && s.shared.jobs != [] {
      assert s.shared.jobs == [s.shared.jobs[0]] + t.shared.jobs;
      assert s.accepted == JobsOf(t.answered) + ([s.shared.jobs[0]] + t.shared.jobs);
    } else if e.WorkerStore? {
      JobsOfPlus(s.answered, [s.workers[0].result]);
      assert t.delivered + t.batch + t.shared.results
          == (s.delivered + s.batch + s.shared.results) + [s.workers[0].result];
    }
  }

  lemma CallersKeepOrder(s: State, e: Event)
    requires OneWorker(s) && !s.shared.stop && Conserved(s) && Step(true, s, e).Some?
    requires e.Request? || e.PumpSwap? || e.PumpCall?
    ensures Conserved(Step(true, s, e).value)
  {
    var t := Step(true, s, e).value;
    match e
    case Request(job, _) =>
      assert t.accepted == (JobsOf(s.answered) + InFlight(s.workers)) + (s.shared.jobs + [job]);
    case PumpSwap =>
      assert t.delivered + t.batch + t.shared.results == s.delivered + s.batch + s.shared.results;
    case PumpCall =>
      assert s.batch == [s.batch[0]] + t.batch;
      assert t.delivered + t.batch == s.delivered + s.batch;
  }

  lemma InFront<T>(a: seq<T>, b: seq<T>, c: seq<T>, whole: seq<T>)
    requires a + b + c == whole
    ensures a <= whole && a + b <= whole
  {
    assert whole == a + (b + c);
  }

  lemma ShutdownKeepsPrefix(s: State)
    requires !s.shared.stop && Conserved(s)
    ensures s.delivered + s.batch <= s.answered && JobsOf(s.answered) <= s.accepted
  {
    InFront(s.delivered, s.batch, s.shared.results, s.answered);
    InFront(JobsOf(s.answered), InFlight(s.workers), s.shared.jobs, s.accepted);
  }

  lemma StepConserves(s: State, e: Event)
    requires Inv(s) && Step(true, s, e).Some?
    ensures var t := Step(true, s, e).value; if t.shared.stop then Closed(t) else Conserved(t)
  {
    var t := Step(true, s, e).value;
    if s.shared.stop {
      if e.PumpCall? {
        assert t.delivered + t.batch == s.delivered + s.batch;
      } else if e.PumpSwap? {
        assert t.batch == [];
      }
    } else if e.WorkerCheck? || e.WorkerRespond? || e.WorkerStore? {
      WorkerKeepsOrder(s, e);
    } else if e.Request? || e.PumpSwap? || e.PumpCall? {
      CallersKeepOrder(s, e);
    } else if e.ShutdownLock? {
      ShutdownKeepsPrefix(s);
    } else {
      assert InFlight(t.workers) == InFlight(s.workers);
    }
  }

  lemma StepKeepsInv(s: State, e: Event)
    requires Inv(s) && Step(true, s, e).Some?
    ensures Inv(Step(true, s, e).value)
  {
    StepKeepsWorker(s, e);
    StepConserves(s, e);
  }

  /** The invariant holds in every state reachable in a build with a transport. */
  lemma {:induction false} EveryRunKeepsInv(run: seq<Event>)
    requires Exec(true, run).Some?
    ensures Inv(Exec(true, run).value)
    decreases |run|
  {
    if run != [] {
      var p := Exec(true, run[..|run|-1]).value;
      EveryRunKeepsInv(run[..|run|-1]);
      StepKeepsInv(p, run[|run|-1]);
    }
  }

  lemma JobsOfPrefix(a: seq<Result>, b: seq<Result>)
    requires a <= b
    ensures JobsOf(a) <= JobsOf(b)
  {
    JobsOfPlus(a, b[|a|..]);
    assert b == a + b[|a|..];
  }

  lemma ConservedInOrder(s: State)
    requires Conserved(s)
    ensures JobsOf(s.delivered) + JobsOf(s.batch) + JobsOf(s.shared.results)
              + InFlight(s.workers) + s.shared.jobs == s.accepted
    ensures s.delivered <= s.answered && JobsOf(s.answered) <= s.accepted
  {
    JobsOfPlus(s.delivered, s.batch);
    JobsOfPlus(s.delivered + s.batch, s.shared.results);
    InFront(s.delivered, s.batch, s.shared.results, s.answered);
    InFront(JobsOf(s.answered), InFlight(s.workers), s.shared.jobs, s.accepted);
  }

  lemma PrefixOfPrefix<T>(a: seq<T>, b: seq<T>, c: seq<T>)
    requires a <= b && b <= c
    ensures a <= c
  {
  }

  /** FIFO delivery, each request at most once: at every moment of every run, before or after
    * shutdown, the callbacks made so far are those of the first accepted requests, in lock
    * order, each with the response its own transport call produced. */
  lemma DeliveredInOrder(run: seq<Event>)
    requires Exec(true, run).Some?
    ensures var s := Exec(true, run).value;
      && JobsOf(s.delivered) <= s.accepted
      && s.delivered <= s.answered
      && (!s.shared.stop ==>
            JobsOf(s.delivered) + JobsOf(s.batch) + JobsOf(s.shared.results)
              + InFlight(s.workers) + s.shared.jobs == s.accepted)
  {
    EveryRunKeepsInv(run);
    var s := Exec(true, run).value;
    if s.shared.stop {
      PrefixOfPrefix(s.delivered, s.delivered + s.batch, s.answered);
    } else {
      ConservedInOrder(s);
    }
    JobsOfPrefix(s.delivered, s.answered);
    PrefixOfPrefix(JobsOf(s.delivered), JobsOf(s.answered), s.accepted);
  }

  /** At most one worker thread is ever started, and none is left parked with work to do or a
    * stop to see unless some thread past its unlock still owes the notification. */
  lemma OneWorkerNeverStranded(run: seq<Event>)
    requires Exec(true, run).Some?
    ensures var s := Exec(true, run).value;
      && s.shared.spawned == |s.workers| <= 1
      && (AnyParked(s.workers) && s.shared.jobs != [] ==> Notified(run) < |Requested(run)|)
      && (AnyParked(s.workers) && s.shared.stop ==> s.closing.OwesNotifyAll?)
  {
    EveryRunKeepsInv(run);
    EveryRunAccounts(run);
  }

  // ---------------------------------------------------------------- what the events say

  predicate ShutDown(run: seq<Event>) {
    run != [] && (run[|run|-1].ShutdownLock? || ShutDown(run[..|run|-1]))
  }

  /** The requests made before shutdown took the lock. */
  function Requested(run: seq<Event>): seq<Job> {
    if run == [] then []
    else
      var past, e := run[..|run|-1], run[|run|-1];
      Requested(past) + if e.Request? && !ShutDown(past) then [e.job] else []
  }

  /** What the transport answered, call by call. */
  function Replies(run: seq<Event>): seq<string> {
    if run == [] then []
    else Replies(run[..|run|-1]) + if run[|run|-1].WorkerRespond? then [run[|run|-1].resp] else []
  }

  /** How many notifications went out. */
  function Notified(run: seq<Event>): nat {
    if run == [] then 0 else Notified(run[..|run|-1]) + if run[|run|-1].NotifyOne? then 1 else 0
  }

  function ResponsesOf(rs: seq<Result>): (ts: seq<string>)
    ensures |ts| == |rs|
    ensures forall i :: 0 <= i < |rs| ==> ts[i] == rs[i].response
  {
    seq(|rs|, i requires 0 <= i < |rs| => rs[i].response)
  }

  function ReplyInFlight(ws: seq<Worker>): seq<string> {
    if |ws| > 0 && ws[0].Finished? then [ws[0].result.response] else []
  }

  ghost predicate Accounted(s: State, run: seq<Event>) {
    && s.accepted == Requested(run) && (s.shared.stop <==> ShutDown(run))
    && s.owed + Notified(run) == |Requested(run)|
    && if s.shared.stop then ResponsesOf(s.answered) <= Replies(run)
       else ResponsesOf(s.answered) + ReplyInFlight(s.workers) == Replies(run)
  }

  /** Replies given and not lost: those of the answered jobs, and the one in the worker's hands. */
  function Given(s: State): seq<string> { ResponsesOf(s.answered) + ReplyInFlight(s.workers) }

  lemma StepReplies(s: State, e: Event)
    requires Inv(s) && !s.shared.stop && Step(true, s, e).Some? && !e.ShutdownLock?
    ensures Given(Step(true, s, e).value) == Given(s) + if e.WorkerRespond? then [e.resp] else []
  {
    if e.WorkerStore? {
      assert ResponsesOf(Step(true, s, e).value.answered)
          == ResponsesOf(s.answered) + [s.workers[0].result.response];
    }
  }

  lemma StepRequests(s: State, e: Event)
    requires Step(true, s, e).Some?
    ensures var t := Step(true, s, e).value;
      && t.accepted == s.accepted + (if e.Request? && !s.shared.stop then [e.job] else [])
      && (t.shared.stop <==> s.shared.stop || e.ShutdownLock?)
      && t.owed == s.owed + |t.accepted| - |s.accepted| - (if e.NotifyOne? then 1 else 0)
      && (s.shared.stop || e.ShutdownLock? ==> t.answered == s.answered)
  {
  }

  lemma StepAccounts(s: State, run: seq<Event>, e: Event)
    requires Inv(s) && Accounted(s, run) && Step(true, s, e).Some?
    ensures Accounted(Step(true, s, e).value, run + [e])
  {
    assert (run + [e])[..|run|] == run;
    StepRequests(s, e);
    if !s.shared.stop && !e.ShutdownLock? {
      StepReplies(s, e);
    }
  }

  lemma {:induction false} EveryRunAccounts(run: seq<Event>)
    requires Exec(true, run).Some?
    ensures Accounted(Exec(true, run).value, run)
  {
    if run != [] {
      var past := run[..|run|-1];
      EveryRunKeepsInv(past);
      EveryRunAccounts(past);
      StepAccounts(Exec(true, past).value, past, run[|run|-1]);
      assert past + [run[|run|-1]] == run;
    }
  }

  /** What a callback gets: the i-th one of a run is that of the i-th request made before shutdown,
    * with what the transport answered to its i-th call. */
  lemma CallbacksAreAnswers(run: seq<Event>, i: nat)
    requires Exec(true, run).Some? && i < |Exec(true, run).value.delivered|
    ensures i < |Requested(run)| && i < |Replies(run)|
    ensures Exec(true, run).value.delivered[i] == Result(Requested(run)[i], Replies(run)[i])
  {
    var s := Exec(true, run).value;
    DeliveredInOrder(run);
    EveryRunAccounts(run);
    assert ResponsesOf(s.answered) <= Replies(run);
    assert s.delivered[i] == s.answered[i] && JobsOf(s.delivered)[i] == s.delivered[i].job == s.accepted[i];
    assert ResponsesOf(s.answered)[i] == s.answered[i].response == Replies(run)[i];
  }

  /** Events of the worker, the pump and a notification still owed: nobody asks for more. */
  predicate Internal(e: Event) {
    e.NotifyOne? || e.WorkerCheck? || e.WorkerRespond? || e.WorkerStore? || e.PumpSwap? || e.PumpCall?
  }

  /** How much is left to do. */
  function WorkLeft(s: State): nat {
    8 * |s.shared.jobs| + 2 * |s.shared.results| + |s.batch|
    + if |s.workers| == 0 then 0
      else match s.workers[0]
        case Parked => 1
        case Performing(_) => 5
        case Finished(_) => 4
        case _ => 0
  }

  /** What to do next in a queue that is not shut down. */
  function NextMove(s: State): Option<Event> {
    if s.batch != [] then Some(PumpCall)
    else if s.shared.results != [] then Some(PumpSwap)
    else if |s.workers| == 0 then None
    else match s.workers[0]
      case Performing(_) => Some(WorkerRespond(0, ""))
      case Finished(_) => Some(WorkerStore(0))
      case Ready => if s.shared.jobs != [] then Some(WorkerCheck(0)) else None
      case Parked => if s.shared.jobs != [] then Some(NotifyOne(0)) else None
      case Exited => None
  }

  lemma MoveHelps(s: State)
    requires Inv(s) && !s.shared.stop
    ensures NextMove(s).Some? ==>
      var e := NextMove(s).value; var t := Step(true, s, e);
      && Internal(e) && t.Some? && t.value.accepted == s.accepted && !t.value.shared.stop
      && WorkLeft(t.value) < WorkLeft(s)
    ensures NextMove(s).None? ==> JobsOf(s.delivered) == s.accepted
  {
    assert |s.workers| == 1 ==> (AnyParked(s.workers) <==> s.workers[0].Parked?);
    if NextMove(s).None? {
      ConservedInOrder(s);
    }
  }

  lemma NextRun(run: seq<Event>, e: Event)
    requires Exec(true, run).Some?
    ensures Exec(true, run + [e]) == Step(true, Exec(true, run).value, e)
  {
    assert (run + [e])[..|run|] == run;
  }

  /** One more move, if one is left. */
  lemma MoveOn(run: seq<Event>, e: Event)
    requires Exec(true, run).Some? && !Exec(true, run).value.shared.stop
    requires NextMove(Exec(true, run).value) == Some(e)
    ensures Exec(true, run + [e]).Some? && Internal(e)
    ensures var s, t := Exec(true, run).value, Exec(true, run + [e]).value;
      t.accepted == s.accepted && !t.shared.stop && WorkLeft(t) < WorkLeft(s)
  {
    EveryRunKeepsInv(run);
    MoveHelps(Exec(true, run).value);
    NextRun(run, e);
  }

  lemma {:induction false} Drain(run: seq<Event>) returns (all: seq<Event>)
    requires Exec(true, run).Some? && !Exec(true, run).value.shared.stop
    ensures run <= all && Exec(true, all).Some? && forall i :: |run| <= i < |all| ==> Internal(all[i])
    ensures JobsOf(Exec(true, all).value.delivered) == Exec(true, run).value.accepted
    decreases WorkLeft(Exec(true, run).value)
  {
    var move := NextMove(Exec(true, run).value);
    if move.Some? {
      MoveOn(run, move.value);
      all := Drain(run + [move.value]);
    } else {
      EveryRunKeepsInv(run);
      MoveHelps(Exec(true, run).value);
      all := run;
    }
  }

  /** No request is stuck: every run that did not shut down can be continued by the worker, the pump
    * and the notifications still owed, until each request made so far had its callback. */
  lemma EveryRequestCanFinish(run: seq<Event>) returns (all: seq<Event>)
    requires Exec(true, run).Some? && !ShutDown(run)
    ensures run <= all && Exec(true, all).Some? && forall i :: |run| <= i < |all| ==> Internal(all[i])
    ensures JobsOf(Exec(true, all).value.delivered) == Requested(run)
  {
    EveryRunAccounts(run);
    all := Drain(run);
  }

  // ---------------------------------------------------------------- shutdown

  function Rank(w: Worker): nat {
    match w
    case Exited => 0
    case Ready => 1
    case Finished(_) => 1
    case Parked => 2
    case Performing(_) => 2
  }

  /** Once stopped, nothing is ever queued again, no thread is started, and no event moves the
    * worker anywhere but towards its exit. */
  lemma StoppedOnlyWindsDown(s: State, e: Event)
    requires Inv(s) && s.shared.stop && Step(true, s, e).Some?
    ensures var t := Step(true, s, e).value;
      && t.shared.stop && t.shared.jobs == [] && t.shared.results == []
      && t.accepted == s.accepted && t.answered == s.answered && |t.workers| == |s.workers|
      && t.delivered + t.batch == s.delivered + s.batch
      && (forall i :: 0 <= i < |s.workers| ==> Rank(t.workers[i]) <= Rank(s.workers[i]))
      && (e.WorkerCheck? || e.WorkerRespond? || e.WorkerStore? ==> Rank(t.workers[e.i]) < Rank(s.workers[e.i]))
  {
    if e.PumpCall? {
      assert s.batch == [s.batch[0]] + Step(true, s, e).value.batch;
    }
  }

  /** The run of worker steps that lets a waiting join return. */
  function WayOut(s: State): seq<Event> {
    if |s.workers| == 0 then []
    else match s.workers[0]
      case Ready => [WorkerCheck(0)]
      case Performing(_) => [WorkerRespond(0, ""), WorkerStore(0)]
      case Finished(_) => [WorkerStore(0)]
      case _ => []
  }

  function ExecFrom(s: State, run: seq<Event>): Option<State>
    decreases |run|
  {
    if run == [] then Some(s)
    else
      var p := Step(true, s, run[0]);
      if p.None? then None else ExecFrom(p.value, run[1..])
  }

  /** Pending completions are dropped: whatever happens after shutdown took the lock, the only
    * callbacks that can still run are those the pump had already swapped out, in that order;
    * every job still queued, in the worker's hands or waiting in the result queue never calls
    * back. */
  lemma {:induction false} PendingAreDropped(s: State, later: seq<Event>)
    requires Inv(s) && s.shared.stop && ExecFrom(s, later).Some?
    ensures var t := ExecFrom(s, later).value;
      t.shared.stop && t.delivered + t.batch == s.delivered + s.batch && s.delivered <= t.delivered
    decreases |later|
  {
    if later != [] {
      var t := Step(true, s, later[0]).value;
      StepKeepsInv(s, later[0]);
      StoppedOnlyWindsDown(s, later[0]);
      assert s.delivered <= t.delivered;
      PendingAreDropped(t, later[1..]);
    }
  }

  /** shutdown() always returns: from any reachable state in which it waits to join, the worker
    * alone, in at most two steps and with no help from any other thread, makes the join
    * possible. */
  lemma JoinIsReached(run: seq<Event>)
    requires Exec(true, run).Some? && Exec(true, run).value.closing.Joining?
    ensures var s := Exec(true, run).value; var way := WayOut(s);
      |way| <= 2 && ExecFrom(s, way + [ShutdownJoin]).Some?
      && ExecFrom(s, way + [ShutdownJoin]).value.closing.Open?
  {
    EveryRunKeepsInv(run);
    var s := Exec(true, run).value;
    var way := WayOut(s) + [ShutdownJoin];
    if |s.workers| == 1 {
      assert !AnyParked(s.workers);
      assert !s.workers[0].Parked?;
      match s.workers[0]
      case Ready =>
        var s1 := Step(true, s, way[0]).value;
        assert way[1..] == [ShutdownJoin];
        assert ExecFrom(s1, [ShutdownJoin]) == ExecFrom(Step(true, s1, ShutdownJoin).value, [ShutdownJoin][1..]);
      case Finished(_) =>
        var s1 := Step(true, s, way[0]).value;
        assert way[1..] == [ShutdownJoin];
        assert ExecFrom(s1, [ShutdownJoin]) == ExecFrom(Step(true, s1, ShutdownJoin).value, [ShutdownJoin][1..]);
      case Performing(_) =>
        var s1 := Step(true, s, way[0]).value;
        var s2 := Step(true, s1, way[1]).value;
        assert way[1..] == [WorkerStore(0), ShutdownJoin];
        assert way[1..][1..] == [ShutdownJoin];
        assert ExecFrom(s2, [ShutdownJoin]) == ExecFrom(Step(true, s2, ShutdownJoin).value, [ShutdownJoin][1..]);
      case Exited =>
        assert way == [ShutdownJoin];
        assert ExecFrom(s, [ShutdownJoin]) == ExecFrom(Step(true, s, ShutdownJoin).value, [ShutdownJoin][1..]);
    } else {
      assert way == [ShutdownJoin];
      assert ExecFrom(s, [ShutdownJoin]) == ExecFrom(Step(true, s, ShutdownJoin).value, [ShutdownJoin][1..]);
    }
  }

  /** A build without a transport answers from the caller and never looks at the stop flag, so
    * the promise that shutdown silences the queue holds exactly when a transport exists: a
    * step from a shut-down queue makes a result deliverable if and only if it is a request in
    * a build without one. */
  lemma ShutdownSilencesIffTransport(transport: bool, s: State, e: Event)
    requires s.shared.stop && s.shared.results == [] && Step(transport, s, e).Some?
    ensures Step(transport, s, e).value.shared.results != [] <==> (!transport && e.Request?)
  {
  }

  /** The answers of a build without a transport, request by request. */
  function Answers(run: seq<Event>): seq<Result> {
    if run == [] then []
    else
      var e := run[|run|-1];
      Answers(run[..|run|-1]) + if e.Request? then [Result(e.job, e.response)] else []
  }

  ghost predicate Direct(s: State, answers: seq<Result>) {
    && s.delivered + s.batch + s.shared.results == answers
    && s.workers == [] && s.shared.jobs == [] && !s.shared.stop && s.owed == 0 && s.closing.Open?
  }

  lemma StepDirect(s: State, answers: seq<Result>, e: Event)
    requires Direct(s, answers) && Step(false, s, e).Some? && !e.ShutdownLock?
    ensures Direct(Step(false, s, e).value, answers + if e.Request? then [Result(e.job, e.response)] else [])
  {
    var t := Step(false, s, e).value;
    if e.PumpCall? {
      assert s.batch == [s.batch[0]] + t.batch;
      assert t.delivered + t.batch == s.delivered + s.batch;
    } else if e.PumpSwap? {
      assert t.delivered + t.batch + t.shared.results == s.delivered + s.batch + s.shared.results;
    }
  }

  /** Without a transport and before shutdown, each request is answered at once, and the answers reach
    * their callbacks in order, with no worker at all. */
  lemma {:induction false} AnsweredDirectly(run: seq<Event>)
    requires Exec(false, run).Some? && !ShutDown(run)
    ensures Direct(Exec(false, run).value, Answers(run))
  {
    if run != [] {
      var past := run[..|run|-1];
      AnsweredDirectly(past);
      StepDirect(Exec(false, past).value, Answers(past), run[|run|-1]);
    }
  }

  /** It happens: in a build without a transport a request made after shutdown is answered, and
    * the next pump calls back. */
  lemma CallbackAfterShutdown(job: Job, response: string)
    ensures var run := [ShutdownLock, ShutdownNotify, ShutdownJoin, Request(job, response), PumpSwap, PumpCall];
      var s := Exec(false, run);
      s.Some? && s.value.shared.stop && s.value.closing.Open? && s.value.delivered == [Result(job, response)]
  {
    var run := [ShutdownLock, ShutdownNotify, ShutdownJoin, Request(job, response), PumpSwap, PumpCall];
    var r, stopped := Result(job, response), Init().(shared := ShutdownSection(Init().shared));
    assert run[..1][..0] == [];
    assert Exec(false, run[..1]) == Some(stopped.(closing := OwesNotifyAll(None)));
    assert run[..2][..1] == run[..1] && WakeAll([]) == [];
    assert Exec(false, run[..2]) == Some(stopped.(closing := Joining(None)));
    assert run[..3][..2] == run[..2];
    assert Exec(false, run[..3]) == Some(stopped);
    assert run[..4][..3] == run[..3];
    var queued := Exec(false, run[..4]).value;
    assert queued.shared.results == [r] && queued.batch == [] && queued.shared.stop && queued.delivered == [];
    assert run[..5][..4] == run[..4];
    assert Exec(false, run[..5]).value.batch == [r];
    assert run[..|run|-1] == run[..5];
  }
}
