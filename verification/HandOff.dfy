/**
 The hand-off of finished read/write requests between the dispatcher, the interrupt and the
 completion worker (mmc/core/block.c), for hosts that cannot complete a request in their done
 callback. One step is one locked section, one unlocked write or one call.
 */
module HandOff {
  import opened Basics
  import opened Behaviours

  /** How often a request was started on the host, and how often it was post-processed. */
  datatype History = History(started: nat, posted: nat)

  /** rq is None for a request that only needs the host idle. */
  datatype Dispatcher =
    | Resting
    | Waiting(rq: Option<ReqId>, asleep: bool)    // in wait_event of mmc_blk_rw_wait
    | Locking(rq: Option<ReqId>)                  // about to take complete_lock
    | Polling(rq: Option<ReqId>, c: ReqId)        // holding complete_lock, completing c
    | Starting(r: ReqId, prev: Option<ReqId>)     // about to set rw_wait
    | Offering(r: ReqId, prev: Option<ReqId>)     // about to call mmc_start_request
    | Posting(prev: Option<ReqId>, failed: bool)  // the new request is under way or has failed
    | Syncing                                     // running a request that needs the host idle

  datatype Worker = WorkerIdle | WorkerLocking | WorkerPolling(c: ReqId)

  /** wakes and works count interrupts between their locked section and the wake-up or scheduling they owe. */
  datatype State = State(rwWait: bool, completeReq: Option<ReqId>, waiting: bool, workPending: bool,
                         worker: Worker, dispatcher: Dispatcher, wakes: nat, works: nat,
                         onHost: Option<ReqId>, hist: seq<History>)

  datatype Event =
    // the environment
    | BeginRw(r: ReqId)
    | BeginSync
    | RequestDone
    // the driver
    | CheckWait
    | DispatcherLocks
    | DispatcherPolled
    | SetRwWait
    | StartRequest(ok: bool)
    | PostPrevious
    | DispatchReturns
    | Wake
    | Schedule
    | WorkBegins
    | WorkerLocks
    | WorkerPolled

  predicate LockFree(s: State) {
    !s.dispatcher.Polling? && !s.worker.WorkerPolling?
  }

  predicate Known(s: State, r: ReqId) {
    r < |s.hist|
  }

  predicate Enabled(s: State, ev: Event) {
    match ev
    // the block layer issues a request only when it has it back from earlier starts
    case BeginRw(r) => s.dispatcher.Resting? && Known(s, r) && s.hist[r].started == s.hist[r].posted
    case BeginSync => s.dispatcher.Resting?
    case RequestDone => s.onHost.Some?
    case CheckWait => s.dispatcher.Waiting? && !s.dispatcher.asleep
    case DispatcherLocks => s.dispatcher.Locking? && LockFree(s)
    case DispatcherPolled => s.dispatcher.Polling? && s.completeReq.Some? && Known(s, s.completeReq.value)
    case SetRwWait => s.dispatcher.Starting?
    case StartRequest(_) => s.dispatcher.Offering? && Known(s, s.dispatcher.r)
    case PostPrevious => s.dispatcher.Posting? && s.dispatcher.prev.Some? && Known(s, s.dispatcher.prev.value)
    case DispatchReturns => s.dispatcher.Syncing? || (s.dispatcher.Posting? && s.dispatcher.prev.None?)
    case Wake => s.wakes > 0
    case Schedule => s.works > 0
    case WorkBegins => s.workPending && s.worker.WorkerIdle?
    case WorkerLocks => s.worker.WorkerLocking? && LockFree(s)
    case WorkerPolled => s.worker.WorkerPolling? && s.completeReq.Some? && Known(s, s.completeReq.value)
  }

  function Posted(hist: seq<History>, r: ReqId): seq<History>
    requires r < |hist|
  {
    hist[r := hist[r].(posted := hist[r].posted + 1)]
  }

  /** After complete_prev_req: start the read/write, or run the synchronous request. */
  function Proceed(rq: Option<ReqId>, prev: Option<ReqId>): Dispatcher {
    if rq.Some? then Starting(rq.value, prev) else Syncing
  }

  function Step(s: State, ev: Event): State
    requires Enabled(s, ev)
  {
    match ev
    case BeginRw(r) => s.(dispatcher := Waiting(Some(r), false))
    case BeginSync => s.(dispatcher := Waiting(None, false))
    case RequestDone =>
      s.(completeReq := s.onHost, rwWait := false, onHost := None,
         wakes := s.wakes + (if s.waiting then 1 else 0),
         works := s.works + (if s.waiting then 0 else 1))
    case CheckWait =>
      if s.rwWait then s.(waiting := true, dispatcher := s.dispatcher.(asleep := true))
      else s.(waiting := false, dispatcher := Locking(s.dispatcher.rq))
    case DispatcherLocks =>
      s.(dispatcher := if s.completeReq.Some? then Polling(s.dispatcher.rq, s.completeReq.value)
                       else Proceed(s.dispatcher.rq, None))
    case DispatcherPolled =>
      var rq := s.dispatcher.rq;
      s.(dispatcher := Proceed(rq, s.completeReq), completeReq := None,
         // a synchronous request post-processes its predecessor under the lock
         hist := if rq.Some? then s.hist else Posted(s.hist, s.completeReq.value))
    case SetRwWait => s.(rwWait := true, dispatcher := Offering(s.dispatcher.r, s.dispatcher.prev))
    case StartRequest(ok) =>
      var (r, prev) := (s.dispatcher.r, s.dispatcher.prev);
      if ok then
        s.(onHost := Some(r), dispatcher := Posting(prev, false),
           hist := s.hist[r := s.hist[r].(started := s.hist[r].started + 1)])
      else s.(dispatcher := Posting(prev, true))
    case PostPrevious =>
      s.(hist := Posted(s.hist, s.dispatcher.prev.value), dispatcher := Posting(None, s.dispatcher.failed))
    case DispatchReturns =>
      s.(dispatcher := Resting,
         rwWait := if s.dispatcher.Posting? && s.dispatcher.failed then false else s.rwWait)
    case Wake =>
      s.(wakes := s.wakes - 1,
         dispatcher := if s.dispatcher.Waiting? then s.dispatcher.(asleep := false) else s.dispatcher)
    case Schedule => s.(works := s.works - 1, workPending := true)
    case WorkBegins => s.(workPending := false, worker := WorkerLocking)
    case WorkerLocks =>
      s.(worker := if s.completeReq.Some? then WorkerPolling(s.completeReq.value) else WorkerIdle)
    case WorkerPolled => s.(hist := Posted(s.hist, s.completeReq.value), completeReq := None, worker := WorkerIdle)
  }

  ghost predicate Init(s: State) {
    && !s.rwWait && s.completeReq.None? && !s.waiting && !s.workPending
    && s.worker.WorkerIdle? && s.dispatcher.Resting? && s.wakes == 0 && s.works == 0 && s.onHost.None?
    && (forall r :: 0 <= r < |s.hist| ==> s.hist[r].started == s.hist[r].posted)
  }

  ghost predicate Next(s: State, s': State) {
    exists ev :: Enabled(s, ev) && s' == Step(s, ev)
  }

  // ----- the invariant -----

  function One(b: bool): nat {
    if b then 1 else 0
  }

  function PrevOf(d: Dispatcher): Option<ReqId> {
    match d
    case Starting(_, prev) => prev
    case Offering(_, prev) => prev
    case Posting(prev, _) => prev
    case _ => None
  }

  function NewOf(d: Dispatcher): Option<ReqId> {
    match d
    case Waiting(rq, _) => rq
    case Locking(rq) => rq
    case Polling(rq, _) => rq
    case Starting(r, _) => Some(r)
    case Offering(r, _) => Some(r)
    case _ => None
  }

  /** In how many hands a started request is: the host's, complete_req's, the dispatcher's. */
  function Hands(s: State, r: ReqId): nat {
    One(s.onHost == Some(r)) + One(s.completeReq == Some(r)) + One(PrevOf(s.dispatcher) == Some(r))
  }

  /** The dispatcher is between the wait and the start of its own request. */
  predicate Committed(d: Dispatcher) {
    d.Starting? || d.Offering? || d.Syncing?
  }

  /** rw_wait says exactly that the host is running a request or is about to be given one, or that a start failed. */
  ghost predicate WaitFlagOk(s: State) {
    && (s.rwWait <==> s.onHost.Some? || s.dispatcher.Offering? || (s.dispatcher.Posting? && s.dispatcher.failed))
    && (s.onHost.Some? ==> !s.dispatcher.Offering? && !s.dispatcher.Locking? && !s.dispatcher.Polling?
                           && !s.dispatcher.Starting? && !s.dispatcher.Syncing?
                           && !(s.dispatcher.Posting? && s.dispatcher.failed))
  }

  /** A finished request waits alone: the host is idle and nobody is committed to starting another. */
  ghost predicate SlotOk(s: State) {
    && (s.completeReq.Some? ==> s.onHost.None? && !Committed(s.dispatcher)
                                && !(s.dispatcher.Posting? && s.dispatcher.failed))
    && (s.dispatcher.Polling? ==> s.completeReq == Some(s.dispatcher.c) && !s.worker.WorkerPolling?)
    && (s.worker.WorkerPolling? ==> s.completeReq == Some(s.worker.c))
  }

  ghost predicate SleepOk(s: State) {
    && (s.waiting ==> s.dispatcher.Waiting?)
    && (s.dispatcher.Waiting? && s.dispatcher.asleep ==> s.waiting && (s.rwWait || s.wakes > 0))
  }

  /** Somebody is going to look at complete_req. */
  predicate Attended(s: State) {
    || s.works > 0 || s.workPending || !s.worker.WorkerIdle?
    || s.dispatcher.Locking? || s.dispatcher.Polling?
    || (s.dispatcher.Waiting? && (!s.dispatcher.asleep || s.wakes > 0))
  }

  ghost predicate Conserved(s: State) {
    && (s.onHost.Some? ==> Known(s, s.onHost.value))
    && (s.completeReq.Some? ==> Known(s, s.completeReq.value))
    && (PrevOf(s.dispatcher).Some? ==> Known(s, PrevOf(s.dispatcher).value))
    && (NewOf(s.dispatcher).Some? ==> Known(s, NewOf(s.dispatcher).value))
    && (forall r :: 0 <= r < |s.hist| ==> RequestOk(s, r))
  }

  /** A request started but not yet post-processed is in exactly one pair of hands. */
  ghost predicate RequestOk(s: State, r: ReqId)
    requires r < |s.hist|
  {
    && s.hist[r].started == s.hist[r].posted + Hands(s, r)
    && Hands(s, r) <= 1
    && (NewOf(s.dispatcher) == Some(r) ==> Hands(s, r) == 0)
  }

  ghost predicate Inv(s: State) {
    && WaitFlagOk(s) && SlotOk(s) && SleepOk(s) && Conserved(s)
    && (s.completeReq.Some? ==> Attended(s))
  }

  lemma StepControl(s: State, ev: Event)
    requires Inv(s) && Enabled(s, ev)
    ensures var s' := Step(s, ev);
            WaitFlagOk(s') && SlotOk(s') && SleepOk(s') && (s'.completeReq.Some? ==> Attended(s'))
  {
  }

  /** Steps that move a request from hand to hand, without starting or post-processing one. */
  predicate Moves(s: State, ev: Event) {
    !(ev.DispatcherPolled? && s.dispatcher.Polling? && s.dispatcher.rq.None?)
    && !ev.StartRequest? && !ev.PostPrevious? && !ev.WorkerPolled?
  }

  lemma MovedConserved(s: State, ev: Event, r: ReqId)
    requires WaitFlagOk(s) && SlotOk(s) && Conserved(s) && Enabled(s, ev) && r < |s.hist| && Moves(s, ev)
    ensures Step(s, ev).hist == s.hist && RequestOk(Step(s, ev), r)
  {
    assert RequestOk(s, r);
  }

  lemma PolledConserved(s: State, ev: Event, r: ReqId)
    requires WaitFlagOk(s) && SlotOk(s) && Conserved(s) && Enabled(s, ev) && r < |s.hist| && !Moves(s, ev)
    requires ev.DispatcherPolled? || ev.WorkerPolled?
    ensures |Step(s, ev).hist| == |s.hist| && RequestOk(Step(s, ev), r)
  {
    assert RequestOk(s, r);
  }

  lemma CountedConserved(s: State, ev: Event, r: ReqId)
    requires WaitFlagOk(s) && SlotOk(s) && Conserved(s) && Enabled(s, ev) && r < |s.hist| && !Moves(s, ev)
    ensures |Step(s, ev).hist| == |s.hist| && RequestOk(Step(s, ev), r)
  {
    if ev.DispatcherPolled? || ev.WorkerPolled? {
      PolledConserved(s, ev, r);
    } else {
      assert RequestOk(s, r);
    }
  }

  lemma RequestConserved(s: State, ev: Event, r: ReqId)
    requires WaitFlagOk(s) && SlotOk(s) && Conserved(s) && Enabled(s, ev) && r < |s.hist|
    ensures |Step(s, ev).hist| == |s.hist| && RequestOk(Step(s, ev), r)
  {
    if Moves(s, ev) {
      MovedConserved(s, ev, r);
    } else {
      CountedConserved(s, ev, r);
    }
  }

  lemma StepConserves(s: State, ev: Event)
    requires Inv(s) && Enabled(s, ev)
    ensures Conserved(Step(s, ev))
  {
    var s' := Step(s, ev);
    forall r | 0 <= r < |s'.hist|
      ensures RequestOk(s', r)
    {
      RequestConserved(s, ev, r);
    }
  }

  lemma StepInv(s: State, ev: Event)
    requires Inv(s) && Enabled(s, ev)
    ensures Inv(Step(s, ev))
  {
    StepControl(s, ev);
    StepConserves(s, ev);
  }

  lemma RunInv(run: seq<State>, k: nat)
    requires IsRun(Next, run) && Init(run[0]) && k < |run|
    ensures Inv(run[k])
  {
    forall s, s' | Inv(s) && Next(s, s')
      ensures Inv(s')
    {
      var ev :| Enabled(s, ev) && s' == Step(s, ev);
      StepInv(s, ev);
    }
    Invariance(Next, Inv, run, k);
  }

  // ----- main results, at every state of every run -----

  /**
   A finished request is never overwritten: whenever a request on the host finishes or is about
   to be started, complete_req is empty and nobody is still completing an earlier request.
   */
  lemma NeverOverwritten(run: seq<State>, k: nat)
    requires IsRun(Next, run) && Init(run[0]) && k < |run|
    ensures var s := run[k];
            && (Enabled(s, RequestDone) || s.dispatcher.Offering? || s.dispatcher.Syncing? ==>
                  s.completeReq.None? && LockFree(s))
            && (s.dispatcher.Offering? || s.dispatcher.Syncing? ==> s.onHost.None?)
            && !(s.dispatcher.Polling? && s.worker.WorkerPolling?)
  {
    RunInv(run, k);
  }

  /** Every start is matched by one post-processing, except for the one pair of hands the request is in. */
  lemma PostedExactlyOnce(run: seq<State>, k: nat, r: ReqId)
    requires IsRun(Next, run) && Init(run[0]) && k < |run| && r < |run[k].hist|
    ensures Hands(run[k], r) <= 1
    ensures run[k].hist[r].started == run[k].hist[r].posted + Hands(run[k], r)
  {
    RunInv(run, k);
    assert RequestOk(run[k], r);
  }

  // ----- no lost wake-up -----

  predicate Driver(ev: Event) {
    !ev.BeginRw? && !ev.BeginSync? && !ev.RequestDone?
  }

  function DispatcherRank(d: Dispatcher): nat {
    match d
    case Resting => 0
    case Waiting(_, asleep) => if asleep then 0 else 7
    case Locking(_) => 6
    case Polling(_, _) => 5
    case Starting(_, _) => 4
    case Offering(_, _) => 3
    case Posting(prev, _) => if prev.Some? then 2 else 1
    case Syncing => 1
  }

  function Rank(s: State): nat {
    8 * s.wakes + 4 * s.works + 3 * One(s.workPending)
    + (match s.worker case WorkerIdle => 0 case WorkerPolling(_) => 1 case WorkerLocking => 2)
    + DispatcherRank(s.dispatcher)
  }

  /** The driver's own steps come to an end by themselves. */
  lemma DriverStepsEnd(s: State, ev: Event)
    requires Enabled(s, ev) && Driver(ev)
    ensures Rank(Step(s, ev)) < Rank(s)
  {
  }

  /**
   ... and when none is left, nothing was forgotten: complete_req is empty, and a dispatcher is
   asleep only while the host runs a request whose completion will wake it.
   */
  lemma QuietMeansProcessed(run: seq<State>, k: nat)
    requires IsRun(Next, run) && Init(run[0]) && k < |run|
    requires forall ev :: Driver(ev) ==> !Enabled(run[k], ev)
    ensures var s := run[k];
            && s.completeReq.None? && s.works == 0 && s.wakes == 0 && !s.workPending && LockFree(s)
            && (s.dispatcher.Resting? || (s.dispatcher.Waiting? && s.onHost.Some? && s.waiting))
            && (forall r :: 0 <= r < |s.hist| ==> s.hist[r].started == s.hist[r].posted + One(s.onHost == Some(r)))
  {
    RunInv(run, k);
    QuietState(run[k]);
  }

  lemma QuietState(s: State)
    requires Inv(s)
    requires forall ev :: Driver(ev) ==> !Enabled(s, ev)
    ensures s.completeReq.None? && s.works == 0 && s.wakes == 0 && !s.workPending && LockFree(s)
    ensures s.dispatcher.Resting? || (s.dispatcher.Waiting? && s.onHost.Some? && s.waiting)
    ensures forall r :: 0 <= r < |s.hist| ==> s.hist[r].started == s.hist[r].posted + One(s.onHost == Some(r))
  {
    assert !Enabled(s, CheckWait) && !Enabled(s, DispatcherLocks) && !Enabled(s, DispatcherPolled);
    assert !Enabled(s, SetRwWait) && !Enabled(s, StartRequest(true)) && !Enabled(s, PostPrevious);
    assert !Enabled(s, DispatchReturns) && !Enabled(s, Wake) && !Enabled(s, Schedule);
    assert !Enabled(s, WorkBegins) && !Enabled(s, WorkerLocks) && !Enabled(s, WorkerPolled);
    forall r | 0 <= r < |s.hist|
      ensures s.hist[r].started == s.hist[r].posted + One(s.onHost == Some(r))
    {
      assert RequestOk(s, r);
    }
  }

  // ----- the same, as the driver does it -----

  /**
   The fields of the queue that the three parties share. Each method makes the steps of the
   machine above that its function makes; what others do in between is in the runs.
   */
  class SharedQueue {
    var rwWait: bool
    var waiting: bool
    var completeReq: Option<ReqId>

    ghost predicate Shows(s: State)
      reads this
    {
      rwWait == s.rwWait && waiting == s.waiting && completeReq == s.completeReq
    }

    constructor ()
      ensures !rwWait && !waiting && completeReq == None
    {
      rwWait, waiting, completeReq := false, false, None;
    }

    /** mmc_blk_rw_wait_cond */
    method RwWaitCond(ghost s: State) returns (done: bool)
      requires Shows(s) && Enabled(s, CheckWait)
      modifies this
      ensures Shows(Step(s, CheckWait)) && done == Step(s, CheckWait).dispatcher.Locking?
    {
      done := !rwWait;
      waiting := !done;
    }

    /** mmc_blk_mq_req_done: a sleeping dispatcher is woken, otherwise the worker is scheduled. */
    method ReqDone(req: ReqId, ghost s: State) returns (wake: bool, schedule: bool)
      requires Shows(s) && Enabled(s, RequestDone) && s.onHost == Some(req)
      modifies this
      ensures Shows(Step(s, RequestDone))
      ensures Step(s, RequestDone).wakes == s.wakes + One(wake) && Step(s, RequestDone).works == s.works + One(schedule)
    {
      completeReq := Some(req);
      rwWait := false;
      wake := waiting;
      schedule := !wake;
    }

    /**
     mmc_blk_mq_complete_prev_req under the lock, for the dispatcher: the finished request, if any,
     comes back to a read or write that will post-process it, and is post-processed at once otherwise.
     */
    method CompletePrevReq(ghost s: State) returns (prev: Option<ReqId>, ghost s': State)
      requires Inv(s) && Shows(s) && Enabled(s, DispatcherLocks)
      modifies this
      ensures Inv(s') && Shows(s') && s'.completeReq == None && s'.dispatcher == Proceed(s.dispatcher.rq, prev)
      ensures prev == s.completeReq && |s'.hist| == |s.hist|
      ensures forall r :: 0 <= r < |s.hist| ==>
                s'.hist[r].posted == s.hist[r].posted + One(s.dispatcher.rq.None? && prev == Some(r))
    {
      s' := Step(s, DispatcherLocks);
      StepInv(s, DispatcherLocks);
      prev := completeReq;
      if completeReq.Some? {
        ghost var polling := s';
        StepInv(polling, DispatcherPolled);
        s' := Step(polling, DispatcherPolled);
        completeReq := None;
      }
    }

    /** mmc_blk_mq_complete_work: the worker post-processes the finished request, if it is the one to find it. */
    method CompleteWork(ghost s: State) returns (found: Option<ReqId>, ghost s': State)
      requires Inv(s) && Shows(s) && Enabled(s, WorkerLocks)
      modifies this
      ensures Inv(s') && Shows(s') && s'.completeReq == None && s'.worker.WorkerIdle? && s'.dispatcher == s.dispatcher
      ensures found == s.completeReq && |s'.hist| == |s.hist|
      ensures forall r :: 0 <= r < |s.hist| ==> s'.hist[r].posted == s.hist[r].posted + One(found == Some(r))
    {
      s' := Step(s, WorkerLocks);
      StepInv(s, WorkerLocks);
      found := completeReq;
      if completeReq.Some? {
        ghost var polling := s';
        StepInv(polling, WorkerPolled);
        s' := Step(polling, WorkerPolled);
        completeReq := None;
      }
    }

    /** The end of mmc_blk_mq_issue_rw_rq: start the request, post-process the one before, take the flag back on failure. */
    method IssueRw(ok: bool, prev: Option<ReqId>, ghost s: State) returns (err: bool, ghost s': State)
      requires Inv(s) && Shows(s) && s.dispatcher.Starting? && s.dispatcher.prev == prev
      modifies this
      ensures Inv(s') && Shows(s') && s'.dispatcher.Resting? && err == !ok
      ensures ok ==> s'.onHost == Some(s.dispatcher.r)
      ensures prev.Some? ==> prev.value < |s.hist| == |s'.hist| && s'.hist[prev.value].posted == s.hist[prev.value].posted + 1
    {
      ghost var r := s.dispatcher.r;
      assert prev.Some? ==> RequestOk(s, prev.value);
      StepInv(s, SetRwWait);
      s' := Step(s, SetRwWait);
      rwWait := true;
      StepInv(s', StartRequest(ok));
      s' := Step(s', StartRequest(ok));
      err := !ok;
      if prev.Some? {
        StepInv(s', PostPrevious);
        s' := Step(s', PostPrevious);
      }
      StepInv(s', DispatchReturns);
      s' := Step(s', DispatchReturns);
      if err {
        rwWait := false;
      }
    }
  }
}
