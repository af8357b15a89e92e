/**
 Claiming the host (mmc/core/core.c) against the in-flight counts of any number of block
 queues that share it (mmc/core/queue.c, mmc/core/block.c). Each step is one lock-protected
 section, one claim or one release; the steps of all queues, of their completions and
 recovery works, and of other claimants interleave freely.
 */
module HostClaim {
  import opened Basics
  import opened Behaviours

  // ----- the host lock -----

  datatype Ctx = QueueCtx(queue: nat) | DefaultCtx

  /** task is the task of the current claimer. */
  datatype Host = Host(claimed: bool, claimer: Option<Ctx>, task: Option<nat>, claimCnt: int)

  /** Whether __mmc_claim_host returns now; a claim without a context is made by a task. */
  predicate CanClaim(h: Host, ctx: Option<nat>, task: Option<nat>) {
    || !h.claimed
    || (ctx.Some? && h.claimer == Some(QueueCtx(ctx.value)))
    || (ctx.None? && task.Some? && h.task == task)
  }

  function Claim(h: Host, ctx: Option<nat>, task: Option<nat>): Host {
    Host(true,
         if h.claimer.Some? then h.claimer
         else if ctx.Some? then Some(QueueCtx(ctx.value)) else Some(DefaultCtx),
         if task.Some? then task else h.task,
         h.claimCnt + 1)
  }

  function Release(h: Host): Host {
    if h.claimCnt - 1 != 0 then h.(claimCnt := h.claimCnt - 1)
    else Host(false, None, None, 0)
  }

  ghost predicate HostOk(h: Host) {
    && (h.claimed <==> h.claimer.Some?)
    && (h.claimed <==> h.claimCnt >= 1)
    && (!h.claimed ==> h.claimCnt == 0 && h.task.None?)
    && (h.claimed ==> (h.task.Some? <==> h.claimer == Some(DefaultCtx)))
  }

  /** Claims held through one queue's context. */
  function Held(h: Host, queue: nat): int {
    if h.claimer == Some(QueueCtx(queue)) then h.claimCnt else 0
  }

  /** A claim adds one to its own context and takes nothing from another. */
  lemma ClaimExact(h: Host, queue: nat)
    requires HostOk(h) && CanClaim(h, Some(queue), None)
    ensures var h' := Claim(h, Some(queue), None);
            HostOk(h') && forall j :: Held(h', j) == Held(h, j) + if j == queue then 1 else 0
  {
  }

  lemma ReleaseExact(h: Host, queue: nat)
    requires HostOk(h) && Held(h, queue) >= 1
    ensures var h' := Release(h);
            HostOk(h') && forall j :: Held(h', j) == Held(h, j) - if j == queue then 1 else 0
  {
  }

  class MmcHost {
    var claimed: bool
    var claimer: Option<Ctx>
    var task: Option<nat>
    var claimCnt: int

    ghost function View(): Host
      reads this
    {
      Host(claimed, claimer, task, claimCnt)
    }

    constructor ()
      ensures View() == Host(false, None, None, 0)
    {
      claimed, claimer, task, claimCnt := false, None, None, 0;
    }

    /** One pass of the loop in __mmc_claim_host: leave when told to stop, take the host, or go back to sleep. */
    method TryClaim(ctx: Option<nat>, current: nat, stop: bool) returns (leave: bool, taken: bool, resume: bool)
      modifies this
      ensures var t := if ctx.Some? then None else Some(current);
              && leave == (stop || CanClaim(old(View()), ctx, t))
              && taken == (!stop && CanClaim(old(View()), ctx, t))
              && View() == (if taken then Claim(old(View()), ctx, t) else old(View()))
      ensures resume == (taken && claimCnt == 1)
    {
      var t := if ctx.Some? then None else Some(current);
      var matches := if ctx.Some? then claimer == Some(QueueCtx(ctx.value)) else t.Some? && task == t;
      leave := stop || !claimed || matches;
      taken := leave && !stop;
      resume := false;
      if taken {
        claimed := true;
        if claimer.None? {
          claimer := if ctx.Some? then Some(QueueCtx(ctx.value)) else Some(DefaultCtx);
        }
        if t.Some? {
          task := t;
        }
        claimCnt := claimCnt + 1;
        resume := claimCnt == 1;
      }
    }

    method ReleaseHost()
      requires HostOk(View()) && claimed
      modifies this
      ensures View() == Release(old(View())) && HostOk(View())
    {
      claimCnt := claimCnt - 1;
      if claimCnt == 0 {
        claimed := false;
        task := None;
        claimer := None;
      }
    }
  }

  // ----- the queues -----

  datatype IssueType = Sync | Dcmd | Async

  datatype Counts = Counts(sync: int, dcmd: int, async: int)

  function Get(c: Counts, ty: IssueType): int {
    match ty case Sync => c.sync case Dcmd => c.dcmd case Async => c.async
  }

  function Add(c: Counts, ty: IssueType, d: int): Counts {
    match ty
    case Sync => c.(sync := c.sync + d)
    case Dcmd => c.(dcmd := c.dcmd + d)
    case Async => c.(async := c.async + d)
  }

  /** mmc_tot_in_flight */
  function Total(c: Counts): int {
    c.sync + c.dcmd + c.async
  }

  /** Where mmc_mq_queue_rq is. */
  datatype Dispatcher = NoDispatch | Getting(ty: IssueType) | Issuing(ty: IssueType) | Undoing(ty: IssueType) | Started

  datatype Handler = HandlerIdle | HandlerRunning | HandlerReleasing

  /** started counts the requests handed to the hardware and not yet completed; puts the owed mmc_put_card calls. */
  datatype Queue = Queue(inFlight: Counts, started: Counts, busy: bool, dispatcher: Dispatcher, puts: nat,
                         recoveryNeeded: bool, recoveryWork: bool, handler: Handler, quiesced: bool)

  datatype System = System(host: Host, queues: seq<Queue>)

  datatype Event =
    | QueueRq(q: nat, ty: IssueType)
    | GetCard(q: nat)
    | IssueRq(q: nat, begun: bool)
    | ClearBusy(q: nat)
    | Undo(q: nat)
    | PutCard(q: nat)
    | Complete(q: nat, ty: IssueType)
    | NeedRecovery(q: nat)
    | HandlerGet(q: nat)
    | HandlerClear(q: nat)
    | HandlerPut(q: nat)
    | Quiesce(q: nat)
    | Unquiesce(q: nat)
    | TaskClaim(task: nat)
    | TaskRelease(task: nat)

  predicate OfQueue(ev: Event) {
    !ev.TaskClaim? && !ev.TaskRelease?
  }

  predicate QueueEnabled(h: Host, q: Queue, ev: Event)
    requires OfQueue(ev)
  {
    match ev
    case QueueRq(_, ty) => !q.quiesced && !q.recoveryNeeded && !q.busy && (ty.Dcmd? ==> q.inFlight.dcmd == 0)
    case GetCard(i) => q.dispatcher.Getting? && CanClaim(h, Some(i), None)
    case IssueRq(_, _) => q.dispatcher.Issuing?
    case ClearBusy(_) => q.dispatcher.Started?
    case Undo(_) => q.dispatcher.Undoing?
    case PutCard(_) => q.puts > 0
    case Complete(_, ty) => Get(q.started, ty) > 0
    case NeedRecovery(_) => true
    case HandlerGet(i) => q.recoveryWork && q.handler.HandlerIdle? && CanClaim(h, Some(i), None)
    case HandlerClear(_) => q.handler.HandlerRunning?
    case HandlerPut(_) => q.handler.HandlerReleasing?
    case Quiesce(_) => q.dispatcher.NoDispatch?  // blk_mq_quiesce_queue waits for a running dispatch
    case Unquiesce(_) => true
  }

  /** In-flight count down by one; the last one out owes a put. */
  function Drop(q: Queue, ty: IssueType): Queue {
    var c := Add(q.inFlight, ty, -1);
    q.(inFlight := c, puts := q.puts + if Total(c) == 0 then 1 else 0)
  }

  function QueueStep(h: Host, q: Queue, ev: Event): (Host, Queue)
    requires OfQueue(ev) && QueueEnabled(h, q, ev)
  {
    match ev
    case QueueRq(_, ty) =>
      var c := Add(q.inFlight, ty, 1);
      (h, q.(busy := true, inFlight := c, dispatcher := if Total(c) == 1 then Getting(ty) else Issuing(ty)))
    case GetCard(i) => (Claim(h, Some(i), None), q.(dispatcher := Issuing(q.dispatcher.ty)))
    case IssueRq(_, begun) =>
      var ty := q.dispatcher.ty;
      (h, if begun then q.(started := Add(q.started, ty, 1), dispatcher := Started) else q.(dispatcher := Undoing(ty)))
    case ClearBusy(_) => (h, q.(busy := false, dispatcher := NoDispatch))
    case Undo(_) => (h, Drop(q, q.dispatcher.ty).(busy := false, dispatcher := NoDispatch))
    case PutCard(_) => (Release(h), q.(puts := q.puts - 1))
    case Complete(_, ty) => (h, Drop(q.(started := Add(q.started, ty, -1)), ty))
    case NeedRecovery(_) =>
      (h, if q.recoveryNeeded then q else q.(recoveryNeeded := true, recoveryWork := true))
    case HandlerGet(i) => (Claim(h, Some(i), None), q.(recoveryWork := false, handler := HandlerRunning))
    case HandlerClear(_) => (h, q.(recoveryNeeded := false, handler := HandlerReleasing))
    case HandlerPut(_) => (Release(h), q.(handler := HandlerIdle))
    case Quiesce(_) => (h, q.(quiesced := true))
    case Unquiesce(_) => (h, q.(quiesced := false))
  }

  predicate Enabled(s: System, ev: Event) {
    match ev
    case TaskClaim(t) => CanClaim(s.host, None, Some(t))
    case TaskRelease(t) => s.host.claimer == Some(DefaultCtx) && s.host.task == Some(t)
    case _ => ev.q < |s.queues| && QueueEnabled(s.host, s.queues[ev.q], ev)
  }

  function Step(s: System, ev: Event): System
    requires Enabled(s, ev)
  {
    match ev
    case TaskClaim(t) => s.(host := Claim(s.host, None, Some(t)))
    case TaskRelease(t) => s.(host := Release(s.host))
    case _ =>
      var (h, q) := QueueStep(s.host, s.queues[ev.q], ev);
      System(h, s.queues[ev.q := q])
  }

  ghost predicate Init(s: System) {
    && s.host == Host(false, None, None, 0)
    && (forall i :: 0 <= i < |s.queues| ==>
          var q := s.queues[i];
          && q.inFlight == q.started == Counts(0, 0, 0)
          && !q.busy && q.dispatcher.NoDispatch? && q.puts == 0 && q.handler.HandlerIdle?)
  }

  ghost predicate Next(s: System, s': System) {
    exists ev :: Enabled(s, ev) && s' == Step(s, ev)
  }

  // ----- the invariant -----

  function Dispatching(q: Queue, ty: IssueType): int {
    match q.dispatcher
    case Getting(t) => if t == ty then 1 else 0
    case Issuing(t) => if t == ty then 1 else 0
    case Undoing(t) => if t == ty then 1 else 0
    case _ => 0
  }

  function Owes(q: Queue): int {
    (if Total(q.inFlight) > 0 then 1 else 0) + (if q.handler.HandlerIdle? then 0 else 1)
  }

  /**
   Claims held, plus the claim a dispatcher is waiting for, minus the releases still owed, is
   one for requests in flight and one for a running recovery.
   */
  ghost predicate Balanced(h: Host, q: Queue, i: nat) {
    Held(h, i) + (if q.dispatcher.Getting? then 1 else 0) - q.puts == Owes(q)
  }

  /** Every request in flight is on the hardware or with the dispatcher. */
  ghost predicate CountsOk(q: Queue) {
    && q.inFlight.sync == q.started.sync + Dispatching(q, Sync) && q.started.sync >= 0
    && q.inFlight.dcmd == q.started.dcmd + Dispatching(q, Dcmd) && q.started.dcmd >= 0
    && q.inFlight.async == q.started.async + Dispatching(q, Async) && q.started.async >= 0
    && q.inFlight.dcmd <= 1
  }

  ghost predicate QueueOk(h: Host, q: Queue, i: nat) {
    && (q.busy <==> !q.dispatcher.NoDispatch?)
    && (q.quiesced ==> q.dispatcher.NoDispatch?)
    && CountsOk(q)
    && (q.dispatcher.Getting? ==> Total(q.started) == 0)
    && Balanced(h, q, i)
  }

  ghost predicate Inv(s: System) {
    && HostOk(s.host)
    && (forall i :: 0 <= i < |s.queues| ==> QueueOk(s.host, s.queues[i], i))
  }

  /** A queue that owes a release holds the host; the warning in mmc_put_card cannot fire. */
  lemma OwedPutIsHeld(h: Host, q: Queue, i: nat)
    requires QueueOk(h, q, i) && (q.puts > 0 || !q.handler.HandlerIdle?)
    ensures Held(h, i) >= 1
  {
  }

  lemma QueueRqOk(h: Host, q: Queue, i: nat, ty: IssueType)
    requires QueueOk(h, q, i) && QueueEnabled(h, q, QueueRq(i, ty))
    ensures QueueOk(h, QueueStep(h, q, QueueRq(i, ty)).1, i)
  {
  }

  lemma IssueOk(h: Host, q: Queue, i: nat, begun: bool)
    requires QueueOk(h, q, i) && QueueEnabled(h, q, IssueRq(i, begun))
    ensures QueueOk(h, QueueStep(h, q, IssueRq(i, begun)).1, i)
  {
  }

  lemma UndoOk(h: Host, q: Queue, i: nat)
    requires QueueOk(h, q, i) && QueueEnabled(h, q, Undo(i))
    ensures QueueOk(h, QueueStep(h, q, Undo(i)).1, i)
  {
  }

  lemma CompleteOk(h: Host, q: Queue, i: nat, ty: IssueType)
    requires QueueOk(h, q, i) && QueueEnabled(h, q, Complete(i, ty))
    ensures QueueOk(h, QueueStep(h, q, Complete(i, ty)).1, i)
  {
  }

  lemma QueueStepOk(h: Host, q: Queue, i: nat, ev: Event)
    requires HostOk(h) && QueueOk(h, q, i)
    requires OfQueue(ev) && ev.q == i && QueueEnabled(h, q, ev)
    ensures var (h', q') := QueueStep(h, q, ev);
            && HostOk(h') && QueueOk(h', q', i)
            && (forall j :: j != i ==> Held(h', j) == Held(h, j))
  {
    match ev
    case GetCard(_) => ClaimExact(h, i);
    case HandlerGet(_) => ClaimExact(h, i);
    case PutCard(_) =>
      OwedPutIsHeld(h, q, i);
      ReleaseExact(h, i);
    case HandlerPut(_) =>
      OwedPutIsHeld(h, q, i);
      ReleaseExact(h, i);
    case QueueRq(_, ty) => QueueRqOk(h, q, i, ty);
    case IssueRq(_, begun) => IssueOk(h, q, i, begun);
    case Undo(_) => UndoOk(h, q, i);
    case Complete(_, ty) => CompleteOk(h, q, i, ty);
    case _ =>
  }

  /** What another claimant does to the host does not show in a queue's own account. */
  lemma OthersUnaffected(h: Host, h': Host, q: Queue, j: nat)
    requires QueueOk(h, q, j) && Held(h', j) == Held(h, j)
    ensures QueueOk(h', q, j)
  {
  }

  lemma TaskStepInv(s: System, ev: Event)
    requires Inv(s) && !OfQueue(ev) && Enabled(s, ev)
    ensures Inv(Step(s, ev))
  {
    var s' := Step(s, ev);
    forall j | 0 <= j < |s'.queues|
      ensures QueueOk(s'.host, s'.queues[j], j)
    {
      OthersUnaffected(s.host, s'.host, s.queues[j], j);
    }
  }

  lemma StepInv(s: System, ev: Event)
    requires Inv(s) && Enabled(s, ev)
    ensures Inv(Step(s, ev)) && |Step(s, ev).queues| == |s.queues|
  {
    if OfQueue(ev) {
      var (h', q') := QueueStep(s.host, s.queues[ev.q], ev);
      QueueStepOk(s.host, s.queues[ev.q], ev.q, ev);
      var s' := System(h', s.queues[ev.q := q']);
      forall j | 0 <= j < |s'.queues|
        ensures QueueOk(h', s'.queues[j], j)
      {
        if j != ev.q {
          OthersUnaffected(s.host, h', s.queues[j], j);
        }
      }
      assert Step(s, ev) == s';
    } else {
      TaskStepInv(s, ev);
    }
  }

  lemma RunInv(run: seq<System>, k: nat)
    requires IsRun(Next, run) && Init(run[0]) && k < |run|
    ensures Inv(run[k]) && |run[k].queues| == |run[0].queues|
  {
    var n := |run[0].queues|;
    var inv := (s: System) => Inv(s) && |s.queues| == n;
    forall s, s' | inv(s) && Next(s, s')
      ensures inv(s')
    {
      var ev :| Enabled(s, ev) && s' == Step(s, ev);
      StepInv(s, ev);
    }
    Invariance(Next, inv, run, k);
  }

  // ----- main results -----

  ghost predicate Outstanding(q: Queue) {
    Total(q.started) > 0 || q.dispatcher.Issuing? || q.handler.HandlerRunning?
  }

  lemma OutstandingIsHeld(h: Host, q: Queue, i: nat)
    requires QueueOk(h, q, i) && Outstanding(q)
    ensures Held(h, i) >= 1
  {
  }

  /**
   In every reachable state the claims balance, the host belongs to a queue whenever that queue
   is issuing, has a request on the hardware or is recovering, and no two queues ever do so at once.
   */
  lemma ClaimedWhileOutstanding(run: seq<System>, k: nat)
    requires IsRun(Next, run) && Init(run[0]) && k < |run|
    ensures var s := run[k];
            && (forall i :: 0 <= i < |s.queues| ==> Balanced(s.host, s.queues[i], i))
            && (forall i :: 0 <= i < |s.queues| && Outstanding(s.queues[i]) ==>
                  s.host.claimed && s.host.claimer == Some(QueueCtx(i)))
            && (forall i, j :: 0 <= i < |s.queues| && 0 <= j < |s.queues| && i != j ==>
                  !(Outstanding(s.queues[i]) && Outstanding(s.queues[j])))
            && (forall i :: 0 <= i < |s.queues| && s.queues[i].puts > 0 ==> s.host.claimer == Some(QueueCtx(i)))
  {
    RunInv(run, k);
    var s := run[k];
    forall i | 0 <= i < |s.queues|
      ensures Balanced(s.host, s.queues[i], i)
      ensures Outstanding(s.queues[i]) || s.queues[i].puts > 0 ==> s.host.claimed && s.host.claimer == Some(QueueCtx(i))
    {
      assert QueueOk(s.host, s.queues[i], i);
      if Outstanding(s.queues[i]) {
        OutstandingIsHeld(s.host, s.queues[i], i);
      }
      if s.queues[i].puts > 0 {
        OwedPutIsHeld(s.host, s.queues[i], i);
      }
    }
  }

  /** Nothing of a queue is in flight, being released or being recovered. */
  ghost predicate Drained(q: Queue) {
    Total(q.inFlight) == 0 && Total(q.started) == 0 && q.puts == 0 && q.handler.HandlerIdle?
  }

  /**
   mmc_queue_suspend: once a quiesced queue's host has been claimed by the suspending task (or
   by anybody but the queue), nothing of that queue is outstanding.
   */
  lemma SuspendProvesIdle(run: seq<System>, k: nat, i: nat)
    requires IsRun(Next, run) && Init(run[0]) && k < |run|
    requires i < |run[k].queues| && run[k].queues[i].quiesced
    requires run[k].host.claimed && run[k].host.claimer != Some(QueueCtx(i))
    ensures Drained(run[k].queues[i])
  {
    RunInv(run, k);
    assert QueueOk(run[k].host, run[k].queues[i], i);
  }

  lemma SuspendedStepKeepsIdle(s: System, s': System, i: nat)
    requires Inv(s) && Next(s, s') && i < |s.queues|
    requires s.queues[i].quiesced && Total(s.queues[i].inFlight) == 0
    ensures Inv(s') && i < |s'.queues| && Total(s'.queues[i].inFlight) == 0
  {
    var ev :| Enabled(s, ev) && s' == Step(s, ev);
    StepInv(s, ev);
    assert QueueOk(s.host, s.queues[i], i);
  }

  /** ... and it stays so, over every continuation that does not resume the queue. */
  lemma SuspendLasts(run: seq<System>, i: nat, k: nat)
    requires IsRun(Next, run) && Inv(run[0]) && k < |run|
    requires forall m :: 0 <= m < |run| ==> i < |run[m].queues| && run[m].queues[i].quiesced
    requires Total(run[0].queues[i].inFlight) == 0
    ensures Total(run[k].queues[i].inFlight) == 0
  {
    var next := (s: System, s': System) => Next(s, s') && i < |s.queues| && s.queues[i].quiesced;
    var inv := (s: System) => Inv(s) && i < |s.queues| && Total(s.queues[i].inFlight) == 0;
    forall s, s' | inv(s) && next(s, s')
      ensures inv(s')
    {
      SuspendedStepKeepsIdle(s, s', i);
    }
    assert IsRun(next, run);
    Invariance(next, inv, run, k);
  }
}
