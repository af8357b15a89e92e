/**
 Whole runs of the command queue: the slot table of CqEngine under the block queue above it
 (mmc/core/queue.c, mmc/core/block.c). The hardware, the card and the block layer choose the
 events; each event is one lock-protected section or one call that other sections can
 interleave with.
 */
module CqRuns {
  import opened Basics
  import opened Sums
  import opened Behaviours
  import opened CqEngine

  /** MMC_CQE_RETRIES */
  const CQE_RETRIES: int := 2

  datatype Op = Data | Direct

  datatype Stage =
    | Queued                  // with the block layer, free to be dispatched
    | Dispatching             // counted in flight, not yet offered to the engine
    | Issued                  // accepted by the engine
    | Finishing(error: int)   // handed to mmc_cqe_request_done, completion not yet run
    | Ended

  /** accepted, done and failures are history: offers taken, times done, times done with an error. */
  datatype Request = Request(op: Op, tag: nat, prepped: bool, retries: int, stage: Stage,
                             accepted: nat, done: nat, failures: nat)

  /** Where the recovery work is; Finished is after the engine restarts and before recovery_needed clears. */
  datatype Phase = Idle | Scheduled | Running | Recovering(next: nat, hit: bool) | Finished

  datatype Queue = Queue(engine: Engine, dcmd: bool, depth: nat, reqs: seq<Request>,
                         dispatcher: Option<ReqId>, dcmdInFlight: int, dcmdDecs: nat,
                         recoveryNeeded: bool, phase: Phase, recoveries: nat)

  datatype Event =
    | Dispatch(id: ReqId, tag: nat)
    | Start(prepError: int)
    | ErrorInterrupt(cmdTask: Option<nat>, dataTask: Option<nat>, cmdError: int, dataError: int)
    | Completion(slot: nat, error: int)
    | TimedOut(late: ReqId)
    | HandlerRuns
    | Sweep
    | RecoverSlot
    | RecoveryEnds
    | HandlerReturns
    | CompleteRq(finished: ReqId, more: bool)
    | DropInFlight

  function SlotOf(r: Request): nat {
    if r.op.Direct? then DCMD_SLOT else r.tag
  }

  /** mmc->cqe_qdepth as cqhci_init sets it. */
  function CqeDepth(dcmd: bool): nat {
    if dcmd then NUM_SLOTS - 1 else NUM_SLOTS
  }

  predicate Active(r: Request) {
    r.stage.Dispatching? || r.stage.Issued? || r.stage.Finishing?
  }

  function DirectActive(r: Request): nat {
    if r.op.Direct? && Active(r) then 1 else 0
  }

  function Failures(r: Request): nat {
    r.failures
  }

  predicate Enabled(q: Queue, ev: Event)
    requires |q.engine.slots| == NUM_SLOTS
  {
    match ev
    case Dispatch(id, tag) =>
      && !q.recoveryNeeded && q.dispatcher.None?
      && id < |q.reqs| && q.reqs[id].stage.Queued?
      && (q.reqs[id].op.Direct? ==> q.dcmd && q.dcmdInFlight == 0)
      // the block layer gives out a tag below the queue depth that no active request holds
      && tag < q.depth
      && (forall i :: 0 <= i < |q.reqs| && Active(q.reqs[i]) ==> q.reqs[i].tag != tag)
    case Start(_) => q.dispatcher.Some? && q.dispatcher.value < |q.reqs|
                     && SlotOf(q.reqs[q.dispatcher.value]) < NUM_SLOTS
    case ErrorInterrupt(c, d, _, _) =>
      && (c.Some? ==> c.value < NUM_SLOTS)
      && (d.Some? ==> d.value < NUM_SLOTS)
    case Completion(slot, _) => slot < NUM_SLOTS
    case TimedOut(id) =>
      !q.recoveryNeeded && id < |q.reqs| && SlotOf(q.reqs[id]) < NUM_SLOTS
    case HandlerRuns => q.phase.Scheduled?
    case Sweep => q.phase.Running?
    case RecoverSlot => q.phase.Recovering? && q.phase.next < NUM_SLOTS
    case RecoveryEnds => q.phase.Recovering? && q.phase.next == NUM_SLOTS
    case HandlerReturns => q.phase.Finished?
    case CompleteRq(id, _) => id < |q.reqs| && q.reqs[id].stage.Finishing?
    case DropInFlight => q.dcmdDecs > 0
  }

  /** __mmc_cqe_recovery_notifier: schedule the work unless recovery is already under way. */
  function Notify(q: Queue): Queue {
    if q.recoveryNeeded then q else q.(recoveryNeeded := true, phase := Scheduled)
  }

  function Delivered(r: Request, error: int): Request {
    r.(stage := Finishing(error), done := r.done + 1, failures := r.failures + if error != 0 then 1 else 0)
  }

  function DispatchStep(q: Queue, id: ReqId, tag: nat): Queue
    requires id < |q.reqs|
  {
    var r := q.reqs[id];
    var prepped := if r.prepped then r else r.(retries := 0, prepped := true);
    q.(reqs := q.reqs[id := prepped.(tag := tag, stage := Dispatching)],
       dispatcher := Some(id),
       dcmdInFlight := q.dcmdInFlight + if r.op.Direct? then 1 else 0)
  }

  function StartStep(q: Queue, prepError: int): Queue
    requires |q.engine.slots| == NUM_SLOTS && Enabled(q, Start(prepError))
  {
    var id := q.dispatcher.value;
    var r := q.reqs[id];
    var (e, err) := if prepError != 0 then (q.engine, prepError) else Submit(q.engine, SlotOf(r), id);
    if err == 0 then
      q.(engine := e, dispatcher := None,
         reqs := q.reqs[id := r.(stage := Issued, accepted := r.accepted + 1)])
    else
      q.(dispatcher := None,
         dcmdInFlight := q.dcmdInFlight - if r.op.Direct? then 1 else 0,
         reqs := q.reqs[id := r.(stage := if err == EBUSY then Queued else Ended)])
  }

  function CompletionStep(q: Queue, slot: nat, error: int): Queue
    requires slot < |q.engine.slots|
  {
    var (e, done) := Finish(q.engine, slot);
    if done.Some? && done.value < |q.reqs| then
      q.(engine := e, reqs := q.reqs[done.value := Delivered(q.reqs[done.value], error)])
    else q.(engine := e)
  }

  function TimedOutStep(q: Queue, id: ReqId): Queue
    requires id < |q.reqs| && SlotOf(q.reqs[id]) < |q.engine.slots|
  {
    var (e, timedOut) := Timeout(q.engine, SlotOf(q.reqs[id]), id);
    if timedOut then Notify(q.(engine := e)) else q
  }

  function RecoverSlotStep(q: Queue): Queue
    requires q.phase.Recovering? && q.phase.next < |q.engine.slots|
  {
    var (e, o) := Recover(q.engine, q.phase.next);
    if o.Some? && o.value.id < |q.reqs| then
      q.(engine := e,
         reqs := q.reqs[o.value.id := Delivered(q.reqs[o.value.id], o.value.error)],
         phase := Recovering(q.phase.next + 1, q.phase.hit || o.value.error != 0))
    else q.(engine := e, phase := Recovering(q.phase.next + 1, q.phase.hit))
  }

  /** mmc_blk_cqe_complete_rq up to the queue lock. */
  function CompleteStep(q: Queue, id: ReqId, more: bool): Queue
    requires id < |q.reqs| && q.reqs[id].stage.Finishing?
  {
    var r := q.reqs[id];
    var r' :=
      if r.stage.error != 0 then
        r.(retries := r.retries + 1, stage := if r.retries < CQE_RETRIES then Queued else Ended)
      else r.(stage := if r.op.Data? && more then Queued else Ended);
    q.(reqs := q.reqs[id := r'], dcmdDecs := q.dcmdDecs + if r.op.Direct? then 1 else 0)
  }

  function Step(q: Queue, ev: Event): Queue
    requires |q.engine.slots| == NUM_SLOTS && Enabled(q, ev)
  {
    match ev
    case Dispatch(id, tag) => DispatchStep(q, id, tag)
    case Start(prepError) => StartStep(q, prepError)
    case ErrorInterrupt(c, d, ce, de) =>
      var e := ErrorIrq(q.engine, c, d, ce, de);
      if e.recoveryHalt && !q.engine.recoveryHalt then Notify(q.(engine := e)) else q.(engine := e)
    case Completion(slot, error) => CompletionStep(q, slot, error)
    case TimedOut(id) => TimedOutStep(q, id)
    case HandlerRuns => q.(phase := Running)
    case Sweep => q.(phase := Recovering(0, false))
    case RecoverSlot => RecoverSlotStep(q)
    case RecoveryEnds =>
      q.(engine := q.engine.(qcnt := 0, recoveryHalt := false), phase := Finished, recoveries := q.recoveries + 1)
    case HandlerReturns => q.(phase := Idle, recoveryNeeded := false)
    case CompleteRq(id, more) => CompleteStep(q, id, more)
    case DropInFlight => q.(dcmdDecs := q.dcmdDecs - 1, dcmdInFlight := q.dcmdInFlight - 1)
  }

  /** A fresh queue: any number of requests, whatever retry counts their memory happened to hold. */
  ghost predicate Init(q: Queue) {
    && q.engine == Engine(seq(NUM_SLOTS, _ => Slot(None, {})), 0, false, q.engine.waitingForIdle)
    && q.depth <= CqeDepth(q.dcmd)
    && (forall i :: 0 <= i < |q.reqs| ==>
          var r := q.reqs[i];
          r.stage.Queued? && !r.prepped && r.accepted == r.done == r.failures == 0)
    && q.dispatcher.None? && q.dcmdInFlight == 0 && q.dcmdDecs == 0
    && !q.recoveryNeeded && q.phase.Idle? && q.recoveries == 0
  }

  ghost predicate Next(q: Queue, q': Queue) {
    |q.engine.slots| == NUM_SLOTS && exists ev :: Enabled(q, ev) && q' == Step(q, ev)
  }

  // ----- the invariant -----

  /** Slots and issued requests name each other. */
  ghost predicate SlotsAgree(q: Queue) {
    && WellFormed(q.engine)
    && (forall t :: 0 <= t < NUM_SLOTS && q.engine.slots[t].mrq.Some? ==>
          var id := q.engine.slots[t].mrq.value;
          id < |q.reqs| && q.reqs[id].stage.Issued? && SlotOf(q.reqs[id]) == t)
    && (forall id :: 0 <= id < |q.reqs| && q.reqs[id].stage.Issued? ==>
          SlotOf(q.reqs[id]) < NUM_SLOTS && q.engine.slots[SlotOf(q.reqs[id])].mrq == Some(id))
  }

  ghost predicate TagsUnique(q: Queue) {
    && q.depth <= CqeDepth(q.dcmd)
    && (forall i :: 0 <= i < |q.reqs| && Active(q.reqs[i]) ==>
          q.reqs[i].tag < q.depth && (q.reqs[i].op.Direct? ==> q.dcmd))
    && (forall i, j :: 0 <= i < j < |q.reqs| && Active(q.reqs[i]) && Active(q.reqs[j]) ==>
          q.reqs[i].tag != q.reqs[j].tag)
  }

  ghost predicate OneDirect(q: Queue) {
    0 <= q.dcmdInFlight <= 1 && q.dcmdInFlight == Sum(q.reqs, DirectActive) + q.dcmdDecs
  }

  ghost predicate OneDispatcher(q: Queue) {
    && (q.dispatcher.Some? ==> q.dispatcher.value < |q.reqs|)
    && (forall i :: 0 <= i < |q.reqs| ==> (q.reqs[i].stage.Dispatching? <==> q.dispatcher == Some(i)))
  }

  ghost predicate HandlerInStep(q: Queue)
    requires |q.engine.slots| == NUM_SLOTS
  {
    && (q.recoveryNeeded <==> !q.phase.Idle?)
    && (q.phase.Scheduled? || q.phase.Running? || q.phase.Recovering? ==> q.engine.recoveryHalt)
    && (q.phase.Recovering? ==>
          q.phase.next <= NUM_SLOTS && forall t :: 0 <= t < q.phase.next ==> q.engine.slots[t].mrq.None?)
  }

  /** Recovery always has somebody to blame, or has blamed somebody already. */
  ghost predicate SomeoneToBlame(q: Queue)
    requires |q.engine.slots| == NUM_SLOTS
  {
    q.engine.recoveryHalt ==>
      match q.phase
      case Recovering(next, hit) => hit || BlamedFrom(q.engine.slots, next)
      case _ => BlamedFrom(q.engine.slots, 0)
  }

  /** One done per acceptance, and a failure count that tracks the retry counter. */
  ghost predicate Accounted(r: Request) {
    && r.accepted == r.done + (if r.stage.Issued? then 1 else 0)
    && (!r.prepped ==> r.stage.Queued? && r.failures == 0)
    && (r.prepped ==>
          && 0 <= r.retries <= CQE_RETRIES + (if r.stage.Ended? then 1 else 0)
          && r.failures == r.retries + (if r.stage.Finishing? && r.stage.error != 0 then 1 else 0))
  }

  ghost predicate AllAccounted(q: Queue) {
    forall i :: 0 <= i < |q.reqs| ==> Accounted(q.reqs[i])
  }

  ghost predicate RecoveriesCharged(q: Queue) {
    q.recoveries + (if q.phase.Recovering? && q.phase.hit then 1 else 0) <= Sum(q.reqs, Failures)
  }

  ghost predicate Inv(q: Queue) {
    && SlotsAgree(q) && TagsUnique(q) && OneDirect(q) && OneDispatcher(q)
    && HandlerInStep(q) && SomeoneToBlame(q) && AllAccounted(q) && RecoveriesCharged(q)
  }

  lemma InitInv(q: Queue)
    requires Init(q)
    ensures Inv(q)
  {
    SumZero(q.engine.slots, Occupied);
    SumZero(q.reqs, DirectActive);
    SumZero(q.reqs, Failures);
  }

  /** Two active requests never map to the same slot: tags, the direct-command slot and the depth conspire. */
  lemma SlotsDiffer(q: Queue, i: ReqId, j: ReqId)
    requires TagsUnique(q) && OneDirect(q)
    requires i < |q.reqs| && j < |q.reqs| && i != j
    requires Active(q.reqs[i]) && Active(q.reqs[j])
    ensures SlotOf(q.reqs[i]) != SlotOf(q.reqs[j])
  {
    if q.reqs[i].op.Direct? && q.reqs[j].op.Direct? {
      SumAtLeastTwo(q.reqs, DirectActive, Min(i, j), i + j - Min(i, j));
    } else if i < j {
      assert q.reqs[i].tag != q.reqs[j].tag;
    } else {
      assert q.reqs[j].tag != q.reqs[i].tag;
    }
  }

  // ----- every step keeps it -----

  /** q' differs from q in one request and perhaps in the engine, the handler and the counters. */
  ghost predicate Moves(q: Queue, q': Queue, id: ReqId) {
    && id < |q.reqs| && |q'.reqs| == |q.reqs|
    && q'.reqs == q.reqs[id := q'.reqs[id]]
    && q'.dcmd == q.dcmd && q'.depth == q.depth
  }

  lemma TagsKept(q: Queue, q': Queue, id: ReqId)
    requires TagsUnique(q) && Moves(q, q', id)
    requires Active(q'.reqs[id]) ==>
               Active(q.reqs[id]) && q'.reqs[id].tag == q.reqs[id].tag && q'.reqs[id].op == q.reqs[id].op
    ensures TagsUnique(q')
  {
  }

  lemma TagTaken(q: Queue, q': Queue, id: ReqId, tag: nat)
    requires TagsUnique(q) && |q.engine.slots| == NUM_SLOTS && Enabled(q, Dispatch(id, tag))
    requires Moves(q, q', id) && q'.reqs[id].tag == tag && q'.reqs[id].op == q.reqs[id].op
    ensures TagsUnique(q')
  {
  }

  lemma DispatcherKept(q: Queue, q': Queue, id: ReqId)
    requires OneDispatcher(q) && Moves(q, q', id)
    requires q'.reqs[id].stage.Dispatching? <==> q'.dispatcher == Some(id)
    requires q.dispatcher == q'.dispatcher || (q.dispatcher == Some(id) && q'.dispatcher.None?)
             || (q.dispatcher.None? && q'.dispatcher == Some(id))
    ensures OneDispatcher(q')
  {
  }

  lemma AccountsKept(q: Queue, q': Queue, id: ReqId)
    requires AllAccounted(q) && Moves(q, q', id) && Accounted(q'.reqs[id])
    ensures AllAccounted(q')
  {
  }

  lemma SumsMove(q: Queue, q': Queue, id: ReqId)
    requires Moves(q, q', id)
    ensures Sum(q'.reqs, DirectActive) + DirectActive(q.reqs[id]) == Sum(q.reqs, DirectActive) + DirectActive(q'.reqs[id])
    ensures Sum(q'.reqs, Failures) + q.reqs[id].failures == Sum(q.reqs, Failures) + q'.reqs[id].failures
  {
    SumUpdate(q.reqs, DirectActive, id, q'.reqs[id]);
    SumUpdate(q.reqs, Failures, id, q'.reqs[id]);
  }

  /** A request that neither was nor becomes issued does not disturb the slots. */
  lemma SlotsUntouched(q: Queue, q': Queue, id: ReqId)
    requires SlotsAgree(q) && Moves(q, q', id) && q'.engine == q.engine
    requires !q.reqs[id].stage.Issued? && !q'.reqs[id].stage.Issued?
    ensures SlotsAgree(q')
  {
  }

  lemma SlotFilled(q: Queue, q': Queue, id: ReqId, t: nat)
    requires SlotsAgree(q) && Moves(q, q', id) && t < NUM_SLOTS
    requires q.engine.slots[t].mrq.None? && q'.engine == Submit(q.engine, t, id).0 && !q.engine.recoveryHalt
    requires !q.reqs[id].stage.Issued? && q'.reqs[id].stage.Issued? && SlotOf(q'.reqs[id]) == t
    ensures SlotsAgree(q')
  {
    SubmitExact(q.engine, t, id);
  }

  lemma SlotVacated(q: Queue, q': Queue, id: ReqId, t: nat)
    requires SlotsAgree(q) && Moves(q, q', id) && t < NUM_SLOTS
    requires q.engine.slots[t].mrq == Some(id) && WellFormed(q'.engine)
    requires q'.engine.slots[t].mrq.None?
    requires forall s :: 0 <= s < NUM_SLOTS && s != t ==> q'.engine.slots[s] == q.engine.slots[s]
    requires !q'.reqs[id].stage.Issued?
    ensures SlotsAgree(q')
  {
  }

  lemma DispatchInv(q: Queue, id: ReqId, tag: nat)
    requires Inv(q) && Enabled(q, Dispatch(id, tag))
    ensures Inv(Step(q, Dispatch(id, tag)))
  {
    var q' := Step(q, Dispatch(id, tag));
    SumsMove(q, q', id);
    TagTaken(q, q', id, tag);
    DispatcherKept(q, q', id);
    AccountsKept(q, q', id);
    SlotsUntouched(q, q', id);
  }

  /** The slot a dispatched request is heading for is free. */
  lemma DestinationFree(q: Queue, id: ReqId)
    requires SlotsAgree(q) && TagsUnique(q) && OneDirect(q)
    requires id < |q.reqs| && q.reqs[id].stage.Dispatching?
    ensures SlotOf(q.reqs[id]) < NUM_SLOTS && q.engine.slots[SlotOf(q.reqs[id])].mrq.None?
  {
    var s := SlotOf(q.reqs[id]);
    if q.engine.slots[s].mrq.Some? {
      SlotsDiffer(q, id, q.engine.slots[s].mrq.value);
      assert false;
    }
  }

  lemma StartInv(q: Queue, prepError: int)
    requires Inv(q) && Enabled(q, Start(prepError))
    ensures Inv(Step(q, Start(prepError)))
  {
    var q' := Step(q, Start(prepError));
    var id := q.dispatcher.value;
    SumsMove(q, q', id);
    TagsKept(q, q', id);
    DispatcherKept(q, q', id);
    AccountsKept(q, q', id);
    StartSlots(q, prepError);
  }

  /** A request started fills its slot; one that could not be prepared touches none. */
  lemma StartSlots(q: Queue, prepError: int)
    requires Inv(q) && Enabled(q, Start(prepError))
    ensures SlotsAgree(Step(q, Start(prepError)))
  {
    var q' := Step(q, Start(prepError));
    var id := q.dispatcher.value;
    if q'.reqs[id].stage.Issued? {
      DestinationFree(q, id);
      SlotFilled(q, q', id, SlotOf(q.reqs[id]));
    } else {
      SlotsUntouched(q, q', id);
    }
  }

  lemma ErrorInterruptInv(q: Queue, c: Option<nat>, d: Option<nat>, ce: int, de: int)
    requires Inv(q) && Enabled(q, ErrorInterrupt(c, d, ce, de))
    ensures Inv(Step(q, ErrorInterrupt(c, d, ce, de)))
  {
    ErrorIrqBlames(q.engine, c, d, ce, de);
  }

  /** A request handed to its done callback, from a slot that becomes empty. */
  lemma DeliveredInv(q: Queue, q': Queue, id: ReqId, t: nat, error: int)
    requires Inv(q) && Moves(q, q', id) && t < NUM_SLOTS
    requires q.engine.slots[t].mrq == Some(id) && WellFormed(q'.engine) && q'.engine.slots[t].mrq.None?
    requires forall s :: 0 <= s < NUM_SLOTS && s != t ==> q'.engine.slots[s] == q.engine.slots[s]
    requires q'.reqs[id] == Delivered(q.reqs[id], error)
    requires q'.dispatcher == q.dispatcher && q'.dcmdInFlight == q.dcmdInFlight && q'.dcmdDecs == q.dcmdDecs
    ensures SlotsAgree(q') && TagsUnique(q') && OneDirect(q') && OneDispatcher(q') && AllAccounted(q')
    ensures Sum(q'.reqs, Failures) == Sum(q.reqs, Failures) + if error != 0 then 1 else 0
  {
    SumsMove(q, q', id);
    TagsKept(q, q', id);
    DispatcherKept(q, q', id);
    AccountsKept(q, q', id);
    SlotVacated(q, q', id, t);
  }

  lemma CompletionInv(q: Queue, slot: nat, error: int)
    requires Inv(q) && Enabled(q, Completion(slot, error))
    ensures Inv(Step(q, Completion(slot, error)))
  {
    var q' := Step(q, Completion(slot, error));
    FinishExact(q.engine, slot);
    if Finish(q.engine, slot).1.Some? {
      CompletionDelivers(q, slot, error);
    } else if q.engine.recoveryHalt {
      CompletionHeldBack(q, slot);
    }
  }

  lemma CompletionDelivers(q: Queue, slot: nat, error: int)
    requires Inv(q) && Enabled(q, Completion(slot, error)) && Finish(q.engine, slot).1.Some?
    ensures Inv(Step(q, Completion(slot, error)))
  {
    FinishExact(q.engine, slot);
    DeliveredInv(q, Step(q, Completion(slot, error)), Finish(q.engine, slot).1.value, slot, error);
  }

  /** During recovery a completion only marks the task, so the blame stays where it was. */
  lemma CompletionHeldBack(q: Queue, slot: nat)
    requires SlotsAgree(q) && SomeoneToBlame(q) && slot < NUM_SLOTS && q.engine.recoveryHalt
    ensures var q' := q.(engine := Finish(q.engine, slot).0);
            SlotsAgree(q') && SomeoneToBlame(q')
  {
    FinishExact(q.engine, slot);
    var e := Finish(q.engine, slot).0;
    if !(q.phase.Recovering? && q.phase.hit) {
      var from := if q.phase.Recovering? then q.phase.next else 0;
      var t :| from <= t < NUM_SLOTS && Blamed(q.engine.slots[t]);
      assert Blamed(e.slots[t]);
    }
  }

  lemma TimedOutInv(q: Queue, id: ReqId)
    requires Inv(q) && Enabled(q, TimedOut(id))
    ensures Inv(Step(q, TimedOut(id)))
  {
    TimeoutExact(q.engine, SlotOf(q.reqs[id]), id);
  }

  lemma RecoverOccupiedInv(q: Queue)
    requires Inv(q) && Enabled(q, RecoverSlot) && q.engine.slots[q.phase.next].mrq.Some?
    ensures var q' := Step(q, RecoverSlot);
            && SlotsAgree(q') && TagsUnique(q') && OneDirect(q') && OneDispatcher(q') && AllAccounted(q')
            && RecoveriesCharged(q')
  {
    var slot := q.engine.slots[q.phase.next];
    RecoverExact(q.engine, q.phase.next);
    DeliveredInv(q, Step(q, RecoverSlot), slot.mrq.value, q.phase.next, ErrorFromFlags(slot.flags));
  }

  lemma RecoverSlotInv(q: Queue)
    requires Inv(q) && Enabled(q, RecoverSlot)
    ensures Inv(Step(q, RecoverSlot))
  {
    var q' := Step(q, RecoverSlot);
    var n := q.phase.next;
    if q.engine.slots[n].mrq.Some? {
      RecoverOccupiedInv(q);
    } else {
      assert q' == q.(phase := Recovering(n + 1, q.phase.hit));
    }
    BlameLeft(q.engine, q'.engine, n, q.phase.hit, q'.phase.hit);
  }

  lemma BlameLeft(e: Engine, e': Engine, n: nat, hit: bool, hit': bool)
    requires WellFormed(e) && n < NUM_SLOTS && e' == Recover(e, n).0
    requires hit || BlamedFrom(e.slots, n)
    requires hit' == (hit || Blamed(e.slots[n]))
    ensures hit' || BlamedFrom(e'.slots, n + 1)
  {
    if !hit' {
      var t :| n <= t < NUM_SLOTS && Blamed(e.slots[t]);
      assert Blamed(e'.slots[t]);
    }
  }

  lemma RecoveryEndsInv(q: Queue)
    requires Inv(q) && Enabled(q, RecoveryEnds)
    ensures Inv(Step(q, RecoveryEnds))
  {
    SumZero(q.engine.slots, Occupied);
  }

  lemma CompleteInv(q: Queue, id: ReqId, more: bool)
    requires Inv(q) && Enabled(q, CompleteRq(id, more))
    ensures Inv(Step(q, CompleteRq(id, more)))
  {
    var q' := Step(q, CompleteRq(id, more));
    SumsMove(q, q', id);
    TagsKept(q, q', id);
    DispatcherKept(q, q', id);
    AccountsKept(q, q', id);
    SlotsUntouched(q, q', id);
  }

  lemma HandlerInv(q: Queue, ev: Event)
    requires Inv(q) && Enabled(q, ev)
    requires ev.HandlerRuns? || ev.Sweep? || ev.HandlerReturns? || ev.DropInFlight?
    ensures Inv(Step(q, ev))
  {
  }

  lemma StepInv(q: Queue, ev: Event)
    requires Inv(q) && Enabled(q, ev)
    ensures Inv(Step(q, ev))
  {
    match ev
    case Dispatch(id, tag) => DispatchInv(q, id, tag);
    case Start(prepError) => StartInv(q, prepError);
    case ErrorInterrupt(c, d, ce, de) => ErrorInterruptInv(q, c, d, ce, de);
    case Completion(slot, error) => CompletionInv(q, slot, error);
    case TimedOut(id) => TimedOutInv(q, id);
    case RecoverSlot => RecoverSlotInv(q);
    case RecoveryEnds => RecoveryEndsInv(q);
    case CompleteRq(id, more) => CompleteInv(q, id, more);
    case HandlerRuns | Sweep | HandlerReturns | DropInFlight => HandlerInv(q, ev);
  }

  lemma StepKeepsRequests(q: Queue, ev: Event)
    requires |q.engine.slots| == NUM_SLOTS && Enabled(q, ev)
    ensures |Step(q, ev).reqs| == |q.reqs|
  {
  }

  /** The invariant holds in every state of every run from a fresh queue. */
  lemma RunInv(run: seq<Queue>, k: nat)
    requires IsRun(Next, run) && Init(run[0]) && k < |run|
    ensures Inv(run[k]) && |run[k].reqs| == |run[0].reqs|
  {
    InitInv(run[0]);
    var n := |run[0].reqs|;
    var inv := (q: Queue) => Inv(q) && |q.reqs| == n;
    forall q, q' | inv(q) && Next(q, q')
      ensures inv(q')
    {
      var ev :| Enabled(q, ev) && q' == Step(q, ev);
      StepInv(q, ev);
      StepKeepsRequests(q, ev);
    }
    Invariance(Next, inv, run, k);
  }

  // ----- main results, at every state of every run from every fresh queue -----

  /**
   Forward progress: whenever the engine asks for recovery and recovery has not begun to hand
   tasks back, some queued task is blamed; and N requests see at most 3N recoveries however
   long the run is.
   */
  lemma RecoveryMakesProgress(run: seq<Queue>, k: nat)
    requires IsRun(Next, run) && Init(run[0]) && k < |run|
    ensures run[k].engine.recoveryHalt && !run[k].phase.Recovering? ==> BlamedFrom(run[k].engine.slots, 0)
    ensures run[k].recoveries <= 3 * |run[0].reqs|
    ensures forall i :: 0 <= i < |run[k].reqs| ==> run[k].reqs[i].failures <= 3
  {
    RunInv(run, k);
    SumBounded(run[k].reqs, Failures, CQE_RETRIES + 1);
  }

  /**
   Every acceptance by the engine is answered by exactly one done; nothing completes normally
   while recovery is pending; recovery never starts without having been asked for, and it ends
   with an empty table.
   */
  lemma DoneExactlyOnce(run: seq<Queue>, k: nat)
    requires IsRun(Next, run) && Init(run[0]) && k < |run|
    ensures var q := run[k];
            && WellFormed(q.engine)
            && (forall i :: 0 <= i < |q.reqs| ==>
                  q.reqs[i].accepted == q.reqs[i].done + if q.reqs[i].stage.Issued? then 1 else 0)
            && (forall slot, error :: 0 <= slot < NUM_SLOTS && q.engine.recoveryHalt ==>
                  CompletionStep(q, slot, error).reqs == q.reqs)
            && (q.phase.Scheduled? || q.phase.Running? || q.phase.Recovering? ==> q.engine.recoveryHalt)
            && (q.phase == Recovering(NUM_SLOTS, true) || q.phase == Recovering(NUM_SLOTS, false) ==>
                  q.engine.qcnt == 0)
  {
    RunInv(run, k);
    var q := run[k];
    if q.phase.Recovering? && q.phase.next == NUM_SLOTS {
      SumZero(q.engine.slots, Occupied);
    }
  }

  /**
   A notification that fell between the engine's restart and the end of the recovery work is not
   lost for good: a queued task is blamed, and its timeout schedules the work again.
   */
  lemma LostNotificationFound(run: seq<Queue>, k: nat)
    requires IsRun(Next, run) && Init(run[0]) && k < |run|
    requires run[k].engine.recoveryHalt && run[k].phase.Idle?
    ensures |run[k].engine.slots| == NUM_SLOTS
    ensures exists id :: Enabled(run[k], TimedOut(id)) && Step(run[k], TimedOut(id)).phase.Scheduled?
  {
    RunInv(run, k);
    var q := run[k];
    var t :| 0 <= t < NUM_SLOTS && Blamed(q.engine.slots[t]);
    var id := q.engine.slots[t].mrq.value;
    assert Enabled(q, TimedOut(id)) && Step(q, TimedOut(id)).phase.Scheduled?;
  }

  /** No two requests in flight ever use the same hardware slot, and a direct command is alone in slot 31. */
  lemma SlotsNeverShared(run: seq<Queue>, k: nat)
    requires IsRun(Next, run) && Init(run[0]) && k < |run|
    ensures var q := run[k];
            && (forall i, j :: 0 <= i < |q.reqs| && 0 <= j < |q.reqs| && i != j && Active(q.reqs[i]) && Active(q.reqs[j]) ==>
                  SlotOf(q.reqs[i]) != SlotOf(q.reqs[j]))
            && (forall i :: 0 <= i < |q.reqs| && Active(q.reqs[i]) ==>
                  && SlotOf(q.reqs[i]) < NUM_SLOTS
                  && (q.dcmd ==> (SlotOf(q.reqs[i]) == DCMD_SLOT <==> q.reqs[i].op.Direct?)))
            && WellFormed(q.engine)
            && (forall i :: 0 <= i < |q.reqs| && q.reqs[i].stage.Dispatching? ==>
                  q.engine.slots[SlotOf(q.reqs[i])].mrq.None?)
  {
    RunInv(run, k);
    var q := run[k];
    forall i, j | 0 <= i < |q.reqs| && 0 <= j < |q.reqs| && i != j && Active(q.reqs[i]) && Active(q.reqs[j])
      ensures SlotOf(q.reqs[i]) != SlotOf(q.reqs[j])
    {
      SlotsDiffer(q, i, j);
    }
    forall i | 0 <= i < |q.reqs| && q.reqs[i].stage.Dispatching?
      ensures q.engine.slots[SlotOf(q.reqs[i])].mrq.None?
    {
      DestinationFree(q, i);
    }
  }
}
