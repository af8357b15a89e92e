/**
 The slot table of the command-queue host controller interface (mmc/host/cqhci.c).
 Every lock-protected section of the driver is one function on Engine values; class CqHost
 performs the same sections on mutable fields, with the driver's loops, and is proved
 against those functions.
 */
module CqEngine {
  import opened Basics
  import opened Sums

  const NUM_SLOTS: nat := 32
  const DCMD_SLOT: nat := 31

  datatype Flag = ExternalTimeout | Completed | HostCrc | HostTimeout | HostOther

  datatype Slot = Slot(mrq: Option<ReqId>, flags: set<Flag>)

  datatype Engine = Engine(slots: seq<Slot>, qcnt: int, recoveryHalt: bool, waitingForIdle: bool)

  /** What mmc_cqe_request_done is told about a request during recovery. */
  datatype Outcome = Outcome(id: ReqId, error: int)

  function Occupied(s: Slot): nat {
    if s.mrq.Some? then 1 else 0
  }

  ghost predicate WellFormed(e: Engine) {
    |e.slots| == NUM_SLOTS && e.qcnt == Sum(e.slots, Occupied)
  }

  /** An occupied slot that recovery will report as failed. */
  predicate Blamed(s: Slot) {
    s.mrq.Some? && s.flags != {}
  }

  ghost predicate BlamedFrom(slots: seq<Slot>, from: nat) {
    exists t :: from <= t < |slots| && Blamed(slots[t])
  }

  function ErrorFlag(error1: int, error2: int): Flag {
    var error := if error1 != 0 then error1 else error2;
    if error == EILSEQ then HostCrc else if error == ETIMEDOUT then HostTimeout else HostOther
  }

  function ErrorFromFlags(flags: set<Flag>): (error: int)
    ensures error == 0 <==> flags == {}
  {
    if flags == {} then 0
    else if HostCrc in flags then EILSEQ
    else if ExternalTimeout in flags || HostTimeout in flags then ETIMEDOUT
    else EIO
  }

  /** cqhci_request, from the lock on: the task is queued unless recovery has been asked for. */
  function Submit(e: Engine, tag: nat, id: ReqId): (Engine, int)
    requires tag < |e.slots|
  {
    if e.recoveryHalt then (e, EBUSY)
    else (e.(slots := e.slots[tag := Slot(Some(id), {})], qcnt := e.qcnt + 1), 0)
  }

  /** Blame the task in a slot and ask for recovery; an empty slot is left alone. */
  function Blame(e: Engine, tag: nat, flag: Flag): Engine
    requires tag < |e.slots|
  {
    if e.slots[tag].mrq.Some? then
      e.(slots := e.slots[tag := e.slots[tag].(flags := {flag})], recoveryHalt := true)
    else e
  }

  function BlameOption(e: Engine, tag: Option<nat>, flag: Flag): Engine
    requires tag.Some? ==> tag.value < |e.slots|
  {
    if tag.Some? then Blame(e, tag.value, flag) else e
  }

  function FirstOccupied(slots: seq<Slot>, from: nat): (t: nat)
    requires from <= |slots|
    ensures from <= t <= |slots|
    ensures t < |slots| ==> slots[t].mrq.Some?
    ensures forall i :: from <= i < t ==> slots[i].mrq.None?
    decreases |slots| - from
  {
    if from == |slots| || slots[from].mrq.Some? then from else FirstOccupied(slots, from + 1)
  }

  /** cqhci_error_irq: blame the indicated tasks, or else the first queued one. */
  function ErrorIrq(e: Engine, cmdTask: Option<nat>, dataTask: Option<nat>, cmdError: int, dataError: int): Engine
    requires cmdTask.Some? ==> cmdTask.value < |e.slots|
    requires dataTask.Some? ==> dataTask.value < |e.slots|
  {
    if e.recoveryHalt || e.qcnt == 0 then e
    else
      var e1 := BlameOption(e, cmdTask, ErrorFlag(cmdError, dataError));
      var e2 := BlameOption(e1, dataTask, ErrorFlag(dataError, cmdError));
      if e2.recoveryHalt then e2
      else
        var t := FirstOccupied(e2.slots, 0);
        if t < |e2.slots| then Blame(e2, t, ErrorFlag(dataError, cmdError)) else e2
  }

  /** cqhci_finish_mrq: a completion is delivered only outside recovery. */
  function Finish(e: Engine, tag: nat): (Engine, Option<ReqId>)
    requires tag < |e.slots|
  {
    var slot := e.slots[tag];
    if slot.mrq.None? then (e, None)
    else if e.recoveryHalt then
      (e.(slots := e.slots[tag := slot.(flags := slot.flags + {Completed})]), None)
    else
      (e.(slots := e.slots[tag := slot.(mrq := None)], qcnt := e.qcnt - 1), slot.mrq)
  }

  /** The completion section of cqhci_irq: all tags of the notification mask, in order. */
  function FinishAll(e: Engine, mask: set<nat>, from: nat): (r: (Engine, seq<ReqId>))
    requires from <= |e.slots|
    ensures |r.0.slots| == |e.slots|
    decreases |e.slots| - from
  {
    if from == |e.slots| then
      (if e.waitingForIdle && e.qcnt == 0 then e.(waitingForIdle := false) else e, [])
    else if from in mask then
      var (e1, done) := Finish(e, from);
      var (e2, rest) := FinishAll(e1, mask, from + 1);
      (e2, (if done.Some? then [done.value] else []) + rest)
    else FinishAll(e, mask, from + 1)
  }

  /** cqhci_timeout: the second component tells whether the request was still queued. */
  function Timeout(e: Engine, tag: nat, id: ReqId): (Engine, bool)
    requires tag < |e.slots|
  {
    var slot := e.slots[tag];
    if slot.mrq == Some(id) then
      (e.(slots := e.slots[tag := slot.(flags := slot.flags + {ExternalTimeout})], recoveryHalt := true), true)
    else (e, false)
  }

  /** cqhci_recover_mrq: hand a queued request back with the error its flags stand for. */
  function Recover(e: Engine, tag: nat): (Engine, Option<Outcome>)
    requires tag < |e.slots|
  {
    var slot := e.slots[tag];
    if slot.mrq.None? then (e, None)
    else
      (e.(slots := e.slots[tag := slot.(mrq := None)], qcnt := e.qcnt - 1),
       Some(Outcome(slot.mrq.value, ErrorFromFlags(slot.flags))))
  }

  function RecoverAll(e: Engine, from: nat): (r: (Engine, seq<Outcome>))
    requires from <= |e.slots|
    ensures |r.0.slots| == |e.slots|
    decreases |e.slots| - from
  {
    if from == |e.slots| then (e, [])
    else
      var (e1, done) := Recover(e, from);
      var (e2, rest) := RecoverAll(e1, from + 1);
      (e2, (if done.Some? then [done.value] else []) + rest)
  }

  /** The outcomes recovery owes to the tasks queued at or above a slot. */
  function Owed(slots: seq<Slot>, from: nat): seq<Outcome>
    requires from <= |slots|
    decreases |slots| - from
  {
    if from == |slots| then []
    else
      (if slots[from].mrq.Some? then [Outcome(slots[from].mrq.value, ErrorFromFlags(slots[from].flags))] else [])
      + Owed(slots, from + 1)
  }

  // ----- what the sections guarantee -----

  lemma SubmitExact(e: Engine, tag: nat, id: ReqId)
    requires WellFormed(e) && tag < NUM_SLOTS && e.slots[tag].mrq.None?
    ensures WellFormed(Submit(e, tag, id).0)
  {
    SumUpdate(e.slots, Occupied, tag, Slot(Some(id), {}));
  }

  /** An error interrupt with tasks queued always ends in recovery with a task to blame, moving no task. */
  lemma ErrorIrqBlames(e: Engine, cmdTask: Option<nat>, dataTask: Option<nat>, cmdError: int, dataError: int)
    requires WellFormed(e)
    requires cmdTask.Some? ==> cmdTask.value < NUM_SLOTS
    requires dataTask.Some? ==> dataTask.value < NUM_SLOTS
    ensures var e' := ErrorIrq(e, cmdTask, dataTask, cmdError, dataError);
            && WellFormed(e')
            && e'.qcnt == e.qcnt
            && (forall t :: 0 <= t < NUM_SLOTS ==> e'.slots[t].mrq == e.slots[t].mrq)
            && (e'.recoveryHalt <==> e.recoveryHalt || e.qcnt != 0)
            && (!e.recoveryHalt && e.qcnt != 0 ==> BlamedFrom(e'.slots, 0))
  {
    if !e.recoveryHalt && e.qcnt != 0 {
      var f, g := ErrorFlag(cmdError, dataError), ErrorFlag(dataError, cmdError);
      var e1 := BlameOption(e, cmdTask, f);
      BlameExact(e, cmdTask, f);
      var e2 := BlameOption(e1, dataTask, g);
      BlameExact(e1, dataTask, g);
      if !e2.recoveryHalt {
        var t := FirstOccupied(e2.slots, 0);
        if t == NUM_SLOTS {
          SumZero(e2.slots, Occupied);
        }
        BlameExact(e2, Some(t), g);
      }
    }
  }

  /** The task named by an error interrupt, when there is one in that slot. */
  predicate Names(e: Engine, tag: Option<nat>, t: nat)
    requires t < |e.slots|
  {
    tag == Some(t) && e.slots[t].mrq.Some?
  }

  /**
   Exactly the named tasks are blamed, a task named twice for its data error; if no queued task
   is named, exactly the first queued one is blamed. No other slot changes.
   */
  lemma ErrorIrqBlamesNamed(e: Engine, cmdTask: Option<nat>, dataTask: Option<nat>, cmdError: int, dataError: int, t: nat)
    requires WellFormed(e) && t < NUM_SLOTS && !e.recoveryHalt && e.qcnt != 0
    requires cmdTask.Some? ==> cmdTask.value < NUM_SLOTS
    requires dataTask.Some? ==> dataTask.value < NUM_SLOTS
    ensures var s' := ErrorIrq(e, cmdTask, dataTask, cmdError, dataError).slots[t];
            var nobody := forall u :: 0 <= u < NUM_SLOTS ==> !Names(e, cmdTask, u) && !Names(e, dataTask, u);
            var first := e.slots[t].mrq.Some? && forall u :: 0 <= u < t ==> e.slots[u].mrq.None?;
            s' == if Names(e, dataTask, t) || (nobody && first) then e.slots[t].(flags := {ErrorFlag(dataError, cmdError)})
                  else if Names(e, cmdTask, t) then e.slots[t].(flags := {ErrorFlag(cmdError, dataError)})
                  else e.slots[t]
  {
    var f, g := ErrorFlag(cmdError, dataError), ErrorFlag(dataError, cmdError);
    var e1 := BlameOption(e, cmdTask, f);
    var e2 := BlameOption(e1, dataTask, g);
    if e2.recoveryHalt {
      assert (cmdTask.Some? && Names(e, cmdTask, cmdTask.value)) || (dataTask.Some? && Names(e, dataTask, dataTask.value));
    } else {
      assert e2 == e;
      var u := FirstOccupied(e2.slots, 0);
    }
  }

  /** The error a blamed task is reported with is the one the interrupt carried, generic errors as -EIO. */
  lemma BlamedErrorSurvives(error1: int, error2: int)
    ensures var error := if error1 != 0 then error1 else error2;
            ErrorFromFlags({ErrorFlag(error1, error2)}) == if error == EILSEQ || error == ETIMEDOUT then error else EIO
  {
    var error := if error1 != 0 then error1 else error2;
    var flags := {ErrorFlag(error1, error2)};
    assert HostCrc in flags <==> error == EILSEQ;
    assert HostTimeout in flags <==> error == ETIMEDOUT;
  }

  lemma BlameExact(e: Engine, tag: Option<nat>, flag: Flag)
    requires WellFormed(e)
    requires tag.Some? ==> tag.value < NUM_SLOTS
    ensures var e' := BlameOption(e, tag, flag);
            && WellFormed(e')
            && e'.qcnt == e.qcnt
            && (forall t :: 0 <= t < NUM_SLOTS ==> e'.slots[t].mrq == e.slots[t].mrq)
            && (e'.recoveryHalt <==> e.recoveryHalt || (tag.Some? && e.slots[tag.value].mrq.Some?))
            && (forall t :: 0 <= t < NUM_SLOTS && Blamed(e.slots[t]) ==> Blamed(e'.slots[t]))
            && (tag.Some? && e.slots[tag.value].mrq.Some? ==> Blamed(e'.slots[tag.value]))
  {
    if tag.Some? && e.slots[tag.value].mrq.Some? {
      SumUpdate(e.slots, Occupied, tag.value, e.slots[tag.value].(flags := {flag}));
    }
  }

  /** A completion empties its slot only outside recovery; inside, the task stays queued. */
  lemma FinishExact(e: Engine, tag: nat)
    requires WellFormed(e) && tag < NUM_SLOTS
    ensures var (e', done) := Finish(e, tag);
            && WellFormed(e')
            && e'.recoveryHalt == e.recoveryHalt
            && (done.Some? <==> !e.recoveryHalt && e.slots[tag].mrq.Some?)
            && (e.recoveryHalt ==> e'.qcnt == e.qcnt)
            && (forall t :: 0 <= t < NUM_SLOTS && Blamed(e.slots[t]) && e.recoveryHalt ==> Blamed(e'.slots[t]))
  {
    var slot := e.slots[tag];
    if slot.mrq.Some? {
      SumUpdate(e.slots, Occupied, tag, slot.(mrq := None));
      SumUpdate(e.slots, Occupied, tag, slot.(flags := slot.flags + {Completed}));
    }
  }

  lemma TimeoutExact(e: Engine, tag: nat, id: ReqId)
    requires WellFormed(e) && tag < NUM_SLOTS
    ensures var (e', timedOut) := Timeout(e, tag, id);
            && WellFormed(e')
            && (timedOut ==> e'.recoveryHalt && Blamed(e'.slots[tag]))
            && (forall t :: 0 <= t < NUM_SLOTS ==> e'.slots[t].mrq == e.slots[t].mrq)
            && (forall t :: 0 <= t < NUM_SLOTS && Blamed(e.slots[t]) ==> Blamed(e'.slots[t]))
  {
    var slot := e.slots[tag];
    if slot.mrq == Some(id) {
      SumUpdate(e.slots, Occupied, tag, slot.(flags := slot.flags + {ExternalTimeout}));
    }
  }

  lemma RecoverExact(e: Engine, tag: nat)
    requires WellFormed(e) && tag < NUM_SLOTS
    ensures WellFormed(Recover(e, tag).0)
  {
    if e.slots[tag].mrq.Some? {
      SumUpdate(e.slots, Occupied, tag, e.slots[tag].(mrq := None));
    }
  }

  /**
   A whole recovery hands every queued task back exactly once, with the error of its own
   flags, and leaves the table empty, so that the count is zero without being forced to zero.
   */
  lemma {:induction false} RecoverAllExact(e: Engine, from: nat)
    requires WellFormed(e) && from <= NUM_SLOTS
    requires forall t :: 0 <= t < from ==> e.slots[t].mrq.None?
    ensures var (e', done) := RecoverAll(e, from);
            && done == Owed(e.slots, from)
            && (forall t :: 0 <= t < NUM_SLOTS ==> e'.slots[t].mrq.None?)
            && e'.qcnt == 0
            && e'.recoveryHalt == e.recoveryHalt
    decreases NUM_SLOTS - from
  {
    if from == NUM_SLOTS {
      SumZero(e.slots, Occupied);
    } else {
      RecoverExact(e, from);
      var e1 := Recover(e, from).0;
      RecoverAllExact(e1, from + 1);
      OwedDependsAbove(e.slots, e1.slots, from + 1);
    }
  }

  lemma {:induction false} OwedDependsAbove(a: seq<Slot>, b: seq<Slot>, from: nat)
    requires |a| == |b| && from <= |a|
    requires forall t :: from <= t < |a| ==> a[t] == b[t]
    ensures Owed(a, from) == Owed(b, from)
    decreases |a| - from
  {
    if from < |a| {
      OwedDependsAbove(a, b, from + 1);
    }
  }

  /** If any queued task is blamed, recovery reports at least one failure. */
  lemma {:induction false} BlameIsReported(slots: seq<Slot>, from: nat)
    requires from <= |slots| && BlamedFrom(slots, from)
    ensures exists i :: 0 <= i < |Owed(slots, from)| && Owed(slots, from)[i].error != 0
    decreases |slots| - from
  {
    var head := if slots[from].mrq.Some?
                then [Outcome(slots[from].mrq.value, ErrorFromFlags(slots[from].flags))] else [];
    var rest := Owed(slots, from + 1);
    assert Owed(slots, from) == head + rest;
    if Blamed(slots[from]) {
      assert Owed(slots, from)[0].error != 0;
    } else {
      BlameIsReported(slots, from + 1);
      var i :| 0 <= i < |rest| && rest[i].error != 0;
      assert (head + rest)[|head| + i] == rest[i];
    }
  }
}
