/** The command-queue driver as it works: fields updated in place and loops over the slots. */
module CqHostDriver {
  import opened Basics
  import opened Sums
  import opened CqEngine

  /** A table counts nothing just when all its slots are free. */
  lemma CountIsOccupancy(slots: seq<Slot>)
    ensures Sum(slots, Occupied) == 0 <==> forall t :: 0 <= t < |slots| ==> slots[t].mrq.None?
  {
    if exists t :: 0 <= t < |slots| && slots[t].mrq.Some? {
      var t :| 0 <= t < |slots| && slots[t].mrq.Some?;
      SumAtLeast(slots, Occupied, t);
    } else {
      SumZero(slots, Occupied);
    }
  }

  class CqHost {
    const slot: array<Slot>
    var qcnt: int
    var recoveryHalt: bool
    var waitingForIdle: bool
    /** Requests handed to mmc_cqe_request_done, oldest first. */
    var done: seq<ReqId>
    /** The subset handed back by recovery, with their errors. */
    var recovered: seq<Outcome>
    /** Calls of the recovery notifier. */
    var notified: nat

    ghost predicate Valid()
      reads this, slot
    {
      slot.Length == NUM_SLOTS
    }

    ghost function View(): Engine
      reads this, slot
    {
      Engine(slot[..], qcnt, recoveryHalt, waitingForIdle)
    }

    constructor ()
      ensures Valid() && WellFormed(View())
      ensures !recoveryHalt && done == [] && recovered == [] && notified == 0
    {
      slot := new Slot[NUM_SLOTS](_ => Slot(None, {}));
      qcnt, recoveryHalt, waitingForIdle := 0, false, false;
      done, recovered, notified := [], [], 0;
      new;
      SumZero(slot[..], Occupied);
    }

    method Request(tag: nat, id: ReqId) returns (err: int)
      requires Valid() && tag < NUM_SLOTS
      modifies this, slot
      ensures Valid() && (View(), err) == Submit(old(View()), tag, id)
      ensures done == old(done) && recovered == old(recovered) && notified == old(notified)
    {
      if recoveryHalt {
        return EBUSY;
      }
      slot[tag] := Slot(Some(id), {});
      qcnt := qcnt + 1;
      return 0;
    }

    method RecoveryNeeded(notify: bool)
      requires Valid()
      modifies this`recoveryHalt, this`notified
      ensures Valid() && recoveryHalt
      ensures notified == old(notified) + if notify && !old(recoveryHalt) then 1 else 0
    {
      if !recoveryHalt {
        recoveryHalt := true;
        if notify {
          notified := notified + 1;
        }
      }
    }

    method BlameTask(tag: nat, flag: Flag)
      requires Valid() && tag < NUM_SLOTS
      modifies this`recoveryHalt, this`notified, slot
      ensures Valid() && View() == Blame(old(View()), tag, flag)
      ensures notified == old(notified) + if recoveryHalt && !old(recoveryHalt) then 1 else 0
    {
      if slot[tag].mrq.Some? {
        slot[tag] := slot[tag].(flags := {flag});
        RecoveryNeeded(true);
      }
    }

    /** The notifier runs exactly when this interrupt is the one that starts recovery. */
    method ErrorInterrupt(cmdTask: Option<nat>, dataTask: Option<nat>, cmdError: int, dataError: int)
      requires Valid()
      requires cmdTask.Some? ==> cmdTask.value < NUM_SLOTS
      requires dataTask.Some? ==> dataTask.value < NUM_SLOTS
      modifies this`recoveryHalt, this`notified, slot
      ensures Valid() && View() == ErrorIrq(old(View()), cmdTask, dataTask, cmdError, dataError)
      ensures notified == old(notified) + if recoveryHalt && !old(recoveryHalt) then 1 else 0
    {
      if recoveryHalt || qcnt == 0 {
        return;
      }
      if cmdTask.Some? {
        BlameTask(cmdTask.value, ErrorFlag(cmdError, dataError));
      }
      if dataTask.Some? {
        BlameTask(dataTask.value, ErrorFlag(dataError, cmdError));
      }
      if !recoveryHalt {
        var tag := 0;
        while tag < NUM_SLOTS && slot[tag].mrq.None?
          invariant tag <= NUM_SLOTS
          invariant FirstOccupied(slot[..], 0) == FirstOccupied(slot[..], tag)
        {
          tag := tag + 1;
        }
        assert FirstOccupied(slot[..], 0) == tag;
        if tag < NUM_SLOTS {
          BlameTask(tag, ErrorFlag(dataError, cmdError));
        }
      }
    }

    method FinishMrq(tag: nat)
      requires Valid() && tag < NUM_SLOTS
      modifies this`qcnt, this`done, slot
      ensures Valid() && View() == Finish(old(View()), tag).0
      ensures var d := Finish(old(View()), tag).1;
              done == old(done) + if d.Some? then [d.value] else []
    {
      var mrq := slot[tag].mrq;
      if mrq.None? {
        return;
      }
      if recoveryHalt {
        slot[tag] := slot[tag].(flags := slot[tag].flags + {Completed});
        return;
      }
      slot[tag] := slot[tag].(mrq := None);
      qcnt := qcnt - 1;
      done := done + [mrq.value];
    }

    /** The completion part of the interrupt handler, under one lock. */
    method CompletionInterrupt(mask: set<nat>)
      requires Valid()
      modifies this`qcnt, this`done, this`waitingForIdle, slot
      ensures Valid() && View() == FinishAll(old(View()), mask, 0).0
      ensures done == old(done) + FinishAll(old(View()), mask, 0).1
    {
      ghost var e0 := View();
      for tag := 0 to NUM_SLOTS
        invariant Valid() && waitingForIdle == old(waitingForIdle)
        invariant FinishAll(View(), mask, tag).0 == FinishAll(e0, mask, 0).0
        invariant done + FinishAll(View(), mask, tag).1 == old(done) + FinishAll(e0, mask, 0).1
      {
        if tag in mask {
          ghost var e, d := View(), done;
          FinishMrq(tag);
          ghost var rest := FinishAll(View(), mask, tag + 1).1;
          ghost var one := Finish(e, tag).1;
          assert d + ((if one.Some? then [one.value] else []) + rest) == done + rest;
        }
      }
      if waitingForIdle && qcnt == 0 {
        waitingForIdle := false;
      }
    }

    /** The predicate polled by cqhci_wait_for_idle: without an error the wait ends only when nothing is queued. */
    method IsIdle() returns (idle: bool, ret: int)
      requires Valid()
      modifies this`waitingForIdle
      ensures Valid() && idle == (qcnt == 0 || recoveryHalt)
      ensures ret == (if recoveryHalt then EBUSY else 0)
      ensures waitingForIdle == !idle
      ensures WellFormed(View()) && idle && ret == 0 ==> forall t :: 0 <= t < NUM_SLOTS ==> slot[t].mrq.None?
      ensures WellFormed(View()) && !idle ==> exists t :: 0 <= t < NUM_SLOTS && slot[t].mrq.Some?
    {
      CountIsOccupancy(slot[..]);
      idle := qcnt == 0 || recoveryHalt;
      ret := if recoveryHalt then EBUSY else 0;
      waitingForIdle := !idle;
    }

    method TimeoutMrq(tag: nat, id: ReqId) returns (timedOut: bool, recoveryNeeded: bool)
      requires Valid() && tag < NUM_SLOTS
      modifies this`recoveryHalt, this`notified, slot
      ensures Valid() && (View(), timedOut) == Timeout(old(View()), tag, id)
      ensures recoveryNeeded == timedOut && notified == old(notified)
    {
      timedOut := slot[tag].mrq == Some(id);
      recoveryNeeded := false;
      if timedOut {
        slot[tag] := slot[tag].(flags := slot[tag].flags + {ExternalTimeout});
        RecoveryNeeded(false);
        recoveryNeeded := recoveryHalt;
      }
    }

    method RecoverMrq(tag: nat)
      requires Valid() && tag < NUM_SLOTS
      modifies this`qcnt, this`recovered, slot
      ensures Valid() && View() == Recover(old(View()), tag).0
      ensures var d := Recover(old(View()), tag).1;
              recovered == old(recovered) + if d.Some? then [d.value] else []
    {
      var s := slot[tag];
      if s.mrq.None? {
        return;
      }
      slot[tag] := s.(mrq := None);
      qcnt := qcnt - 1;
      recovered := recovered + [Outcome(s.mrq.value, ErrorFromFlags(s.flags))];
    }

    /**
     cqhci_recovery_finish once the hardware is quiet. The count reaches zero by itself
     (warn stays false), so the forced reset that follows changes nothing.
     */
    method RecoveryFinish() returns (warn: bool)
      requires Valid() && WellFormed(View())
      modifies this`qcnt, this`recovered, this`recoveryHalt, slot
      ensures Valid() && WellFormed(View()) && !warn
      ensures qcnt == 0 && !recoveryHalt
      ensures forall t :: 0 <= t < NUM_SLOTS ==> slot[t].mrq.None?
      ensures recovered == old(recovered) + Owed(old(View()).slots, 0)
    {
      ghost var e0 := View();
      for tag := 0 to NUM_SLOTS
        invariant Valid() && recoveryHalt == old(recoveryHalt) && waitingForIdle == old(waitingForIdle)
        invariant RecoverAll(View(), tag).0 == RecoverAll(e0, 0).0
        invariant recovered + RecoverAll(View(), tag).1 == old(recovered) + RecoverAll(e0, 0).1
      {
        ghost var e, d := View(), recovered;
        RecoverMrq(tag);
        ghost var rest := RecoverAll(View(), tag + 1).1;
        ghost var one := Recover(e, tag).1;
        assert d + ((if one.Some? then [one.value] else []) + rest) == recovered + rest;
      }
      assert recovered == recovered + RecoverAll(View(), NUM_SLOTS).1;
      RecoverAllExact(e0, 0);
      assert View() == RecoverAll(e0, 0).0;
      warn := qcnt != 0;
      qcnt := 0;
      recoveryHalt := false;
      forall t | 0 <= t < NUM_SLOTS
        ensures slot[t].mrq.None?
      {
        assert slot[t] == View().slots[t];
      }
      SumZero(slot[..], Occupied);
    }
  }
}
