/** Which functions of an SDIO card have an interrupt handler, and which handlers an interrupt runs. */
module SdioIrq {
  import opened Basics
  import opened Sums

  type Handler = nat

  /** One access to a register of the card: a failing write may take effect all the same. */
  datatype Io = Io(readErr: int, writeErr: int, took: bool)

  /** 1 << num */
  function Flag(num: nat): bv8
    requires num < 8
  {
    if num == 0 then 0x01 else if num == 1 then 0x02 else if num == 2 then 0x04 else if num == 3 then 0x08
    else if num == 4 then 0x10 else if num == 5 then 0x20 else if num == 6 then 0x40 else 0x80
  }

  predicate IsSet(reg: bv8, num: nat)
    requires num < 8
  {
    reg & Flag(num) != 0
  }

  function Claimed(h: Option<Handler>): nat {
    if h.Some? then 1 else 0
  }

  /** Interrupts are enabled for every function with a handler, and at all. */
  predicate Enabled(reg: bv8, handlers: seq<Option<Handler>>)
    requires |handlers| <= 7
  {
    forall i :: 0 <= i < |handlers| && handlers[i].Some? ==> IsSet(reg, i + 1) && IsSet(reg, 0)
  }

  lemma SettingBits(reg: bv8, num: nat, k: nat)
    requires num < 8 && k < 8
    ensures var reg' := reg | Flag(num) | 1;
            IsSet(reg', num) && IsSet(reg', 0) && (IsSet(reg, k) ==> IsSet(reg', k))
  {
  }

  lemma ClearingBit(reg: bv8, num: nat, k: nat)
    requires 1 <= num < 8 && k < 8 && k != num
    ensures IsSet(reg & !Flag(num), k) <==> IsSet(reg, k)
    ensures !IsSet(reg & !Flag(num), num)
  {
  }

  lemma SomeFunctionBit(reg: bv8, k: nat)
    requires 1 <= k < 8 && IsSet(reg, k)
    ensures reg & 0xFE != 0
  {
  }

  /** The value sdio_claim_irq writes. */
  function With(reg: bv8, num: nat): bv8
    requires num < 8
  {
    reg | Flag(num) | 1
  }

  /** The value sdio_release_irq writes: the master bit goes with the last function. */
  function Without(reg: bv8, num: nat): bv8
    requires num < 8
  {
    var r := reg & !Flag(num);
    if r & 0xFE == 0 then 0 else r
  }

  lemma EnabledWith(reg: bv8, handlers: seq<Option<Handler>>, f: nat, h: Handler)
    requires |handlers| <= 7 && f < |handlers| && Enabled(reg, handlers)
    ensures Enabled(With(reg, f + 1), handlers)
    ensures Enabled(With(reg, f + 1), handlers[f := Some(h)])
  {
    SettingBits(reg, f + 1, 0);
    forall i | 0 <= i < |handlers| && (i == f || handlers[i].Some?)
      ensures IsSet(With(reg, f + 1), i + 1) && IsSet(With(reg, f + 1), 0)
    {
      SettingBits(reg, f + 1, i + 1);
    }
  }

  lemma WithoutKeeps(reg: bv8, num: nat, k: nat)
    requires 1 <= num < 8 && 1 <= k < 8 && k != num && IsSet(reg, k) && IsSet(reg, 0)
    ensures IsSet(Without(reg, num), k) && IsSet(Without(reg, num), 0)
  {
    ClearingBit(reg, num, 0);
    ClearingBit(reg, num, k);
    SomeFunctionBit(reg & !Flag(num), k);
  }

  lemma WithoutClears(reg: bv8, num: nat)
    requires 1 <= num < 8
    ensures !IsSet(Without(reg, num), num)
  {
    ClearingBit(reg, num, 0);
  }

  lemma EnabledWithout(reg: bv8, handlers: seq<Option<Handler>>, f: nat)
    requires |handlers| <= 7 && f < |handlers| && Enabled(reg, handlers) && handlers[f] == None
    ensures Enabled(Without(reg, f + 1), handlers) && !IsSet(Without(reg, f + 1), f + 1)
  {
    WithoutClears(reg, f + 1);
    forall i | 0 <= i < |handlers| && handlers[i].Some?
      ensures IsSet(Without(reg, f + 1), i + 1) && IsSet(Without(reg, f + 1), 0)
    {
      WithoutKeeps(reg, f + 1, i + 1);
    }
  }

  lemma EnabledFewer(reg: bv8, handlers: seq<Option<Handler>>, f: nat)
    requires |handlers| <= 7 && f < |handlers| && Enabled(reg, handlers)
    ensures Enabled(reg, handlers[f := None])
  {
  }

  /** sdio_single_irq_set finds the first function with a handler, if there is but one and the host signals interrupts. */
  predicate SingleOk(single: Option<nat>, handlers: seq<Option<Handler>>, capIrq: bool) {
    if capIrq && Sum(handlers, Claimed) == 1 then
      single.Some? && single.value < |handlers| && handlers[single.value].Some?
    else single == None
  }

  /** The owner of the only handler is the only owner. */
  lemma SingleIsOnly(single: Option<nat>, handlers: seq<Option<Handler>>, capIrq: bool)
    requires SingleOk(single, handlers, capIrq) && single.Some?
    ensures single.value < |handlers|
    ensures forall i :: 0 <= i < |handlers| ==> (handlers[i].Some? <==> i == single.value)
  {
    forall i | 0 <= i < |handlers| && handlers[i].Some?
      ensures i == single.value
    {
      if i < single.value {
        SumAtLeastTwo(handlers, Claimed, i, single.value);
      } else if i > single.value {
        SumAtLeastTwo(handlers, Claimed, single.value, i);
      }
    }
  }

  lemma {:induction false} SomeClaimed(handlers: seq<Option<Handler>>)
    requires Sum(handlers, Claimed) > 0
    ensures exists i :: 0 <= i < |handlers| && handlers[i].Some?
  {
    if forall i :: 0 <= i < |handlers| ==> handlers[i] == None {
      SumZero(handlers, Claimed);
    }
  }

  // ----- what an interrupt runs -----

  /** The functions among the first n whose interrupt is pending and that have a handler, in order. */
  function Runs(pending: bv8, handlers: seq<Option<Handler>>, n: nat): seq<nat>
    requires n <= |handlers| <= 7
  {
    if n == 0 then []
    else Runs(pending, handlers, n - 1) + if IsSet(pending, n) && handlers[n - 1].Some? then [n - 1] else []
  }

  /** A pending function without a handler, or without a structure, among 1 to n. */
  predicate Stray(pending: bv8, handlers: seq<Option<Handler>>, n: nat)
    requires n <= 7 && |handlers| <= 7
  {
    exists i :: 1 <= i <= n && IsSet(pending, i) && (i > |handlers| || handlers[i - 1] == None)
  }

  /** Of a single owner the probe runs the handler exactly when its interrupt is pending. */
  lemma {:induction false} RunsSingle(pending: bv8, handlers: seq<Option<Handler>>, single: nat, n: nat)
    requires n <= |handlers| <= 7 && single < |handlers|
    requires forall i :: 0 <= i < |handlers| ==> (handlers[i].Some? <==> i == single)
    ensures Runs(pending, handlers, n) == if single < n && IsSet(pending, single + 1) then [single] else []
  {
    if n > 0 {
      RunsSingle(pending, handlers, single, n - 1);
    }
  }

  lemma StrayStep(pending: bv8, handlers: seq<Option<Handler>>, n: nat)
    requires 0 < n <= 7 && |handlers| <= 7
    ensures Stray(pending, handlers, n) <==>
            Stray(pending, handlers, n - 1) || (IsSet(pending, n) && (n > |handlers| || handlers[n - 1] == None))
  {
  }

  class Card {
    /** Whether the host serves interrupts by a thread of its own, and whether it can signal them at all. */
    const threaded: bool
    const capIrq: bool
    var handlers: seq<Option<Handler>>
    var sdioIrqs: nat
    var single: Option<nat>
    var ienx: bv8
    var serving: bool

    ghost predicate Valid()
      reads this
    {
      && |handlers| <= 7 && sdioIrqs == Sum(handlers, Claimed)
      && Enabled(ienx, handlers) && SingleOk(single, handlers, capIrq)
      && (serving <==> sdioIrqs > 0 && (threaded || capIrq))
    }

    constructor (funcs: nat, threaded: bool, capIrq: bool)
      requires funcs <= 7
      ensures Valid() && |handlers| == funcs && sdioIrqs == 0
    {
      this.threaded, this.capIrq := threaded, capIrq;
      handlers := seq(funcs, _ => None);
      sdioIrqs, single, ienx, serving := 0, None, 0, false;
      new;
      SumZero(handlers, Claimed);
    }

    /** The loop of sdio_single_irq_set. */
    method SingleIrqSet()
      requires |handlers| <= 7 && sdioIrqs == Sum(handlers, Claimed)
      modifies `single
      ensures SingleOk(single, handlers, capIrq)
    {
      single := None;
      if capIrq && sdioIrqs == 1 {
        SomeClaimed(handlers);
        for i := 0 to |handlers|
          invariant single == None && forall j :: 0 <= j < i ==> handlers[j] == None
        {
          if handlers[i].Some? {
            single := Some(i);
            break;
          }
        }
      }
    }

    /** sdio_card_irq_get: the first user starts the thread, which may fail. */
    method IrqGet(threadErr: int) returns (ret: int)
      modifies `sdioIrqs, `serving
      ensures ret == if old(sdioIrqs) == 0 && threaded then threadErr else 0
      ensures sdioIrqs == old(sdioIrqs) + (if ret == 0 then 1 else 0)
      ensures serving == if old(sdioIrqs) == 0 && ret == 0 && (threaded || capIrq) then true else old(serving)
    {
      sdioIrqs := sdioIrqs + 1;
      ret := 0;
      if sdioIrqs == 1 {
        if threaded {
          if threadErr != 0 {
            sdioIrqs := sdioIrqs - 1;
            return threadErr;
          }
          serving := true;
        } else if capIrq {
          serving := true;
        }
      }
    }

    method IrqPut() returns (ret: int)
      modifies `sdioIrqs, `serving
      ensures ret == if old(sdioIrqs) < 1 then EINVAL else 0
      ensures sdioIrqs == if ret == 0 then old(sdioIrqs) - 1 else old(sdioIrqs)
      ensures serving == if ret == 0 && sdioIrqs == 0 && (threaded || capIrq) then false else old(serving)
    {
      if sdioIrqs < 1 {
        return EINVAL;
      }
      ret := 0;
      sdioIrqs := sdioIrqs - 1;
      if sdioIrqs == 0 && (threaded || capIrq) {
        serving := false;
      }
    }

    /** A write to IENx: on success it has the value, on failure it may. */
    method WriteIenx(reg: bv8, io: Io)
      modifies `ienx
      ensures ienx == if io.writeErr == 0 || io.took then reg else old(ienx)
    {
      if io.writeErr == 0 || io.took {
        ienx := reg;
      }
    }

    /** sdio_claim_irq of function f + 1: whatever fails, the books agree; a handler is in place just on success. */
    method ClaimIrq(f: nat, handler: Handler, io: Io, threadErr: int) returns (ret: int)
      requires Valid() && f < |handlers|
      modifies this
      ensures Valid() && handlers == if ret == 0 then old(handlers)[f := Some(handler)] else old(handlers)
      ensures ret == if old(handlers)[f].Some? then EBUSY
                     else if io.readErr != 0 then io.readErr
                     else if io.writeErr != 0 then io.writeErr
                     else if threaded && old(sdioIrqs) == 0 then threadErr
                     else 0
    {
      if handlers[f].Some? {
        return EBUSY;
      }
      if io.readErr != 0 {
        return io.readErr;
      }
      var reg := With(ienx, f + 1);
      EnabledWith(ienx, handlers, f, handler);
      WriteIenx(reg, io);
      if io.writeErr != 0 {
        return io.writeErr;
      }
      SumUpdate(handlers, Claimed, f, Some(handler));
      handlers := handlers[f := Some(handler)];
      ret := IrqGet(threadErr);
      if ret != 0 {
        SumUpdate(handlers, Claimed, f, None);
        handlers := handlers[f := None];
        assert handlers == old(handlers);
      }
      SingleIrqSet();
    }

    /** sdio_release_irq: the handler is gone whatever the card answers; other functions keep theirs and stay enabled. */
    method ReleaseIrq(f: nat, io: Io) returns (ret: int)
      requires Valid() && f < |handlers|
      modifies this
      ensures Valid() && handlers == old(handlers)[f := None]
      ensures ret == if io.readErr != 0 then io.readErr else io.writeErr
      ensures ret == 0 ==> !IsSet(ienx, f + 1)
    {
      if handlers[f].Some? {
        SumUpdate(handlers, Claimed, f, None);
        EnabledFewer(ienx, handlers, f);
        handlers := handlers[f := None];
        var ignored := IrqPut();
        SingleIrqSet();
      }
      assert handlers == old(handlers)[f := None];
      if io.readErr != 0 {
        return io.readErr;
      }
      EnabledWithout(ienx, handlers, f);
      WriteIenx(Without(ienx, f + 1), io);
      return io.writeErr;
    }

    /** The full probe: read what is pending and run the handlers in order. */
    method Probe(pending: bv8, readErr: int) returns (ret: int, run: seq<nat>)
      requires Valid()
      ensures readErr != 0 ==> ret == readErr && run == []
      ensures readErr == 0 ==> run == Runs(pending, handlers, |handlers|)
      ensures readErr == 0 ==> ret == if run != [] then |run| else if Stray(pending, handlers, 7) then EINVAL else 0
    {
      run := [];
      if readErr != 0 {
        return readErr, [];
      }
      ret := 0;
      var count := 0;
      for i := 1 to 8
        invariant run == Runs(pending, handlers, Min(i - 1, |handlers|)) && count == |run|
        invariant ret == if Stray(pending, handlers, i - 1) then EINVAL else 0
      {
        StrayStep(pending, handlers, i);
        if IsSet(pending, i) {
          if i > |handlers| || handlers[i - 1] == None {
            ret := EINVAL;
          } else {
            run := run + [i - 1];
            count := count + 1;
          }
        }
      }
      if count > 0 {
        ret := count;
      }
    }

    /** process_sdio_pending_irqs */
    method ProcessPending(irqPending: bool, pending: bv8, readErr: int) returns (ret: int, run: seq<nat>)
      requires Valid()
      ensures if single.Some? && irqPending then ret == 1 && run == [single.value]
              else if readErr != 0 then ret == readErr && run == []
              else run == Runs(pending, handlers, |handlers|) &&
                   ret == if run != [] then |run| else if Stray(pending, handlers, 7) then EINVAL else 0
    {
      if single.Some? && irqPending {
        return 1, [single.value];
      }
      ret, run := Probe(pending, readErr);
    }

    /** The shortcut runs what the probe would have run exactly when the single owner's interrupt is pending. */
    lemma ShortcutIsProbe(pending: bv8)
      requires Valid() && single.Some?
      ensures single.value < |handlers|
      ensures Runs(pending, handlers, |handlers|) == [single.value] <==> IsSet(pending, single.value + 1)
    {
      SingleIsOnly(single, handlers, capIrq);
      RunsSingle(pending, handlers, single.value, |handlers|);
    }
  }
}
