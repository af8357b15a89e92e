/**
 Holding re-tuning back: the counter and flags of host.c, and the operations of mmc_ops.c, core.c
 and block.c that must leave them balanced. The same object keeps the partition bookkeeping.
 */
module Retune {
  import opened Basics
  import opened Bits

  /** What the card and host answer to one command, and what else happens meanwhile. */
  datatype Answer = Answer(err: int, state: nat, needed: bool, removed: bool, again: nat)

  /** Tune: tuning begins. Cmd: a command goes out. Aside: a command goes out as part of tuning. */
  datatype Event = Tune | Cmd | Aside

  function Sending(tuning: bool): Event {
    if tuning then Aside else Cmd
  }

  const ENOMEDIUM: int := -123
  const R1_STATE_IDLE: nat := 0
  const R1_STATE_READY: nat := 1
  const R1_STATE_STBY: nat := 3
  const R1_STATE_TRAN: nat := 4
  const R1_STATE_PRG: nat := 7
  const CMD_RETRIES: nat := 3
  const ACC_MASK: nat := 7
  const ACC_RPMB: nat := 3

  /** The flags an operation has to put back. */
  datatype Flags = Flags(hold: nat, now: bool, doing: bool, paused: bool, warned: bool)

  // ----- held sections -----

  /** Tuning comes before the first command or not at all. */
  predicate TunesFirst(events: seq<Event>) {
    forall i, j :: 0 <= i < j < |events| && events[i] == Cmd ==> events[j] != Tune
  }

  /**
   What may happen while re-tuning is held: tuning only before the first command, and only if it
   was due; a command leaves nothing due.
   */
  predicate Held(due: bool, events: seq<Event>, due': bool) {
    && TunesFirst(events) && (!due ==> Tune !in events) && (due' ==> due) && (Cmd in events ==> !due')
  }

  lemma HeldThen(due: bool, a: seq<Event>, due': bool, b: seq<Event>, due'': bool)
    requires Held(due, a, due') && Held(due', b, due'')
    ensures Held(due, a + b, due'')
  {
    var c := a + b;
    forall i, j | 0 <= i < j < |c| && c[i] == Cmd
      ensures c[j] != Tune
    {
      if j >= |a| {
        assert c[j] == b[j - |a|];
        if i < |a| {
          assert a[i] in a && b[j - |a|] in b;
        }
      }
    }
  }

  /** An operation that gives back every hold it took. */
  predicate Kept(f: Flags, events: seq<Event>, f': Flags) {
    && f'.hold == f.hold && f'.doing == f.doing && f'.paused == f.paused && f'.warned == f.warned
    && (f.doing ==> Tune !in events)
    && (f.hold > 0 ==> Held(f.now, events, f'.now))
  }

  lemma KeptThen(f: Flags, a: seq<Event>, f': Flags, b: seq<Event>, f'': Flags)
    requires Kept(f, a, f') && Kept(f', b, f'')
    ensures Kept(f, a + b, f'')
  {
    if f.hold > 0 {
      HeldThen(f.now, a, f'.now, b, f''.now);
    }
  }

  /** A whole section, from its hold to its release: between the two it is a held one. */
  lemma SectionKept(f: Flags, events: seq<Event>, f': Flags)
    requires Kept(f.(hold := f.hold + 1, now := f.now || f.hold == 0), events, f'.(hold := f'.hold + 1))
    ensures Kept(f, events, f') && TunesFirst(events)
  {
  }

  /** The same for mmc_retune_hold_now: in such a section there is no tuning at all. */
  lemma SectionNow(f: Flags, events: seq<Event>, f': Flags)
    requires Kept(f.(hold := f.hold + 1, now := false), events, f'.(hold := f'.hold + 1))
    ensures Kept(f, events, f') && Tune !in events
  {
  }

  /** What one attempt at a command does. */
  predicate Attempted(f: Flags, events: seq<Event>, f': Flags) {
    && f'.hold == f.hold && f'.doing == f.doing && f'.paused == f.paused && f'.warned == f.warned
    && (f.doing ==> Tune !in events && Cmd !in events)
    && (f.hold > 0 ==> !f'.now && Held(f.now, events, false))
  }

  /** Between the attempts of one command, its own hold taken. */
  predicate Trying(f: Flags, events: seq<Event>, f': Flags) {
    && f'.hold == f.hold + 1 && f'.doing == f.doing && f'.paused == f.paused && f'.warned == f.warned
    && (f.doing ==> Tune !in events && Cmd !in events)
    && (f.hold > 0 ==> !f'.now && Held(f.now, events, false))
  }

  /** Inside another section the recheck before a retry changes nothing. */
  lemma TryAgain(f: Flags, a: seq<Event>, f': Flags, b: seq<Event>, f'': Flags)
    requires Trying(f, a, f') && Attempted(f'.(now := f'.now || f'.hold <= 1), b, f'')
    ensures Trying(f, a + b, f'')
  {
    if f.hold > 0 {
      HeldThen(f.now, a, false, b, false);
    }
  }

  lemma TryInterrupt(f: Flags, a: seq<Event>, f': Flags, b: seq<Event>, f'': Flags)
    requires Trying(f, a, f') && Kept(f', b, f'') && (f'.doing ==> Cmd !in b)
    ensures Trying(f, a + b, f'')
  {
    if f.hold > 0 {
      HeldThen(f.now, a, false, b, f''.now);
    }
  }

  // ----- partitions -----

  /** The access bits of the partition register select the partition. */
  function Access(config: nat): nat {
    config % 8
  }

  lemma AccessIsMask(config: nat)
    ensures And(config, ACC_MASK) == Access(config)
  {
    var k := 3;
    assert Pow2(k) == 8;
    AndMask(config, k);
    ShrIsDiv(config, k);
  }

  /** The register with other access bits; the bits above them stay. */
  function Selecting(config: nat, partType: nat): (c: nat)
    requires config < 256 && partType <= ACC_MASK
    ensures c < 256 && Access(c) == partType == And(c, ACC_MASK) && c / 8 == config / 8
  {
    SelectingIs(config, partType);
    AccessOf(config, partType);
    AccessIsMask(config - config % 8 + partType);
    Or(And(config, 0xFF - ACC_MASK), partType)
  }

  lemma AccessOf(config: nat, partType: nat)
    requires config < 256 && partType <= ACC_MASK
    ensures var c := config - config % 8 + partType; c < 256 && Access(c) == partType && c / 8 == config / 8
  {
  }

  lemma SelectingIs(config: nat, partType: nat)
    requires config < 256 && partType <= ACC_MASK
    ensures Or(And(config, 0xFF - ACC_MASK), partType) == config - config % 8 + partType
  {
    var n, k := 8, 3;
    assert Pow2(n) == 256 && Pow2(k) == 8;
    assert HighMask(n, k) == 0xF8;
    AndHighMask(config, n, k);
    SplitAt(config, k);
    ShrIsDiv(config, k);
    OrIsSum(Shr(config, k), partType, k);
  }

  class Host {
    const env: nat -> Answer
    const hpiEn: bool
    const hs400: bool
    const isMmc: bool
    const cmdqSupport: bool
    const reenableCmdq: bool
    const manBkopsEn: bool
    var step: nat
    var canRetune: bool
    var needRetune: bool
    var retuneNow: bool
    var doingRetune: bool
    var retunePaused: bool
    var holdRetune: nat
    /** WARN_ON in mmc_retune_release */
    var warned: bool
    var events: seq<Event>
    /** Background operations of the card are running; a read or write is outstanding. */
    var doingBkops: bool
    var rwHeld: bool
    var partCurr: nat
    var partConfig: nat
    var cmdqEn: bool

    constructor (env: nat -> Answer, hpiEn: bool, hs400: bool, isMmc: bool, cmdqSupport: bool, reenableCmdq: bool,
                 manBkopsEn: bool)
      ensures Balanced() && PartOk() && events == [] && this.env == env
    {
      this.env, this.hpiEn, this.hs400, this.isMmc := env, hpiEn, hs400, isMmc;
      this.cmdqSupport, this.reenableCmdq, this.manBkopsEn := cmdqSupport, reenableCmdq, manBkopsEn;
      step, canRetune, needRetune, retuneNow, doingRetune, retunePaused, holdRetune, warned, events :=
        0, false, false, false, false, false, 0, false, [];
      doingBkops, rwHeld, partCurr, partConfig, cmdqEn := false, false, 0, 0, false;
    }

    /** Between operations, every hold belongs to a pause, to background operations or to a read or write. */
    ghost predicate Balanced()
      reads this
    {
      holdRetune == Bit(retunePaused) + Bit(doingBkops) + Bit(rwHeld) && !warned && !doingRetune
    }

    /** The books on the selected partition agree, re-tuning is paused in RPMB alone, and the queue is off there. */
    ghost predicate PartOk()
      reads this
    {
      && partConfig < 256
      && if isMmc then
           partCurr == Access(partConfig) && (retunePaused <==> partCurr == ACC_RPMB) && (cmdqEn ==> partCurr != ACC_RPMB)
         else
           !retunePaused && !cmdqEn
    }

    /** Nothing goes wrong: every command succeeds, the card stays and is back in its transfer state. */
    ghost predicate Good()
    {
      forall i :: env(i).err == 0 && !env(i).removed && env(i).state == R1_STATE_TRAN
    }

    ghost function F(): Flags
      reads this
    {
      Flags(holdRetune, retuneNow, doingRetune, retunePaused, warned)
    }

    /** mmc_retune_needed */
    method Needed()
      modifies `needRetune
      ensures needRetune == (old(needRetune) || canRetune)
    {
      if canRetune {
        needRetune := true;
      }
    }

    method Hold()
      modifies `retuneNow, `holdRetune
      ensures F() == old(F()).(hold := old(holdRetune) + 1, now := old(retuneNow) || old(holdRetune) == 0)
    {
      if holdRetune == 0 {
        retuneNow := true;
      }
      holdRetune := holdRetune + 1;
    }

    method HoldNow()
      modifies `retuneNow, `holdRetune
      ensures F() == old(F()).(hold := old(holdRetune) + 1, now := false)
    {
      retuneNow := false;
      holdRetune := holdRetune + 1;
    }

    method Release()
      modifies `holdRetune, `warned
      ensures F() == if old(holdRetune) > 0 then old(F()).(hold := old(holdRetune) - 1) else old(F()).(warned := true)
    {
      if holdRetune > 0 {
        holdRetune := holdRetune - 1;
      } else {
        warned := true;
      }
    }

    /** mmc_retune_recheck */
    method Recheck()
      modifies `retuneNow
      ensures F() == old(F()).(now := old(retuneNow) || old(holdRetune) <= 1)
    {
      if holdRetune <= 1 {
        retuneNow := true;
      }
    }

    /** mmc_retune: tuning does not nest, whatever its own commands run into. */
    method Retune() returns (err: int, ghost seen: seq<Event>)
      modifies `step, `canRetune, `needRetune, `retuneNow, `doingRetune, `holdRetune, `warned, `events
      ensures events == old(events) + seen && F().hold == old(F()).hold && F().doing == old(F()).doing
      ensures F().paused == old(F()).paused && F().warned == old(F()).warned
      ensures Cmd !in seen && (if Tune in seen then seen[0] == Tune && Tune !in seen[1..] else true)
      ensures Tune in seen <==> old(retuneNow) && old(needRetune) && !old(doingRetune)
      ensures Good() ==> err == 0
      ensures old(holdRetune) > 0 ==> !retuneNow
      decreases if doingRetune then 0 else 1, 1
    {
      err, seen := 0, [];
      if retuneNow {
        retuneNow := false;
      } else {
        return;
      }
      if !needRetune || doingRetune {
        return;
      }
      needRetune := false;
      doingRetune := true;
      events := events + [Tune];
      ghost var more;
      err, more := TuneNow();
      seen := [Tune] + more;
      doingRetune := false;
    }

    /** Down from HS400, the tuning commands, and back up. */
    method TuneNow() returns (err: int, ghost seen: seq<Event>)
      requires doingRetune
      modifies `step, `canRetune, `needRetune, `retuneNow, `doingRetune, `holdRetune, `warned, `events
      ensures events == old(events) + seen && Kept(old(F()), seen, F()) && Cmd !in seen && (Good() ==> err == 0)
      decreases 0, 10
    {
      seen := [];
      err := 0;
      if hs400 {
        err, seen := Switches([false, false, false]);
        if err != 0 {
          return;
        }
      }
      ghost var f, more := F(), [];
      err, more := Commands();
      KeptThen(old(F()), seen, f, more, F());
      seen := seen + more;
      if err != 0 {
        return;
      }
      canRetune := true;
      if hs400 {
        f := F();
        err, more := Switches([false, true, false]);
        KeptThen(old(F()), seen, f, more, F());
        seen := seen + more;
      }
    }

    /** The host driver's execute_tuning: any number of commands. */
    method Commands() returns (err: int, ghost seen: seq<Event>)
      requires doingRetune
      modifies `step, `canRetune, `needRetune, `retuneNow, `doingRetune, `holdRetune, `warned, `events
      ensures events == old(events) + seen && Kept(old(F()), seen, F()) && Cmd !in seen && (Good() ==> err == 0)
      decreases 0, 9
    {
      err, seen := 0, [];
      var n := env(step).again;
      while n > 0
        invariant doingRetune && events == old(events) + seen && Kept(old(F()), seen, F()) && Cmd !in seen && err == 0
        decreases n
      {
        ghost var f, more := F(), [];
        err, more := WaitForCmd(0, false);
        KeptThen(old(F()), seen, f, more, F());
        seen := seen + more;
        if err != 0 {
          return;
        }
        n := n - 1;
      }
    }

    /** Timing changes: switches, each with its status inside or after its section, until one fails. */
    method Switches(statusInside: seq<bool>) returns (err: int, ghost seen: seq<Event>)
      requires doingRetune
      modifies `step, `canRetune, `needRetune, `retuneNow, `doingRetune, `holdRetune, `warned, `events
      ensures events == old(events) + seen && Kept(old(F()), seen, F()) && Cmd !in seen && (Good() ==> err == 0)
      decreases 0, 9
    {
      err, seen := 0, [];
      var i := 0;
      while i < |statusInside|
        invariant i <= |statusInside|
        invariant doingRetune && events == old(events) + seen && Kept(old(F()), seen, F()) && Cmd !in seen && err == 0
      {
        ghost var f, more := F(), [];
        err, more := Switch(true, false, statusInside[i], false);
        KeptThen(old(F()), seen, f, more, F());
        seen := seen + more;
        if err != 0 {
          return;
        }
        if !statusInside[i] {
          f := F();
          var state;
          err, state, more := SendStatus(CMD_RETRIES);
          KeptThen(old(F()), seen, f, more, F());
          seen := seen + more;
          if err != 0 {
            return;
          }
        }
        i := i + 1;
      }
    }

    /** __mmc_start_request and the completion: re-tune if due, then send the command. */
    method Attempt() returns (err: int, ghost seen: seq<Event>)
      modifies `step, `canRetune, `needRetune, `retuneNow, `doingRetune, `holdRetune, `warned, `events
      ensures events == old(events) + seen && Attempted(old(F()), seen, F())
      ensures (Good() ==> err == 0) && (err == 0 ==> Sending(old(doingRetune)) in seen)
      ensures old(retuneNow) && old(needRetune) && !old(doingRetune) ==> seen != [] && seen[0] == Tune
      decreases if doingRetune then 0 else 1, 2, 0
    {
      err, seen := Retune();
      if err == 0 {
        events := events + [Sending(doingRetune)];
        seen := seen + [Sending(doingRetune)];
        var answer := env(step);
        step := step + 1;
        err := answer.err;
        if answer.needed || err == EILSEQ {
          Needed();
        }
      }
    }

    /**
     mmc_wait_for_cmd: one hold for all its attempts; it re-tunes for a retry only outside any
     section, and first of all when that is needed and nothing holds it back. A sanitize that
     timed out is interrupted, and then counts as done.
     */
    method WaitForCmd(retries: nat, sanitize: bool) returns (err: int, ghost seen: seq<Event>)
      modifies `step, `canRetune, `needRetune, `retuneNow, `doingRetune, `holdRetune, `warned, `events
      ensures events == old(events) + seen && Kept(old(F()), seen, F()) && (old(doingRetune) ==> Cmd !in seen)
      ensures (Good() ==> err == 0) && (err == 0 && !sanitize ==> Sending(old(doingRetune)) in seen)
      ensures old(holdRetune) == 0 && old(needRetune) && !old(doingRetune) && !env(old(step)).removed ==>
                seen != [] && seen[0] == Tune
      decreases if doingRetune then 0 else 1, if sanitize then 7 else 3
    {
      ghost var f0 := F();
      seen := [];
      Hold();
      if env(step).removed {
        err := ENOMEDIUM;
      } else {
        err, seen := Attempts(retries, sanitize, f0);
      }
      Release();
    }

    /** The loop of mmc_wait_for_req_done. */
    method Attempts(retries: nat, sanitize: bool, ghost f0: Flags) returns (err: int, ghost seen: seq<Event>)
      requires f0.hold + 1 == holdRetune && f0.doing == doingRetune && f0.paused == retunePaused && f0.warned == warned
      requires retuneNow == (f0.now || f0.hold == 0)
      modifies `step, `canRetune, `needRetune, `retuneNow, `doingRetune, `holdRetune, `warned, `events
      ensures events == old(events) + seen && Trying(f0, seen, F())
      ensures (Good() ==> err == 0) && (err == 0 && !sanitize ==> Sending(old(doingRetune)) in seen)
      ensures f0.hold == 0 && old(needRetune) && !f0.doing ==> seen != [] && seen[0] == Tune
      decreases if doingRetune then 0 else 1, if sanitize then 7 else 2, 2
    {
      ghost var base := events;
      var left := retries;
      err, seen := Attempt();
      while true
        invariant events == base + seen && Trying(f0, seen, F()) && (Good() ==> err == 0)
        invariant err == 0 ==> Sending(f0.doing) in seen
        invariant f0.hold == 0 && old(needRetune) && !f0.doing ==> seen != [] && seen[0] == Tune
        decreases left
      {
        if sanitize && err == ETIMEDOUT {
          var interrupted;
          interrupted, seen := InterruptSanitize(f0, base, seen);
          if interrupted == 0 {
            err := 0;
            break;
          }
        }
        if err == 0 || left == 0 || env(step).removed {
          break;
        }
        left := left - 1;
        err, seen := Retry(f0, base, seen);
      }
    }

    method InterruptSanitize(ghost f0: Flags, ghost base: seq<Event>, ghost sofar: seq<Event>) returns (err: int, ghost seen: seq<Event>)
      requires events == base + sofar && Trying(f0, sofar, F())
      modifies `step, `canRetune, `needRetune, `retuneNow, `doingRetune, `holdRetune, `warned, `events
      ensures events == base + seen && Trying(f0, seen, F()) && sofar <= seen
      decreases if doingRetune then 0 else 1, 6
    {
      ghost var f, more := F(), [];
      err, more := InterruptHpi();
      TryInterrupt(f0, sofar, f, more, F());
      seen := sofar + more;
    }

    method Retry(ghost f0: Flags, ghost base: seq<Event>, ghost sofar: seq<Event>) returns (err: int, ghost seen: seq<Event>)
      requires events == base + sofar && Trying(f0, sofar, F())
      modifies `step, `canRetune, `needRetune, `retuneNow, `doingRetune, `holdRetune, `warned, `events
      ensures events == base + seen && Trying(f0, seen, F()) && sofar <= seen
      ensures (Good() ==> err == 0) && (err == 0 ==> Sending(old(doingRetune)) in seen)
      decreases if doingRetune then 0 else 1, 2, 1
    {
      ghost var f, more := F(), [];
      Recheck();
      err, more := Attempt();
      TryAgain(f0, sofar, f, more, F());
      seen := sofar + more;
    }

    method SendStatus(retries: nat) returns (err: int, state: nat, ghost seen: seq<Event>)
      modifies `step, `canRetune, `needRetune, `retuneNow, `doingRetune, `holdRetune, `warned, `events
      ensures events == old(events) + seen && Kept(old(F()), seen, F()) && (old(doingRetune) ==> Cmd !in seen)
      ensures (Good() ==> err == 0 && state == R1_STATE_TRAN) && (err == 0 ==> Sending(old(doingRetune)) in seen)
      decreases if doingRetune then 0 else 1, 4
    {
      state := env(step).state;
      err, seen := WaitForCmd(retries, false);
    }

    /** mmc_interrupt_hpi: out of the programming state, if the card is in it. */
    method InterruptHpi() returns (err: int, ghost seen: seq<Event>)
      modifies `step, `canRetune, `needRetune, `retuneNow, `doingRetune, `holdRetune, `warned, `events
      ensures events == old(events) + seen && Kept(old(F()), seen, F()) && (old(doingRetune) ==> Cmd !in seen)
      ensures (Good() && hpiEn ==> err == 0) && (!hpiEn ==> err == 1 && seen == [])
      decreases if doingRetune then 0 else 1, 5
    {
      seen := [];
      if !hpiEn {
        return 1, [];
      }
      var state;
      err, state, seen := SendStatus(CMD_RETRIES);
      if err != 0 || state in {R1_STATE_IDLE, R1_STATE_READY, R1_STATE_STBY, R1_STATE_TRAN} {
        return;
      }
      if state != R1_STATE_PRG {
        err := EINVAL;
        return;
      }
      ghost var f, more := F(), [];
      err, more := WaitForCmd(0, false);
      KeptThen(old(F()), seen, f, more, F());
      seen := seen + more;
      var polls := env(step).again;
      while err == 0
        invariant events == old(events) + seen && Kept(old(F()), seen, F()) && (old(doingRetune) ==> Cmd !in seen)
        decreases polls, if err == 0 then 1 else 0
      {
        f := F();
        err, state, more := SendStatus(CMD_RETRIES);
        KeptThen(old(F()), seen, f, more, F());
        seen := seen + more;
        if err == 0 && state == R1_STATE_TRAN {
          break;
        }
        if polls == 0 {
          err := ETIMEDOUT;
        } else {
          polls := polls - 1;
        }
      }
    }

    /** The polling loops: status commands while the card is busy, until one fails or time is up. */
    method PollWhileBusy() returns (err: int, ghost seen: seq<Event>)
      modifies `step, `canRetune, `needRetune, `retuneNow, `doingRetune, `holdRetune, `warned, `events
      ensures events == old(events) + seen && Kept(old(F()), seen, F()) && (old(doingRetune) ==> Cmd !in seen)
      ensures Good() ==> err == 0
      decreases if doingRetune then 0 else 1, 5
    {
      err, seen := 0, [];
      var polls: nat := env(step).again;
      var busy := true;
      while busy
        invariant events == old(events) + seen && Kept(old(F()), seen, F()) && (old(doingRetune) ==> Cmd !in seen)
        decreases polls, busy
      {
        ghost var f, more := F(), [];
        var state;
        err, state, more := SendStatus(0);
        KeptThen(old(F()), seen, f, more, F());
        seen := seen + more;
        if err != 0 {
          return;
        }
        busy := state == R1_STATE_PRG;
        if busy && polls == 0 {
          err := ETIMEDOUT;
          return;
        }
        polls := if polls > 0 then polls - 1 else 0;
      }
    }

    /** __mmc_switch: on every path the hold is given back, and tuning can only precede the switch itself. */
    method Switch(useBusySignal: bool, hwBusy: bool, sendStatus: bool, sanitize: bool) returns (err: int, ghost seen: seq<Event>)
      modifies `step, `canRetune, `needRetune, `retuneNow, `doingRetune, `holdRetune, `warned, `events
      ensures events == old(events) + seen && Kept(old(F()), seen, F()) && TunesFirst(seen)
      ensures (old(doingRetune) ==> Cmd !in seen) && (Good() ==> err == 0)
      ensures err == 0 && !sanitize ==> Sending(old(doingRetune)) in seen
      decreases if doingRetune then 0 else 1, 8
    {
      Hold();
      ghost var f0 := F();
      err, seen := WaitForCmd(CMD_RETRIES, sanitize);
      if err == 0 && useBusySignal {
        ghost var f, more := F(), [];
        err, more := Confirm(hwBusy, sendStatus);
        KeptThen(f0, seen, f, more, F());
        seen := seen + more;
      }
      Release();
      SectionKept(old(F()), seen, F());
    }

    /** Waiting for the switch to end, and its status. */
    method Confirm(hwBusy: bool, sendStatus: bool) returns (err: int, ghost seen: seq<Event>)
      modifies `step, `canRetune, `needRetune, `retuneNow, `doingRetune, `holdRetune, `warned, `events
      ensures events == old(events) + seen && Kept(old(F()), seen, F()) && (old(doingRetune) ==> Cmd !in seen)
      ensures Good() ==> err == 0
      decreases if doingRetune then 0 else 1, 7
    {
      err, seen := 0, [];
      if !hwBusy {
        err, seen := PollWhileBusy();
      }
      if err == 0 && sendStatus {
        ghost var f, more := F(), [];
        var state;
        err, state, more := SendStatus(CMD_RETRIES);
        KeptThen(old(F()), seen, f, more, F());
        seen := seen + more;
      }
    }

    /** mmc_do_erase, start to end: the same for its three commands and the polling. */
    method DoErase(poll: bool) returns (err: int, ghost seen: seq<Event>)
      modifies `step, `canRetune, `needRetune, `retuneNow, `doingRetune, `holdRetune, `warned, `events
      ensures events == old(events) + seen && Kept(old(F()), seen, F()) && TunesFirst(seen)
      ensures (Good() ==> err == 0) && (err == 0 ==> Sending(old(doingRetune)) in seen) && (err == 0 || err == EIO)
      decreases if doingRetune then 0 else 1, 8
    {
      Hold();
      ghost var f0 := F();
      err, seen := EraseCommands();
      if err == 0 && poll {
        ghost var f, more := F(), [];
        err, more := PollWhileBusy();
        KeptThen(f0, seen, f, more, F());
        seen := seen + more;
      }
      err := if err == 0 then 0 else EIO;
      Release();
      SectionKept(old(F()), seen, F());
    }

    /** Start of the range, end of the range, erase. */
    method EraseCommands() returns (err: int, ghost seen: seq<Event>)
      modifies `step, `canRetune, `needRetune, `retuneNow, `doingRetune, `holdRetune, `warned, `events
      ensures events == old(events) + seen && Kept(old(F()), seen, F())
      ensures (Good() ==> err == 0) && (err == 0 ==> Sending(old(doingRetune)) in seen)
      decreases if doingRetune then 0 else 1, 7
    {
      err, seen := WaitForCmd(0, false);
      var sent := 1;
      while err == 0 && sent < 3
        invariant events == old(events) + seen && Kept(old(F()), seen, F())
        invariant (Good() ==> err == 0) && (err == 0 ==> Sending(old(doingRetune)) in seen)
        decreases 3 - sent
      {
        ghost var f, more := F(), [];
        err, more := WaitForCmd(0, false);
        KeptThen(old(F()), seen, f, more, F());
        seen := seen + more;
        sent := sent + 1;
      }
    }

    /** mmc_blk_fix_state: stop the transfer and wait, with no tuning at all. */
    method FixState() returns (err: int, ghost seen: seq<Event>)
      requires !doingRetune
      modifies `step, `canRetune, `needRetune, `retuneNow, `doingRetune, `holdRetune, `warned, `events
      ensures events == old(events) + seen && Kept(old(F()), seen, F()) && Tune !in seen
      ensures Good() ==> err == 0 && Cmd in seen
      decreases 1, 8
    {
      HoldNow();
      ghost var f0, more := F(), [];
      err, seen := WaitForCmd(5, false);
      ghost var f := F();
      err, more := PollWhileBusy();
      KeptThen(f0, seen, f, more, F());
      seen := seen + more;
      Release();
      SectionNow(old(F()), seen, F());
    }

    /** mmc_cqe_recovery: both commands go to the card without tuning in between. */
    method CqeRecovery() returns (err: int, ghost seen: seq<Event>)
      requires !doingRetune
      modifies `step, `canRetune, `needRetune, `retuneNow, `doingRetune, `holdRetune, `warned, `events
      ensures events == old(events) + seen && Kept(old(F()), seen, F()) && Tune !in seen
      ensures Good() ==> err == 0 && Cmd in seen
      decreases 1, 8
    {
      HoldNow();
      ghost var f0, more := F(), [];
      err, seen := WaitForCmd(0, false);
      ghost var f := F();
      err, more := WaitForCmd(0, false);
      KeptThen(f0, seen, f, more, F());
      seen := seen + more;
      Release();
      SectionNow(old(F()), seen, F());
    }

    // ----- pauses -----

    method Pause()
      requires Balanced()
      modifies `needRetune, `retuneNow, `holdRetune, `retunePaused
      ensures Balanced() && retunePaused
    {
      if !retunePaused {
        retunePaused := true;
        Needed();
        Hold();
      }
    }

    method Unpause()
      requires Balanced()
      modifies `holdRetune, `warned, `retunePaused
      ensures Balanced() && !retunePaused
    {
      if retunePaused {
        retunePaused := false;
        Release();
      }
    }

    /** mmc_retune_disable */
    method Disable()
      requires Balanced()
      modifies `canRetune, `needRetune, `retuneNow, `holdRetune, `warned, `retunePaused
      ensures Balanced() && !retunePaused && !canRetune && !retuneNow && !needRetune
    {
      Unpause();
      canRetune, retuneNow, needRetune := false, false, false;
    }

    // ----- background operations -----

    /** mmc_start_bkops: the hold stays exactly while the operations run on their own. */
    method StartBkops(fromException: bool, level: nat) returns (ghost seen: seq<Event>, ghost switched: bool)
      requires Balanced()
      modifies `step, `canRetune, `needRetune, `retuneNow, `doingRetune, `holdRetune, `warned, `events, `doingBkops
      ensures Balanced() && events == old(events) + seen
      ensures doingBkops <==> old(doingBkops) || (manBkopsEn && level == 1 && !fromException && switched)
      ensures Good() && manBkopsEn && !old(doingBkops) && level > 0 && (level >= 2 || !fromException) ==> switched
    {
      seen, switched := [], false;
      if !manBkopsEn || doingBkops {
        return;
      }
      var err;
      err, seen := WaitForCmd(0, false);
      if err != 0 || level == 0 || (level < 2 && fromException) {
        return;
      }
      var useBusySignal := level >= 2;
      Hold();
      ghost var more;
      err, more := Switch(useBusySignal, false, true, false);
      seen := seen + more;
      switched := err == 0;
      if err != 0 {
        Release();
        return;
      }
      if !useBusySignal {
        doingBkops := true;
      } else {
        Release();
      }
    }

    /** mmc_stop_bkops, called while they run: the hold goes with them, or both stay. */
    method StopBkops() returns (err: int, ghost seen: seq<Event>)
      requires Balanced() && doingBkops
      modifies `step, `canRetune, `needRetune, `retuneNow, `doingRetune, `holdRetune, `warned, `events, `doingBkops
      ensures Balanced() && events == old(events) + seen && (err == 0 <==> !doingBkops)
      ensures Good() && hpiEn ==> err == 0
    {
      err, seen := InterruptHpi();
      if err == 0 || err == EINVAL {
        doingBkops := false;
        Release();
        err := 0;
      }
    }

    // ----- reads and writes -----

    /** mmc_blk_mq_issue_rw_rq around mmc_start_request: a request that started keeps its hold. */
    method IssueRw(prepared: int, doneComplete: bool) returns (err: int, ghost seen: seq<Event>)
      requires Balanced() && !rwHeld
      modifies `step, `canRetune, `needRetune, `retuneNow, `doingRetune, `holdRetune, `warned, `events, `rwHeld
      ensures Balanced() && events == old(events) + seen && (rwHeld <==> err == 0 && !doneComplete)
      ensures err == if env(old(step)).removed then ENOMEDIUM else prepared
      ensures Good() && err == 0 ==> Cmd in seen
    {
      seen := [];
      Hold();
      err := if env(step).removed then ENOMEDIUM else prepared;
      if err == 0 {
        var later;
        later, seen := Attempt();
      }
      rwHeld := true;
      if err != 0 || doneComplete {
        rwHeld := false;
        Release();
      }
    }

    /**
     mmc_blk_mq_rw_recovery, as far as re-tuning goes: its first status still under the hold, the
     second outside, where tuning is possible again; then the commands that mend the state, count the
     blocks an SD card wrote and read sectors one at a time.
     */
    method RwRecovery(spi: bool, sdWrite: bool, singles: nat) returns (ghost seen: seq<Event>)
      requires Balanced() && rwHeld
      modifies `step, `canRetune, `needRetune, `retuneNow, `doingRetune, `holdRetune, `warned, `events, `rwHeld
      ensures Balanced() && !rwHeld && events == old(events) + seen
    {
      var err, state;
      err, state, seen := SendStatus(0);
      rwHeld := false;
      Release();
      ghost var more := MendState(err, state, spi, sdWrite, singles);
      seen := seen + more;
    }

    method MendState(err0: int, state0: nat, spi: bool, sdWrite: bool, singles: nat) returns (ghost seen: seq<Event>)
      requires Balanced()
      modifies `step, `canRetune, `needRetune, `retuneNow, `doingRetune, `holdRetune, `warned, `events
      ensures Balanced() && events == old(events) + seen
    {
      var err, state := err0, state0;
      seen := [];
      if err != 0 {
        err, state, seen := SendStatus(0);
      }
      if err == 0 || !env(step).removed {
        ghost var more := MendRest(err, state, spi, sdWrite, singles);
        seen := seen + more;
      }
    }

    /** What follows once the card is known to be there. */
    method MendRest(err0: int, state: nat, spi: bool, sdWrite: bool, singles: nat) returns (ghost seen: seq<Event>)
      requires Balanced()
      modifies `step, `canRetune, `needRetune, `retuneNow, `doingRetune, `holdRetune, `warned, `events
      ensures Balanced() && events == old(events) + seen
    {
      var err := err0;
      seen := [];
      ghost var more;
      if !spi && (err != 0 || state != R1_STATE_TRAN) {
        err, more := FixState();
        seen := seen + more;
      }
      if err == 0 && sdWrite {
        more := CountWritten();
        seen := seen + more;
      }
      more := ReadSingles(spi, singles);
      seen := seen + more;
    }

    /** mmc_sd_num_wr_blocks: the application command and the count. */
    method CountWritten() returns (ghost seen: seq<Event>)
      requires Balanced()
      modifies `step, `canRetune, `needRetune, `retuneNow, `doingRetune, `holdRetune, `warned, `events
      ensures Balanced() && events == old(events) + seen
    {
      var err;
      err, seen := WaitForCmd(0, false);
      if err == 0 {
        ghost var more;
        err, more := WaitForCmd(0, false);
        seen := seen + more;
      }
    }

    /** mmc_blk_read_single: passes of a request, its status and, if need be, the way back to the transfer state. */
    method ReadSingles(spi: bool, singles: nat) returns (ghost seen: seq<Event>)
      requires Balanced()
      modifies `step, `canRetune, `needRetune, `retuneNow, `doingRetune, `holdRetune, `warned, `events
      ensures Balanced() && events == old(events) + seen
    {
      seen := [];
      for i := 0 to singles
        invariant Balanced() && events == old(events) + seen
      {
        var readErr, err, state;
        ghost var more;
        readErr, more := WaitForCmd(0, false);
        seen := seen + more;
        err, state, more := SendStatus(CMD_RETRIES);
        seen := seen + more;
        if err == 0 && !spi && state != R1_STATE_TRAN {
          err, more := FixState();
          seen := seen + more;
        }
        if err != 0 {
          break;
        }
      }
    }

    /** mmc_blk_mq_poll_completion: whichever way the request ended, its hold is gone. */
    method PollCompletion(bad: bool, poll: bool, spi: bool, sdWrite: bool, singles: nat, urgent: bool, level: nat) returns (ghost seen: seq<Event>)
      requires Balanced() && rwHeld
      modifies `step, `canRetune, `needRetune, `retuneNow, `doingRetune, `holdRetune, `warned, `events, `rwHeld, `doingBkops
      ensures Balanced() && !rwHeld && events == old(events) + seen
    {
      seen := [];
      var err := 0;
      if !bad && poll {
        err, seen := PollWhileBusy();
      }
      ghost var more;
      if bad || err != 0 {
        more := RwRecovery(spi, sdWrite, singles);
        seen := seen + more;
      } else {
        rwHeld := false;
        Release();
      }
      if urgent {
        ghost var ignored;
        more, ignored := StartBkops(true, level);
        seen := seen + more;
      }
    }

    /** mmc_blk_mq_recovery, where the hold was given back at the start: it is taken again for the recovery. */
    method MqRecovery(bad: bool, spi: bool, sdWrite: bool, singles: nat, urgent: bool, level: nat) returns (ghost seen: seq<Event>)
      requires Balanced() && !rwHeld
      modifies `step, `canRetune, `needRetune, `retuneNow, `doingRetune, `holdRetune, `warned, `events, `rwHeld, `doingBkops
      ensures Balanced() && !rwHeld && events == old(events) + seen
    {
      seen := [];
      ghost var more;
      if bad {
        HoldNow();
        rwHeld := true;
        seen := RwRecovery(spi, sdWrite, singles);
      }
      if urgent {
        ghost var ignored;
        more, ignored := StartBkops(true, level);
        seen := seen + more;
      }
    }

    /** mmc_mq_queue_rq and mmc_cqe_start_req: with the queue in use, tuning happens for its first request only. */
    method CqeStart(first: bool) returns (err: int, ghost seen: seq<Event>)
      requires Balanced()
      modifies `step, `canRetune, `needRetune, `retuneNow, `doingRetune, `holdRetune, `warned, `events
      ensures Balanced() && events == old(events) + seen
      ensures Tune in seen <==> first && old(holdRetune) == 0 && old(needRetune)
    {
      retuneNow := needRetune && first && holdRetune == 0;
      err, seen := Retune();
    }

    // ----- partitions -----

    /** mmc_cmdq_switch; the queue is not to be enabled in RPMB. */
    method CmdqSwitch(enable: bool) returns (err: int, ghost seen: seq<Event>)
      requires Balanced() && (enable ==> Access(partConfig) != ACC_RPMB)
      modifies `step, `canRetune, `needRetune, `retuneNow, `doingRetune, `holdRetune, `warned, `events, `cmdqEn
      ensures Balanced() && events == old(events) + seen
      ensures cmdqEn == if err == 0 then enable else old(cmdqEn)
      ensures (!cmdqSupport ==> err == EOPNOTSUPP && seen == []) && (Good() && cmdqSupport ==> err == 0)
    {
      if !cmdqSupport {
        return EOPNOTSUPP, [];
      }
      err, seen := Switch(true, false, true, false);
      if err == 0 {
        cmdqEn := enable;
      }
    }

    method PartSwitchPre(partType: nat) returns (ret: int, ghost seen: seq<Event>)
      requires Balanced() && PartOk() && partType != partCurr && isMmc
      modifies `step, `canRetune, `needRetune, `retuneNow, `doingRetune, `holdRetune, `warned, `events, `cmdqEn, `retunePaused
      ensures Balanced() && events == old(events) + seen
      ensures ret != 0 || partType != ACC_RPMB ==> retunePaused == old(retunePaused) && cmdqEn == old(cmdqEn)
      ensures ret == 0 && partType == ACC_RPMB ==> retunePaused && !cmdqEn
      ensures ret != 0 ==> partType == ACC_RPMB
      ensures Good() && cmdqSupport ==> ret == 0
    {
      ret, seen := 0, [];
      if partType == ACC_RPMB {
        if cmdqEn {
          ret, seen := CmdqSwitch(false);
          if ret != 0 {
            return;
          }
        }
        Pause();
      }
    }

    method PartSwitchPost(partType: nat) returns (ret: int, ghost seen: seq<Event>)
      requires Balanced() && (partType == ACC_RPMB ==> Access(partConfig) != ACC_RPMB)
      modifies `step, `canRetune, `needRetune, `retuneNow, `doingRetune, `holdRetune, `warned, `events, `cmdqEn, `retunePaused
      ensures Balanced() && events == old(events) + seen
      ensures partType == ACC_RPMB ==> !retunePaused
      ensures partType != ACC_RPMB ==> retunePaused == old(retunePaused) && cmdqEn == old(cmdqEn) && ret == 0
      ensures (old(cmdqEn) ==> cmdqEn) && (ret != 0 ==> !cmdqEn)
      ensures Good() && cmdqSupport ==> ret == 0 && (partType == ACC_RPMB && reenableCmdq ==> cmdqEn)
    {
      ret, seen := 0, [];
      if partType == ACC_RPMB {
        Unpause();
        if reenableCmdq && !cmdqEn {
          ret, seen := CmdqSwitch(true);
        }
      }
    }

    /** The switch itself; when it fails, what was prepared for it is taken back. */
    method WriteAccess(partType: nat) returns (ret: int, ghost seen: seq<Event>)
      requires Balanced() && (partType == ACC_RPMB ==> Access(partConfig) != ACC_RPMB)
      modifies `step, `canRetune, `needRetune, `retuneNow, `doingRetune, `holdRetune, `warned, `events, `cmdqEn, `retunePaused
      ensures Balanced() && events == old(events) + seen && (Good() && cmdqSupport ==> ret == 0)
      ensures ret == 0 ==> Cmd in seen && retunePaused == old(retunePaused) && cmdqEn == old(cmdqEn)
      ensures ret != 0 && partType == ACC_RPMB ==> !retunePaused
      ensures ret != 0 && partType != ACC_RPMB ==> retunePaused == old(retunePaused) && cmdqEn == old(cmdqEn)
    {
      ret, seen := Switch(true, false, true, false);
      if ret != 0 {
        var ignored;
        ghost var more;
        ignored, more := PartSwitchPost(partType);
        seen := seen + more;
      }
    }

    /**
     mmc_blk_part_switch: on every path the books agree again. A failure before or during the switch
     leaves the partition as it was; a failure to enable the queue again does not undo the switch.
     */
    method PartSwitch(partType: nat) returns (ret: int, ghost seen: seq<Event>)
      requires Balanced() && PartOk() && partType <= ACC_MASK
      modifies `step, `canRetune, `needRetune, `retuneNow, `doingRetune, `holdRetune, `warned, `events, `cmdqEn, `retunePaused, `partConfig, `partCurr
      ensures Balanced() && PartOk() && events == old(events) + seen
      ensures ret == 0 ==> partCurr == partType && (isMmc && old(partCurr) != partType ==> Cmd in seen)
      ensures Good() && cmdqSupport ==> ret == 0
      ensures partCurr == old(partCurr) || partCurr == partType
      ensures partCurr == old(partCurr) ==> partConfig == old(partConfig)
      ensures partConfig / 8 == old(partConfig) / 8
      ensures ret != 0 && partCurr != old(partCurr) ==> old(partCurr) == ACC_RPMB && !cmdqEn
    {
      ret, seen := 0, [];
      if partCurr == partType {
        return;
      }
      if isMmc {
        ret, seen := PartSwitchPre(partType);
        if ret != 0 {
          return;
        }
        ghost var more;
        ret, more := WriteAccess(partType);
        seen := seen + more;
        if ret != 0 {
          return;
        }
        partConfig := Selecting(partConfig, partType);
        assert Access(partConfig) == partType && partConfig < 256 && partConfig / 8 == old(partConfig) / 8;
        ret, more := PartSwitchPost(partCurr);
        seen := seen + more;
      }
      partCurr := partType;
    }

    /** Any operations in any order, whatever fails in them, leave holds and partition books in order. */
    method Run(ops: seq<Op>) returns (ghost seen: seq<Event>)
      requires Balanced() && PartOk()
      modifies this
      ensures Balanced() && PartOk() && events == old(events) + seen
    {
      seen := [];
      for i := 0 to |ops|
        invariant Balanced() && PartOk() && events == old(events) + seen
      {
        ghost var more := Do(ops[i]);
        seen := seen + more;
      }
    }

    /**
     Any commands, switches, erases and queue recoveries while something else holds re-tuning, such
     as a pause for RPMB: tuning comes before the first of them or not at all.
     */
    method RunHeld(ops: seq<Op>) returns (ghost seen: seq<Event>)
      requires !doingRetune && forall i :: 0 <= i < |ops| ==> ops[i].Sends()
      modifies `step, `canRetune, `needRetune, `retuneNow, `doingRetune, `holdRetune, `warned, `events
      ensures events == old(events) + seen && Kept(old(F()), seen, F())
      ensures old(holdRetune) > 0 ==> TunesFirst(seen) && (!old(retuneNow) ==> Tune !in seen)
    {
      seen := [];
      for i := 0 to |ops|
        invariant !doingRetune && events == old(events) + seen && Kept(old(F()), seen, F())
      {
        ghost var f, more := F(), [];
        var err;
        match ops[i] {
          case DoCommand(retries, sanitize) => err, more := WaitForCmd(retries, sanitize);
          case DoSwitch(useBusySignal, hwBusy, sendStatus, sanitize) => err, more := Switch(useBusySignal, hwBusy, sendStatus, sanitize);
          case DoEraseOp(poll) => err, more := DoErase(poll);
          case DoCqeRecovery => err, more := CqeRecovery();
        }
        KeptThen(old(F()), seen, f, more, F());
        seen := seen + more;
      }
    }

    method Do(op: Op) returns (ghost seen: seq<Event>)
      requires Balanced() && PartOk()
      modifies this
      ensures Balanced() && PartOk() && events == old(events) + seen
    {
      var err;
      seen := [];
      match op
      case DoCommand(retries, sanitize) => err, seen := WaitForCmd(retries, sanitize);
      case DoSwitch(useBusySignal, hwBusy, sendStatus, sanitize) => err, seen := Switch(useBusySignal, hwBusy, sendStatus, sanitize);
      case DoEraseOp(poll) => err, seen := DoErase(poll);
      case DoCqeStart(first) => err, seen := CqeStart(first);
      case DoCqeRecovery => err, seen := CqeRecovery();
      case DoStartBkops(fromException, level) =>
        ghost var ignored;
        seen, ignored := StartBkops(fromException, level);
      case DoStopBkops => if doingBkops { err, seen := StopBkops(); }
      case DoIssue(prepared, doneComplete) => if !rwHeld { err, seen := IssueRw(prepared, doneComplete); }
      case DoComplete(bad, poll, spi, sdWrite, singles, urgent, level) =>
        if rwHeld {
          seen := PollCompletion(bad, poll, spi, sdWrite, singles, urgent, level);
        }
      case DoRecover(bad, spi, sdWrite, singles, urgent, level) =>
        if !rwHeld {
          seen := MqRecovery(bad, spi, sdWrite, singles, urgent, level);
        }
      case DoPartSwitch(partType) => if partType <= ACC_MASK { err, seen := PartSwitch(partType); }
    }
  }

  datatype Op =
    | DoCommand(retries: nat, sanitize: bool)
    | DoSwitch(useBusySignal: bool, hwBusy: bool, sendStatus: bool, sanitize: bool)
    | DoEraseOp(poll: bool)
    | DoCqeStart(first: bool)
    | DoCqeRecovery
    | DoStartBkops(fromException: bool, level: nat)
    | DoStopBkops
    | DoIssue(prepared: int, doneComplete: bool)
    | DoComplete(bad: bool, poll: bool, spi: bool, sdWrite: bool, singles: nat, urgent: bool, level: nat)
    | DoRecover(bad: bool, spi: bool, sdWrite: bool, singles: nat, urgent: bool, level: nat)
    | DoPartSwitch(partType: nat)
  {
    predicate Sends() {
      DoCommand? || DoSwitch? || DoEraseOp? || DoCqeRecovery?
    }
  }
}
