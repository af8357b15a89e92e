/**
 The retry machine of the non-queued read/write path (mmc/core/block.c). What the card, the
 bus and the block layer do in one attempt is an environment record; a request is what is left
 of it, its retry counter and the byte count the last attempt reports.
 */
module Retry {
  import opened Basics
  import opened Behaviours

  const MAX_RETRIES: int := 5
  const DATA_RETRIES: int := 2
  const NO_RETRIES: int := MAX_RETRIES + 1
  const READ_SINGLE_RETRIES: int := 2
  const SECTOR: nat := 512

  datatype Request = Request(remaining: nat, retries: int, xfered: nat)

  /** One single-sector read: the errors seen and the byte count left in the request. */
  datatype Single = Single(statusError: bool, stuck: bool, cmdError: bool, otherError: bool, xfered: nat)

  /** What one sector was reported as, and how its own read went. */
  datatype Report = Report(reportedOk: bool, readOk: bool)

  /** One attempt at the request, in the order mmc_blk_mq_rw_recovery looks. */
  datatype Attempt = Attempt(xfered: nat, rqError: bool, status1Error: bool, statusBad: bool, status2Error: bool,
                             removed: bool, spi: bool, notTran: bool, fixError: bool,
                             cmdStarted: bool, sd: bool, write: bool, countError: bool, countedBlocks: nat,
                             resetError: bool, cmdError: bool, largeSector: bool, blocks: nat,
                             singles: nat -> Single)

  datatype Fate = Requeued | EndedOk | EndedError

  /** blk_update_request: account for n bytes; true when some remain. */
  function Update(r: Request, n: nat): (Request, bool) {
    var left := if n < r.remaining then r.remaining - n else 0;
    (r.(remaining := left), left > 0)
  }

  // ----- single-sector recovery -----

  predicate Truthful(report: Report) {
    report.reportedOk <==> report.readOk
  }

  /** error_exit of mmc_blk_read_single */
  function GiveUpSector(r: Request): Request {
    Update(r, SECTOR).0.(xfered := 0, retries := Min(r.retries, MAX_RETRIES - 1))
  }

  /** A command error within the retry allowance goes back to the loop test without judging the sector. */
  predicate Skips(s: Single, tries: int) {
    s.cmdError && tries < READ_SINGLE_RETRIES
  }

  /** mmc_blk_read_single from its nth pass on, with the loop's local error and retry count. */
  function ReadSingle(r: Request, singles: nat -> Single, n: nat, error: bool, tries: int): (Request, seq<Report>)
    decreases r.remaining
  {
    var s := singles(n);
    if s.statusError || s.stuck then (GiveUpSector(r), [Report(false, false)])
    else
      var error' := if Skips(s, tries) then error else s.cmdError || s.otherError;
      var tries' := if Skips(s, tries) then tries + 1 else 0;
      var (r1, more) := Update(r, SECTOR);
      var r2 := r1.(xfered := s.xfered);
      var report := [Report(!error', !s.cmdError && !s.otherError)];
      if more then
        var (last, rest) := ReadSingle(r2, singles, n + 1, error', tries');
        (last, report + rest)
      else (r2, report)
  }

  /** Single-sector recovery consumes at least one sector, or whatever smaller rest there is. */
  lemma {:induction false} ReadSingleConsumes(r: Request, singles: nat -> Single, n: nat, error: bool, tries: int)
    ensures var (r', reports) := ReadSingle(r, singles, n, error, tries);
            && r'.remaining <= (if r.remaining > SECTOR then r.remaining - SECTOR else 0)
            && (r'.retries == r.retries || (r'.retries == MAX_RETRIES - 1 < r.retries))
            && (r'.remaining > 0 ==> r'.retries <= MAX_RETRIES - 1 && r'.xfered == 0)
            && 1 <= |reports|
    decreases r.remaining
  {
    var s := singles(n);
    if !s.statusError && !s.stuck {
      var (r1, more) := Update(r, SECTOR);
      if more {
        ReadSingleConsumes(r1.(xfered := s.xfered), singles, n + 1,
                           if Skips(s, tries) then error else s.cmdError || s.otherError,
                           if Skips(s, tries) then tries + 1 else 0);
      }
    }
  }

  /**
   A pass tells the truth about its sector exactly when its command error, if any, is not taken
   for a retry, or the verdict it inherits is an error already: the loop test that follows a retry
   still completes a sector, and completes it with the previous verdict.
   */
  lemma PassReportTrueIff(r: Request, singles: nat -> Single, n: nat, error: bool, tries: int)
    ensures var reports := ReadSingle(r, singles, n, error, tries).1;
            var s := singles(n);
            && |reports| >= 1
            && (Truthful(reports[0])
                <==> s.statusError || s.stuck || !Skips(s, tries) || error)
  {
    ReadSingleConsumes(r, singles, n, error, tries);
  }

  /** A failed first read of a two-sector rest is reported as read. */
  lemma StaleReport()
    ensures var flaky: nat -> Single := n => Single(false, false, n == 0, false, SECTOR);
            ReadSingle(Request(2 * SECTOR, 3, 0), flaky, 0, false, 0).1 == [Report(true, false), Report(true, true)]
  {
    var flaky: nat -> Single := n => Single(false, false, n == 0, false, SECTOR);
    assert ReadSingle(Request(SECTOR, 3, SECTOR), flaky, 1, false, 1).1 == [Report(true, true)];
  }

  /** A pass whose read went wrong, as far as the loop goes on after it. */
  predicate Failed(s: Single) {
    s.cmdError || s.otherError
  }

  /** A command error the loop meets with no error of the pass before to fall back on. */
  predicate Unprepared(singles: nat -> Single, m: nat) {
    && singles(m).cmdError && !singles(m).statusError && !singles(m).stuck
    && (m == 0 || !Failed(singles(m - 1)))
  }

  ghost predicate AllTruthful(reports: seq<Report>) {
    forall i :: 0 <= i < |reports| ==> Truthful(reports[i])
  }

  ghost predicate NoneUnprepared(singles: nat -> Single, n: nat, passes: nat) {
    forall m: nat :: n <= m < n + passes ==> !Unprepared(singles, m)
  }

  lemma FirstThenRest(report: Report, rest: seq<Report>, singles: nat -> Single, n: nat)
    ensures AllTruthful([report] + rest) <==> Truthful(report) && AllTruthful(rest)
    ensures NoneUnprepared(singles, n, 1 + |rest|) <==> !Unprepared(singles, n) && NoneUnprepared(singles, n + 1, |rest|)
  {
    var all := [report] + rest;
    if AllTruthful(all) {
      assert all[0] == report;
      assert forall i :: 0 <= i < |rest| ==> rest[i] == all[i + 1];
    }
  }

  /**
   From any pass on, while the verdicts so far were true: then the error variable is what went wrong
   in the pass before, and without it no retry is under way.
   */
  lemma {:induction false} TruthfulFrom(r: Request, singles: nat -> Single, n: nat, error: bool, tries: int)
    requires if n == 0 then !error else error <==> Failed(singles(n - 1))
    requires !error ==> tries == 0
    ensures var reports := ReadSingle(r, singles, n, error, tries).1;
            AllTruthful(reports) <==> NoneUnprepared(singles, n, |reports|)
    decreases r.remaining
  {
    var s := singles(n);
    var reports := ReadSingle(r, singles, n, error, tries).1;
    PassReportTrueIff(r, singles, n, error, tries);
    assert Truthful(reports[0]) <==> !Unprepared(singles, n);
    FirstThenRest(reports[0], reports[1..], singles, n);
    assert reports == [reports[0]] + reports[1..];
    if !s.statusError && !s.stuck && Update(r, SECTOR).1 && !Unprepared(singles, n) {
      var error' := if Skips(s, tries) then error else Failed(s);
      var tries' := if Skips(s, tries) then tries + 1 else 0;
      TruthfulFrom(Update(r, SECTOR).0.(xfered := s.xfered), singles, n + 1, error', tries');
    }
  }

  /** How many passes a call makes: to the first whose status is no use, or to the end of the request. */
  function Passes(remaining: nat, singles: nat -> Single, n: nat): nat
    decreases remaining
  {
    if singles(n).statusError || singles(n).stuck || remaining <= SECTOR then 1
    else 1 + Passes(remaining - SECTOR, singles, n + 1)
  }

  lemma {:induction false} PassesAre(r: Request, singles: nat -> Single, n: nat, error: bool, tries: int)
    ensures |ReadSingle(r, singles, n, error, tries).1| == Passes(r.remaining, singles, n)
    decreases r.remaining
  {
    var s := singles(n);
    if !s.statusError && !s.stuck && r.remaining > SECTOR {
      PassesAre(Update(r, SECTOR).0.(xfered := s.xfered), singles, n + 1,
                if Skips(s, tries) then error else s.cmdError || s.otherError, if Skips(s, tries) then tries + 1 else 0);
    }
  }

  /**
   A call reports every sector as its own read went if and only if no pass it reaches has a command
   error, with the card's status fine, right at the start or right after a pass without error.
   */
  lemma ReportsTruthfulIff(r: Request, singles: nat -> Single)
    ensures var reports := ReadSingle(r, singles, 0, false, 0).1;
            (forall i :: 0 <= i < |reports| ==> (reports[i].reportedOk <==> reports[i].readOk))
            <==> (forall m: nat :: m < Passes(r.remaining, singles, 0) ==> !Unprepared(singles, m))
  {
    PassesAre(r, singles, 0, false, 0);
    TruthfulFrom(r, singles, 0, false, 0);
    var reports := ReadSingle(r, singles, 0, false, 0).1;
    assert AllTruthful(reports) <==> forall i :: 0 <= i < |reports| ==> (reports[i].reportedOk <==> reports[i].readOk);
    assert NoneUnprepared(singles, 0, |reports|) <==> forall m: nat :: m < |reports| ==> !Unprepared(singles, m);
  }

  // ----- recovery and completion -----

  const U32: int := 0x1_0000_0000

  /** mmc_blk_mq_rw_recovery */
  function Recover(r: Request, a: Attempt): Request {
    var r1 := if a.status1Error || a.statusBad then r.(xfered := 0) else r;
    var err := a.status1Error && a.status2Error;
    if err && a.removed then r1
    else
      var err' := if !a.spi && (err || a.notTran) then a.fixError else err;
      var r2 := if !err' && a.cmdStarted && a.sd && a.write
                then r1.(xfered := if a.countError then 0 else (a.countedBlocks * SECTOR) % U32)
                else r1;
      if !a.spi && err' && a.resetError then r2.(retries := NO_RETRIES)
      else if r2.xfered != 0 then r2
      else if a.cmdError then r2
      else if r2.retries < MAX_RETRIES - DATA_RETRIES then r2.(retries := MAX_RETRIES - DATA_RETRIES)
      else if !a.largeSector && !a.write && a.blocks > 1 then ReadSingle(r2, a.singles, 0, false, 0).0
      else r2
  }

  /** mmc_blk_mq_complete_rq */
  function Complete(r: Request): (Request, Fate) {
    if r.xfered != 0 then
      var (r', more) := Update(r, r.xfered);
      (r', if more then Requeued else EndedOk)
    else if r.remaining == 0 then (r, EndedError)
    else if r.retries < MAX_RETRIES then (r.(retries := r.retries + 1), Requeued)
    else (r.(retries := r.retries + 1), EndedError)
  }

  /** One issue of the request, from the host's result to the block layer's verdict. */
  function Serve(r: Request, a: Attempt): (Request, Fate) {
    var r1 := r.(xfered := a.xfered);
    Complete(if a.rqError then Recover(r1, a) else r1)
  }

  /** The counter stays where the requeue policy can put it. */
  predicate Live(r: Request) {
    r.remaining > 0 && 0 <= r.retries <= NO_RETRIES
  }

  lemma RecoverKeeps(r: Request, a: Attempt)
    requires Live(r)
    ensures var r' := Recover(r, a);
            && 0 <= r'.retries <= NO_RETRIES
            && r'.remaining <= r.remaining
            && (r'.remaining == r.remaining ==> r'.retries >= r.retries)
  {
    ReadSingleConsumes(r.(xfered := 0), a.singles, 0, false, 0);
  }

  /** Every requeue leaves less to do, or as much with one retry fewer left. */
  lemma RequeueDecreases(r: Request, a: Attempt)
    requires Live(r) && Serve(r, a).1.Requeued?
    ensures var r' := Serve(r, a).0;
            Live(r') && (r'.remaining < r.remaining || (r'.remaining == r.remaining && r'.retries > r.retries))
  {
    RecoverKeeps(r.(xfered := a.xfered), a);
  }

  function Rank(r: Request): int {
    (NO_RETRIES + 1) * r.remaining + NO_RETRIES - r.retries
  }

  ghost predicate Requeue(r: Request, r': Request) {
    Live(r) && exists a :: Serve(r, a) == (r', Requeued)
  }

  /**
   A request is issued only finitely often: however the card behaves, the number of requeues is
   bounded by its size, and at most NO_RETRIES - retries of them in a row make no progress.
   */
  lemma {:induction false} RequeuesEnd(run: seq<Request>)
    requires IsRun(Requeue, run) && Live(run[0])
    ensures var last := run[|run| - 1];
            && Live(last) && last.remaining <= run[0].remaining
            && |run| - 1 <= Rank(run[0]) - Rank(last)
            && (last.remaining == run[0].remaining ==> |run| - 1 <= last.retries - run[0].retries)
  {
    if |run| > 1 {
      var before := run[..|run| - 1];
      assert forall i :: 0 <= i < |before| ==> before[i] == run[i];
      RequeuesEnd(before);
      var r, r' := run[|run| - 2], run[|run| - 2 + 1];
      assert Requeue(r, r');
      var a :| Serve(r, a) == (r', Requeued);
      RequeueDecreases(r, a);
    }
  }

  lemma IssuesBounded(run: seq<Request>)
    requires IsRun(Requeue, run) && Live(run[0])
    ensures |run| <= 7 * run[0].remaining + 7
  {
    RequeuesEnd(run);
  }

  // ----- the same, as the driver does it -----

  lemma NextReport(before: seq<Report>, report: Report, tail: seq<Report>)
    ensures before + ([report] + tail) == (before + [report]) + tail
  {
  }

  class BlockRequest {
    var remaining: nat
    var retries: int
    var bytesXfered: nat

    ghost function View(): Request
      reads this
    {
      Request(remaining, retries, bytesXfered)
    }

    constructor (bytes: nat)
      ensures View() == Request(bytes, 0, 0)
    {
      remaining, retries, bytesXfered := bytes, 0, 0;
    }

    method UpdateRequest(n: nat) returns (more: bool)
      modifies this`remaining
      ensures (View(), more) == Update(old(View()), n)
    {
      remaining := if n < remaining then remaining - n else 0;
      more := remaining > 0;
    }

    method ReadSingleSectors(singles: nat -> Single) returns (reports: seq<Report>)
      modifies this
      ensures (View(), reports) == ReadSingle(old(View()), singles, 0, false, 0)
    {
      ghost var whole := ReadSingle(View(), singles, 0, false, 0);
      var n, error, tries, more := 0, false, 0, true;
      reports := [];
      while more
        invariant more ==> ReadSingle(View(), singles, n, error, tries).0 == whole.0
        invariant more ==> reports + ReadSingle(View(), singles, n, error, tries).1 == whole.1
        invariant !more ==> View() == whole.0 && reports == whole.1
        decreases more, remaining
      {
        ghost var before, rest := reports, ReadSingle(View(), singles, n, error, tries).1;
        var s := singles(n);
        bytesXfered := s.xfered;
        if s.statusError || s.stuck {
          bytesXfered := 0;
          more := UpdateRequest(SECTOR);
          if retries > MAX_RETRIES - 1 {
            retries := MAX_RETRIES - 1;
          }
          reports := reports + [Report(false, false)];
          return;
        }
        if s.cmdError && tries < READ_SINGLE_RETRIES {
          tries := tries + 1;
        } else {
          tries := 0;
          error := s.cmdError || s.otherError;
        }
        var report := Report(!error, !s.cmdError && !s.otherError);
        reports := reports + [report];
        more := UpdateRequest(SECTOR);
        n := n + 1;
        if more {
          ghost var tail := ReadSingle(View(), singles, n, error, tries).1;
          assert rest == [report] + tail;
          NextReport(before, report, tail);
        }
      }
    }

    method RwRecovery(a: Attempt)
      modifies this
      ensures View() == Recover(old(View()), a)
    {
      if a.status1Error || a.statusBad {
        bytesXfered := 0;
      }
      var err := a.status1Error;
      if err {
        err := a.status2Error;
      }
      if err && a.removed {
        return;
      }
      if !a.spi && (err || a.notTran) {
        err := a.fixError;
      }
      if !err && a.cmdStarted && a.sd && a.write {
        bytesXfered := if a.countError then 0 else (a.countedBlocks * SECTOR) % U32;
      }
      if !a.spi && err && a.resetError {
        retries := NO_RETRIES;
        return;
      }
      if bytesXfered != 0 {
        return;
      }
      if a.cmdError {
        return;
      }
      if retries < MAX_RETRIES - DATA_RETRIES {
        retries := MAX_RETRIES - DATA_RETRIES;
        return;
      }
      if !a.largeSector && !a.write && a.blocks > 1 {
        var _ := ReadSingleSectors(a.singles);
      }
    }

    method CompleteRq() returns (fate: Fate)
      modifies this
      ensures (View(), fate) == Complete(old(View()))
    {
      if bytesXfered != 0 {
        var more := UpdateRequest(bytesXfered);
        fate := if more then Requeued else EndedOk;
      } else if remaining == 0 {
        fate := EndedError;
      } else {
        fate := if retries < MAX_RETRIES then Requeued else EndedError;
        retries := retries + 1;
      }
    }

    /** Issue the request until the block layer gets it back; it does, whatever the attempts bring. */
    method ServeToTheEnd(attempts: nat -> Attempt) returns (issues: nat, fate: Fate)
      requires Live(View())
      modifies this
      ensures !fate.Requeued?
      ensures issues <= Rank(old(View())) + 1
    {
      issues, fate := 0, Requeued;
      while fate.Requeued?
        invariant fate.Requeued? ==> Live(View()) && issues <= Rank(old(View())) - Rank(View())
        invariant !fate.Requeued? ==> issues <= Rank(old(View())) + 1
        decreases if fate.Requeued? then Rank(View()) + 1 else 0
      {
        ghost var r := View();
        var a := attempts(issues);
        bytesXfered := a.xfered;
        if a.rqError {
          RwRecovery(a);
        }
        fate := CompleteRq();
        assert (View(), fate) == Serve(r, a);
        if fate.Requeued? {
          RequeueDecreases(r, a);
        }
        issues := issues + 1;
      }
    }
  }
}
