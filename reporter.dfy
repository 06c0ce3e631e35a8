/**
 * The status reporter of the job monitor: it POSTs a job's lifecycle event to
 * the control-plane API, tolerating timeouts by a bounded number of retries.
 *
 * The network is an oracle: `net(k)` is what the k-th HTTP request made by the
 * process came to (counting from 0 over the whole run). A report that starts
 * after `base` earlier requests sees `net(base)`, `net(base + 1)`, ...
 */
module Reporter {

  /** What one HTTP POST came to. */
  datatype Attempt =
    | Timeout                 // requests.exceptions.Timeout: the only exception caught
    | Response(status: int)   // the server answered with some status code
    | Failure                 // any other exception (DNS, refused connection, ...)

  /** How a report ended, as seen by its caller. */
  datatype Delivery =
    | Accepted                // status 200 or 204
    | Rejected(status: int)   // any other status: logged as an error, not retried
    | Escaped                 // a non-timeout exception left the reporter
    | Exhausted               // every attempt timed out, or no attempt was allowed

  /** The phases an end-of-job report can carry. */
  datatype Phase = Completed | Aborted | Error

  /** One call of the end reporter: the phase it sent, the POSTs it made, how it ended. */
  datatype Report = Report(phase: Phase, attempts: nat, delivery: Delivery)

  /** The job's identity and the API it reports to; fixed for the whole run. */
  datatype Job = Job(id: string, token: string, url: string, dir: string)
  {
    /** The reporter and the watcher both refuse to run without these. */
    predicate Valid() { id != "" && token != "" && url != "" }
  }

  /** The attempt budget every caller in the program uses (the default argument). */
  const DefaultAttempts := 5

  predicate IsSuccess(status: int) { status == 200 || status == 204 }

  function Max0(n: int): nat { if n < 0 then 0 else n }

  /** The verdict of one attempt if it is the last one made. */
  function Settle(a: Attempt): (d: Delivery)
    ensures d == Accepted <==> a.Response? && IsSuccess(a.status)
    ensures d.Rejected? <==> a.Response? && !IsSuccess(a.status)
    ensures d.Rejected? ==> d.status == a.status
    ensures d == Escaped <==> a == Failure
    ensures d == Exhausted <==> a == Timeout
  {
    match a
    case Timeout => Exhausted
    case Response(status) => if IsSuccess(status) then Accepted else Rejected(status)
    case Failure => Escaped
  }

  /** The retry policy, after `done` attempts that all timed out. */
  function OutcomeFrom(phase: Phase, numAttempts: int, net: nat -> Attempt, base: nat, done: nat): (r: Report)
    requires done <= Max0(numAttempts)
    decreases numAttempts - done
    ensures r.phase == phase
    ensures done <= r.attempts <= Max0(numAttempts)
  {
    if done >= numAttempts then Report(phase, done, Exhausted)
    else if net(base + done) == Timeout then OutcomeFrom(phase, numAttempts, net, base, done + 1)
    else Report(phase, done + 1, Settle(net(base + done)))
  }

  /** What a call of the end reporter comes to, given the network's behaviour. */
  function EndReportOutcome(phase: Phase, numAttempts: int, net: nat -> Attempt, base: nat): (r: Report)
    ensures r.phase == phase
    ensures r.attempts <= Max0(numAttempts)
  {
    OutcomeFrom(phase, numAttempts, net, base, 0)
  }

  /** Whether the caller of a report goes on normally afterwards. */
  predicate ExitsNormally(r: Report) { r.delivery != Escaped }

  /**
   * The end reporter: up to `numAttempts` POSTs of `phase`, one more per
   * timeout; the first response of any status, or any other exception, ends it.
   */
  method ReportJobEnded(job: Job, phase: Phase, numAttempts: int, net: nat -> Attempt, base: nat)
    returns (r: Report)
    requires job.Valid()
    ensures r == EndReportOutcome(phase, numAttempts, net, base)
    ensures r.attempts <= Max0(numAttempts)
    ensures forall j :: base <= j < base + r.attempts - 1 ==> net(j) == Timeout
  {
    var attemptIdx: nat := 0;
    while attemptIdx < numAttempts
      invariant attemptIdx <= Max0(numAttempts)
      invariant forall j :: base <= j < base + attemptIdx ==> net(j) == Timeout
      invariant OutcomeFrom(phase, numAttempts, net, base, attemptIdx) == EndReportOutcome(phase, numAttempts, net, base)
      decreases numAttempts - attemptIdx
    {
      attemptIdx := attemptIdx + 1;
      var outcome := net(base + attemptIdx - 1);
      match outcome {
        case Response(status) =>
          if IsSuccess(status) {
            return Report(phase, attemptIdx, Accepted);
          } else {
            return Report(phase, attemptIdx, Rejected(status));
          }
        case Failure =>
          return Report(phase, attemptIdx, Escaped);
        case Timeout =>
          // logged as a warning; the loop makes another attempt
      }
    }
    return Report(phase, attemptIdx, Exhausted);
  }

  /**
   * The start report: a single POST to the start endpoint; a timeout or a
   * rejecting status is logged, any other exception escapes.
   */
  method ReportJobStarted(job: Job, net: nat -> Attempt, base: nat) returns (d: Delivery)
    requires job.Valid()
    ensures d == Settle(net(base))
  {
    var outcome := net(base);
    match outcome {
      case Response(status) =>
        if IsSuccess(status) {
          d := Accepted;
        } else {
          d := Rejected(status);
        }
      case Timeout =>
        d := Exhausted;
      case Failure =>
        d := Escaped;
    }
  }

  /**
   * The shape of any end report: every attempt but the last timed out; if it
   * did not give up, the last attempt was not a timeout and decides the verdict;
   * if it gave up, it used the whole budget on timeouts.
   */
  lemma {:induction false} OutcomeFromShape(phase: Phase, numAttempts: int, net: nat -> Attempt, base: nat, done: nat)
    requires done <= Max0(numAttempts)
    requires forall j :: base <= j < base + done ==> net(j) == Timeout
    ensures var r := OutcomeFrom(phase, numAttempts, net, base, done);
      (forall j :: base <= j < base + r.attempts - 1 ==> net(j) == Timeout)
      && (r.delivery == Exhausted ==>
            r.attempts == Max0(numAttempts) && forall j :: base <= j < base + r.attempts ==> net(j) == Timeout)
      && (r.delivery != Exhausted ==>
            1 <= r.attempts && net(base + r.attempts - 1) != Timeout
            && r.delivery == Settle(net(base + r.attempts - 1)))
    decreases numAttempts - done
  {
    if done < numAttempts && net(base + done) == Timeout {
      OutcomeFromShape(phase, numAttempts, net, base, done + 1);
    }
  }

  /**
   * Bounded retries: at most `numAttempts` POSTs and none for a non-positive
   * budget; only timeouts lead to another attempt; the first non-timeout
   * outcome ends the report and decides it; the report gives up exactly when
   * every attempt of the budget times out, after the whole budget.
   */
  lemma EndReportShape(phase: Phase, numAttempts: int, net: nat -> Attempt, base: nat)
    ensures var r := EndReportOutcome(phase, numAttempts, net, base);
      r.attempts <= Max0(numAttempts)
      && (numAttempts <= 0 ==> r == Report(phase, 0, Exhausted))
      && (forall j :: base <= j < base + r.attempts - 1 ==> net(j) == Timeout)
      && (r.delivery != Exhausted ==>
            1 <= r.attempts && net(base + r.attempts - 1) != Timeout
            && r.delivery == Settle(net(base + r.attempts - 1)))
      && (r.delivery == Exhausted <==> forall j :: base <= j < base + numAttempts ==> net(j) == Timeout)
      && (r.delivery == Exhausted ==> r.attempts == Max0(numAttempts))
  {
    OutcomeFromShape(phase, numAttempts, net, base, 0);
  }

  /** A report succeeds if and only if its last POST got status 200 or 204. */
  lemma SuccessIffOkStatus(phase: Phase, numAttempts: int, net: nat -> Attempt, base: nat)
    ensures var r := EndReportOutcome(phase, numAttempts, net, base);
      r.delivery == Accepted <==>
        1 <= r.attempts && net(base + r.attempts - 1).Response? && IsSuccess(net(base + r.attempts - 1).status)
  {
    EndReportShape(phase, numAttempts, net, base);
  }

  /** With a budget of five, four timeouts followed by a 204 give five attempts and success. */
  lemma FourTimeoutsThenNoContent(phase: Phase, net: nat -> Attempt, base: nat)
    requires forall j :: base <= j < base + 4 ==> net(j) == Timeout
    requires net(base + 4) == Response(204)
    ensures EndReportOutcome(phase, 5, net, base) == Report(phase, 5, Accepted)
  {
  }

  /** A run of timeouts as long as the budget simply gives up after the budget. */
  lemma AllTimeoutsGiveUp(phase: Phase, numAttempts: int, net: nat -> Attempt, base: nat)
    requires forall j :: base <= j < base + numAttempts ==> net(j) == Timeout
    ensures EndReportOutcome(phase, numAttempts, net, base) == Report(phase, Max0(numAttempts), Exhausted)
  {
    EndReportShape(phase, numAttempts, net, base);
  }

  /** The start report follows the end reporter's policy with a budget of one attempt. */
  lemma StartIsSingleAttempt(phase: Phase, net: nat -> Attempt, base: nat)
    ensures EndReportOutcome(phase, 1, net, base) == Report(phase, 1, Settle(net(base)))
  {
  }
}
