/**
 * The completion watcher of the job monitor: in prestop mode it only reports
 * the job aborted; otherwise it reports the start, then polls the job's work
 * directory until `manifest.yaml` appears (completed), `finished` appears
 * without it (error), or `job.log` stops growing (aborted).
 *
 * The filesystem is given as one `Poll` record per pass of the polling loop,
 * and a `Cleanup` record for the check made once the loop is left. When the
 * polls run out while the watcher is still polling, the run is `Watching`: a
 * finite prefix of a loop that may go on for ever.
 */
module Watcher {
  import opened Reporter

  /** What `os.stat` on `job.log` gives: a size, or an exception. */
  datatype StatResult = Size(bytes: nat) | StatError

  /** `job.log` as one pass sees it. */
  datatype JobLog = Missing | Present(stat: StatResult)

  /**
   * One pass of the polling loop: the presence of `manifest.yaml` and of
   * `finished`, `job.log`, the clock, and whether deleting `finished` would
   * succeed. A pass reads only what its branch needs.
   */
  datatype Poll = Poll(manifest: bool, finished: bool, log: JobLog, now: real, unlinkOk: bool)

  /** The check for `finished` after the loop is left, and whether deleting it succeeds. */
  datatype Cleanup = Cleanup(finished: bool, unlinkOk: bool)

  /** The two variables the loop carries: the recorded log size and the start of the size-check window. */
  datatype Watch = Watch(logSize: nat, windowStart: real)

  /** What became of one pass. */
  datatype Decision =
    | Complete              // manifest.yaml is there: leave the loop
    | FinishedFound         // finished without manifest.yaml: delete it, report error
    | Stalled(next: Watch)  // the log did not grow over a window: report aborted
    | Keep(next: Watch)     // keep polling

  /** What the run did to the outside world, in order. */
  datatype Effect =
    | StartReported(delivery: Delivery)
    | EndReported(report: Report)
    | FinishedDeleted(ok: bool)

  /** How the run ended: by return, by an exception escaping, or not yet. */
  datatype Exit = Returned | Raised | Watching

  /** The effects of a run (or of the rest of one), how it ended and how many polls it read. */
  datatype Run = Run(effects: seq<Effect>, exit: Exit, polled: nat)

  function ExitAfter(r: Report): Exit { if ExitsNormally(r) then Returned else Raised }

  /** A pass that reaches the size check and finds the window elapsed. */
  predicate Compares(w: Watch, p: Poll, period: real)
  {
    !p.manifest && !p.finished && p.log.Present? && p.now - w.windowStart >= period
  }

  /** One pass of the loop, from the state the loop carries and what the pass observes. */
  function Decide(w: Watch, p: Poll, period: real): (d: Decision)
    // manifest.yaml wins over everything, and finished wins over the log check
    ensures d == Complete <==> p.manifest
    ensures d == FinishedFound <==> !p.manifest && p.finished
    // a stall only at a comparison, and only if the size equals the recorded one
    ensures d.Stalled? <==> Compares(w, p, period) && p.log.stat == Size(w.logSize)
    // the window restarts at every comparison, whatever stat gives, and only then
    ensures (d.Stalled? || d.Keep?) ==>
      d.next.windowStart == if Compares(w, p, period) then p.now else w.windowStart
    // a new size is recorded only when a comparison reads one
    ensures (d.Stalled? || d.Keep?) ==>
      d.next.logSize == if Compares(w, p, period) && p.log.stat.Size? then p.log.stat.bytes else w.logSize
    // with no job.log nothing changes
    ensures !p.manifest && !p.finished && p.log == Missing ==> d == Keep(w)
  {
    if p.manifest then Complete
    else if p.finished then FinishedFound
    else if p.log.Present? then
      if p.now - w.windowStart >= period then
        match p.log.stat
        case StatError => Keep(Watch(w.logSize, p.now))
        case Size(bytes) =>
          if w.logSize == bytes then Stalled(Watch(w.logSize, p.now)) else Keep(Watch(bytes, p.now))
      else Keep(w)
    else Keep(w)
  }

  function Deletion(present: bool, ok: bool): seq<Effect>
  {
    if present then [FinishedDeleted(ok)] else []
  }

  /** Puts effects made earlier in front of the rest of a run. */
  function Prefixed(before: seq<Effect>, rest: Run): Run
  {
    Run(before + rest.effects, rest.exit, rest.polled)
  }

  /**
   * The watch loop from pass `i` on, and the completion report, from state `w`
   * after `posts` HTTP requests. The run's `polled` counts every pass read,
   * from the first. A stall report that escapes is caught by the handler around
   * the size check, so the loop goes on polling.
   */
  function WatchFrom(period: real, w: Watch, posts: nat, polls: seq<Poll>, i: nat, cleanup: Cleanup, net: nat -> Attempt): (run: Run)
    requires i <= |polls|
    decreases |polls| - i
    ensures i <= run.polled <= |polls|
  {
    if i == |polls| then Run([], Watching, i)
    else
      match Decide(w, polls[i], period)
      case Complete =>
        var r := EndReportOutcome(Completed, DefaultAttempts, net, posts);
        Run(Deletion(cleanup.finished, cleanup.unlinkOk) + [EndReported(r)], ExitAfter(r), i + 1)
      case FinishedFound =>
        var r := EndReportOutcome(Error, DefaultAttempts, net, posts);
        Run([FinishedDeleted(polls[i].unlinkOk), EndReported(r)], ExitAfter(r), i + 1)
      case Stalled(next) =>
        var r := EndReportOutcome(Aborted, DefaultAttempts, net, posts);
        if ExitsNormally(r) then Run([EndReported(r)], Returned, i + 1)
        else Prefixed([EndReported(r)], WatchFrom(period, next, posts + r.attempts, polls, i + 1, cleanup, net))
      case Keep(next) =>
        WatchFrom(period, next, posts, polls, i + 1, cleanup, net)
  }

  /** A pass that sees manifest.yaml ends the loop with the completion report, whatever else it would see. */
  lemma StepComplete(period: real, w: Watch, posts: nat, polls: seq<Poll>, i: nat, cleanup: Cleanup, net: nat -> Attempt)
    requires i < |polls| && polls[i].manifest
    ensures var r := EndReportOutcome(Completed, DefaultAttempts, net, posts);
      WatchFrom(period, w, posts, polls, i, cleanup, net)
        == Run(Deletion(cleanup.finished, cleanup.unlinkOk) + [EndReported(r)], ExitAfter(r), i + 1)
  {
  }

  /** A pass that sees finished without manifest.yaml deletes it and reports error, whatever the log. */
  lemma StepFinished(period: real, w: Watch, posts: nat, polls: seq<Poll>, i: nat, cleanup: Cleanup, net: nat -> Attempt)
    requires i < |polls| && !polls[i].manifest && polls[i].finished
    ensures var r := EndReportOutcome(Error, DefaultAttempts, net, posts);
      WatchFrom(period, w, posts, polls, i, cleanup, net)
        == Run([FinishedDeleted(polls[i].unlinkOk), EndReported(r)], ExitAfter(r), i + 1)
  {
  }

  /**
   * A pass that compares and reads the recorded size again reports aborted.
   * The watch ends unless the report escapes; then it goes on from a restarted
   * window with the size unchanged, after the requests the report made.
   */
  lemma StepStalled(period: real, w: Watch, posts: nat, polls: seq<Poll>, i: nat, cleanup: Cleanup, net: nat -> Attempt)
    requires i < |polls| && Compares(w, polls[i], period) && polls[i].log.stat == Size(w.logSize)
    ensures var r := EndReportOutcome(Aborted, DefaultAttempts, net, posts);
      WatchFrom(period, w, posts, polls, i, cleanup, net)
        == if ExitsNormally(r) then Run([EndReported(r)], Returned, i + 1)
           else Prefixed([EndReported(r)], WatchFrom(period, Watch(w.logSize, polls[i].now), posts + r.attempts, polls, i + 1, cleanup, net))
  {
  }

  /**
   * A pass that sees neither manifest.yaml nor finished and does not stall
   * leaves no effect. A comparison restarts the window and records the size it
   * reads, if any; otherwise the state is kept.
   */
  lemma StepKeep(period: real, w: Watch, posts: nat, polls: seq<Poll>, i: nat, cleanup: Cleanup, net: nat -> Attempt)
    requires i < |polls| && !polls[i].manifest && !polls[i].finished
    requires !(Compares(w, polls[i], period) && polls[i].log.stat == Size(w.logSize))
    ensures var p := polls[i];
      var next := Watch(if Compares(w, p, period) && p.log.stat.Size? then p.log.stat.bytes else w.logSize,
                        if Compares(w, p, period) then p.now else w.windowStart);
      WatchFrom(period, w, posts, polls, i, cleanup, net) == WatchFrom(period, next, posts, polls, i + 1, cleanup, net)
  {
  }

  /** The whole run of the monitor: prestop mode, or start report, watch loop and terminal report. */
  function MainOutcome(prestop: bool, period: real, t0: real, polls: seq<Poll>, cleanup: Cleanup, net: nat -> Attempt): (run: Run)
    // prestop mode makes one end report and reads no poll
    ensures prestop ==> |run.effects| == 1 && run.effects[0].EndReported? && run.polled == 0
    // otherwise the start report comes first, and only an escaping one ends the run at once
    ensures !prestop ==> |run.effects| >= 1 && run.effects[0] == StartReported(Settle(net(0)))
    ensures !prestop ==> (run.effects == [StartReported(Escaped)] && run.exit == Raised && run.polled == 0
                          <==> net(0) == Failure)
    ensures run.polled <= |polls|
  {
    if prestop then
      var r := EndReportOutcome(Aborted, DefaultAttempts, net, 0);
      Run([EndReported(r)], ExitAfter(r), 0)
    else
      var d := Settle(net(0));
      if d == Escaped then Run([StartReported(d)], Raised, 0)
      else Prefixed([StartReported(d)], WatchFrom(period, Watch(0, t0), 1, polls, 0, cleanup, net))
  }

  /**
   * The monitor's entry point: `period` is the configured log polling period,
   * `t0` the clock when watching begins.
   */
  method MonitorJob(job: Job, prestop: bool, period: real, t0: real, polls: seq<Poll>, cleanup: Cleanup, net: nat -> Attempt)
    returns (run: Run)
    requires job.Valid()
    ensures run == MainOutcome(prestop, period, t0, polls, cleanup, net)
  {
    // the prestop hook: report the job aborted, touch nothing else
    if prestop {
      var r := ReportJobEnded(job, Aborted, DefaultAttempts, net, 0);
      return Run([EndReported(r)], ExitAfter(r), 0);
    }

    var started := ReportJobStarted(job, net, 0);
    if started == Escaped {
      return Run([StartReported(started)], Raised, 0);
    }
    var rest := WatchLoop(job, period, t0, 1, polls, cleanup, net);
    return Prefixed([StartReported(started)], rest);
  }

  /**
   * The polling loop, entered after `posts` HTTP requests, and the completion
   * report once `manifest.yaml` is seen.
   */
  method WatchLoop(job: Job, period: real, t0: real, posts0: nat, polls: seq<Poll>, cleanup: Cleanup, net: nat -> Attempt)
    returns (run: Run)
    requires job.Valid()
    ensures run == WatchFrom(period, Watch(0, t0), posts0, polls, 0, cleanup, net)
  {
    var effects: seq<Effect> := [];
    var posts: nat := posts0;
    var logSize: nat := 0;
    var windowStart := t0;
    var i := 0;
    ghost var goal := WatchFrom(period, Watch(0, t0), posts0, polls, 0, cleanup, net);
    assert [] + goal.effects == goal.effects;
    while i < |polls| && !polls[i].manifest
      invariant i <= |polls|
      invariant goal == Prefixed(effects, WatchFrom(period, Watch(logSize, windowStart), posts, polls, i, cleanup, net))
      decreases |polls| - i
    {
      var p := polls[i];
      if p.finished {
        // finished without manifest.yaml: delete it (a failure is only logged), report error
        effects := effects + [FinishedDeleted(p.unlinkOk)];
        var r := ReportJobEnded(job, Error, DefaultAttempts, net, posts);
        return Run(effects + [EndReported(r)], ExitAfter(r), i + 1);
      } else if p.log.Present? {
        var currentTime := p.now;
        if currentTime - windowStart >= period {
          windowStart := currentTime;
          match p.log.stat {
            case StatError =>
              // logged; the watcher keeps polling
            case Size(bytes) =>
              if logSize == bytes {
                var r := ReportJobEnded(job, Aborted, DefaultAttempts, net, posts);
                if ExitsNormally(r) {
                  return Run(effects + [EndReported(r)], Returned, i + 1);
                }
                // the escaping exception is caught and logged; polling goes on
                effects := effects + [EndReported(r)];
                posts := posts + r.attempts;
              } else {
                logSize := bytes;
              }
          }
        }
      }
      i := i + 1;
    }
    if i == |polls| {
      return Run(effects, Watching, i);
    }

    // manifest.yaml is there: after the grace period, delete finished if present
    // (a failure is only logged), then report completed
    if cleanup.finished {
      effects := effects + [FinishedDeleted(cleanup.unlinkOk)];
    }
    var r := ReportJobEnded(job, Completed, DefaultAttempts, net, posts);
    return Run(effects + [EndReported(r)], ExitAfter(r), i + 1);
  }
}
