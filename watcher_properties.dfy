/**
 * Properties of the monitor's runs: how a run can end, what it reports, and
 * which observations it depends on.
 */
module WatcherProperties {
  import opened Reporter
  import opened Watcher

  /** An aborted report whose exception the handler around the size check swallowed. */
  predicate Swallowed(e: Effect)
  {
    e.EndReported? && e.report.phase == Aborted && e.report.delivery == Escaped
  }

  /** A report that ends the run, by return or by an escaping exception. */
  predicate Terminal(e: Effect)
  {
    e.EndReported? && !Swallowed(e)
  }

  /**
   * The effects of a watch: a run still watching has made only swallowed
   * reports; a run that has ended made swallowed reports, then possibly one
   * deletion of `finished` (never before an aborted report), then exactly one
   * terminal report, which decides how the run ended.
   */
  predicate EndsOnce(es: seq<Effect>, exit: Exit)
  {
    if exit == Watching then
      forall j :: 0 <= j < |es| ==> Swallowed(es[j])
    else
      |es| > 0 && Terminal(es[|es| - 1]) && exit == ExitAfter(es[|es| - 1].report)
      && forall j :: 0 <= j < |es| - 1 ==>
           Swallowed(es[j])
           || (j == |es| - 2 && es[j].FinishedDeleted? && es[|es| - 1].report.phase != Aborted)
  }

  /** The number of terminal reports among some effects. */
  function Terminals(es: seq<Effect>): nat
  {
    if es == [] then 0 else (if Terminal(es[0]) then 1 else 0) + Terminals(es[1..])
  }

  lemma PrependSwallowed(e: Effect, es: seq<Effect>, exit: Exit)
    requires Swallowed(e) && EndsOnce(es, exit)
    ensures EndsOnce([e] + es, exit)
  {
  }

  lemma EndsOnceRest(es: seq<Effect>, exit: Exit)
    requires EndsOnce(es, exit) && |es| > 0
    requires exit != Watching ==> |es| > 1
    ensures EndsOnce(es[1..], exit)
  {
  }

  /** A run that has ended made exactly one terminal report; a run still watching made none. */
  lemma {:induction false} EndsOnceCountsOne(es: seq<Effect>, exit: Exit)
    requires EndsOnce(es, exit)
    ensures Terminals(es) == if exit == Watching then 0 else 1
    decreases |es|
  {
    if es == [] {
    } else if exit != Watching && |es| == 1 {
      assert es[1..] == [];
    } else {
      assert !Terminal(es[0]);
      EndsOnceRest(es, exit);
      EndsOnceCountsOne(es[1..], exit);
    }
  }

  /**
   * Every watch has the shape `EndsOnce` describes, and a watch still going on
   * has read every poll.
   */
  lemma {:induction false} WatchEndsOnce(period: real, w: Watch, posts: nat, polls: seq<Poll>, i: nat, cleanup: Cleanup, net: nat -> Attempt)
    requires i <= |polls|
    ensures var run := WatchFrom(period, w, posts, polls, i, cleanup, net);
      EndsOnce(run.effects, run.exit) && (run.exit == Watching ==> run.polled == |polls|)
    decreases |polls| - i
  {
    if i < |polls| {
      match Decide(w, polls[i], period)
      case Complete =>
      case FinishedFound =>
      case Stalled(next) =>
        var r := EndReportOutcome(Aborted, DefaultAttempts, net, posts);
        if !ExitsNormally(r) {
          var rest := WatchFrom(period, next, posts + r.attempts, polls, i + 1, cleanup, net);
          WatchEndsOnce(period, next, posts + r.attempts, polls, i + 1, cleanup, net);
          PrependSwallowed(EndReported(r), rest.effects, rest.exit);
        }
      case Keep(next) =>
        WatchEndsOnce(period, next, posts, polls, i + 1, cleanup, net);
    }
  }

  /**
   * Outside prestop mode a run opens with the start report; if that report
   * escapes, nothing else happens; otherwise what follows has the shape
   * `EndsOnce` describes, so a run that has ended sent exactly one terminal report.
   */
  lemma MonitorEndsOnce(period: real, t0: real, polls: seq<Poll>, cleanup: Cleanup, net: nat -> Attempt)
    ensures var run := MainOutcome(false, period, t0, polls, cleanup, net);
      |run.effects| > 0 && run.effects[0] == StartReported(Settle(net(0)))
      && (Settle(net(0)) == Escaped ==> run == Run([StartReported(Escaped)], Raised, 0))
      && (Settle(net(0)) != Escaped ==>
            EndsOnce(run.effects[1..], run.exit)
            && Terminals(run.effects[1..]) == (if run.exit == Watching then 0 else 1)
            && (run.exit == Watching ==> run.polled == |polls|))
  {
    if Settle(net(0)) != Escaped {
      var rest := WatchFrom(period, Watch(0, t0), 1, polls, 0, cleanup, net);
      WatchEndsOnce(period, Watch(0, t0), 1, polls, 0, cleanup, net);
      assert MainOutcome(false, period, t0, polls, cleanup, net).effects[1..] == rest.effects;
      EndsOnceCountsOne(rest.effects, rest.exit);
    }
  }

  /**
   * Prestop mode sends one end report, with phase aborted, and nothing else:
   * no start report, no poll of the work directory, no deletion.
   */
  lemma PrestopReportsAbortedOnly(period: real, t0: real, polls: seq<Poll>, cleanup: Cleanup, net: nat -> Attempt)
    ensures var r := EndReportOutcome(Aborted, DefaultAttempts, net, 0);
      MainOutcome(true, period, t0, polls, cleanup, net) == Run([EndReported(r)], ExitAfter(r), 0)
      && r.phase == Aborted && r.attempts <= DefaultAttempts
  {
  }

  /** A start report that fails with anything but a timeout ends the run before any poll. */
  lemma StartFailureEndsRun(period: real, t0: real, polls: seq<Poll>, cleanup: Cleanup, net: nat -> Attempt)
    requires net(0) == Failure
    ensures MainOutcome(false, period, t0, polls, cleanup, net) == Run([StartReported(Escaped)], Raised, 0)
  {
  }

  /**
   * Once a watch has ended, later observations do not matter: the run over a
   * longer sequence of polls is the same run.
   */
  lemma {:induction false} WatchIsPrefixStable(period: real, w: Watch, posts: nat, polls: seq<Poll>, more: seq<Poll>, i: nat, cleanup: Cleanup, net: nat -> Attempt)
    requires i <= |polls|
    requires WatchFrom(period, w, posts, polls, i, cleanup, net).exit != Watching
    ensures WatchFrom(period, w, posts, polls + more, i, cleanup, net) == WatchFrom(period, w, posts, polls, i, cleanup, net)
    decreases |polls| - i
  {
    var longer := polls + more;
    assert longer[i] == polls[i];
    match Decide(w, polls[i], period)
    case Complete =>
    case FinishedFound =>
    case Stalled(next) =>
      var r := EndReportOutcome(Aborted, DefaultAttempts, net, posts);
      if !ExitsNormally(r) {
        WatchIsPrefixStable(period, next, posts + r.attempts, polls, more, i + 1, cleanup, net);
      }
    case Keep(next) =>
      WatchIsPrefixStable(period, next, posts, polls, more, i + 1, cleanup, net);
  }

  /** The same for the whole run: a run that has ended is not changed by later polls. */
  lemma MonitorIsPrefixStable(prestop: bool, period: real, t0: real, polls: seq<Poll>, more: seq<Poll>, cleanup: Cleanup, net: nat -> Attempt)
    requires MainOutcome(prestop, period, t0, polls, cleanup, net).exit != Watching
    ensures MainOutcome(prestop, period, t0, polls + more, cleanup, net) == MainOutcome(prestop, period, t0, polls, cleanup, net)
  {
    if !prestop && Settle(net(0)) != Escaped {
      WatchIsPrefixStable(period, Watch(0, t0), 1, polls, more, 0, cleanup, net);
    }
  }

  /** Passes from `i` on that show neither manifest.yaml nor finished, and a readable job.log. */
  predicate LogOnly(polls: seq<Poll>, i: nat)
  {
    forall j :: i <= j < |polls| ==>
      !polls[j].manifest && !polls[j].finished && polls[j].log.Present? && polls[j].log.stat.Size?
  }

  /**
   * A job whose log grows from pass to pass, and is larger than the recorded
   * size at the first of them, is watched for ever: no report, no deletion.
   */
  lemma {:induction false} GrowingLogKeepsWatching(period: real, w: Watch, posts: nat, polls: seq<Poll>, i: nat, cleanup: Cleanup, net: nat -> Attempt)
    requires i <= |polls|
    requires LogOnly(polls, i)
    requires forall j :: i < j < |polls| ==> polls[j - 1].log.stat.bytes < polls[j].log.stat.bytes
    requires i < |polls| ==> w.logSize < polls[i].log.stat.bytes
    ensures WatchFrom(period, w, posts, polls, i, cleanup, net) == Run([], Watching, |polls|)
    decreases |polls| - i
  {
    if i < |polls| {
      match Decide(w, polls[i], period)
      case Keep(next) =>
        assert next.logSize <= polls[i].log.stat.bytes;
        GrowingLogKeepsWatching(period, next, posts, polls, i + 1, cleanup, net);
    }
  }

  /**
   * From the start: the recorded size begins at 0, so a log that is not empty
   * at the first pass and grows at every pass is never reported.
   */
  lemma HealthyJobIsNeverReported(period: real, t0: real, polls: seq<Poll>, cleanup: Cleanup, net: nat -> Attempt)
    requires Settle(net(0)) != Escaped
    requires LogOnly(polls, 0)
    requires forall j :: 0 < j < |polls| ==> polls[j - 1].log.stat.bytes < polls[j].log.stat.bytes
    requires 0 < |polls| ==> 0 < polls[0].log.stat.bytes
    ensures MainOutcome(false, period, t0, polls, cleanup, net) == Run([StartReported(Settle(net(0)))], Watching, |polls|)
  {
    GrowingLogKeepsWatching(period, Watch(0, t0), 1, polls, 0, cleanup, net);
  }

  /** Without job.log, manifest.yaml or finished the watcher keeps polling and changes nothing. */
  lemma {:induction false} MissingLogNeverStalls(period: real, w: Watch, posts: nat, polls: seq<Poll>, i: nat, cleanup: Cleanup, net: nat -> Attempt)
    requires i <= |polls|
    requires forall j :: i <= j < |polls| ==> !polls[j].manifest && !polls[j].finished && polls[j].log == Missing
    ensures WatchFrom(period, w, posts, polls, i, cleanup, net) == Run([], Watching, |polls|)
    decreases |polls| - i
  {
    if i < |polls| {
      assert Decide(w, polls[i], period) == Keep(w);
      MissingLogNeverStalls(period, w, posts, polls, i + 1, cleanup, net);
    }
  }

  /**
   * The recorded size starts at 0: an empty job.log at the first comparison
   * is a stall, reported as aborted with the requests that follow the start report.
   */
  lemma EmptyLogStallsAtFirstComparison(period: real, t0: real, polls: seq<Poll>, cleanup: Cleanup, net: nat -> Attempt)
    requires Settle(net(0)) != Escaped
    requires |polls| > 0 && !polls[0].manifest && !polls[0].finished
    requires polls[0].log == Present(Size(0)) && polls[0].now - t0 >= period
    ensures var run := MainOutcome(false, period, t0, polls, cleanup, net);
      var r := EndReportOutcome(Aborted, DefaultAttempts, net, 1);
      |run.effects| >= 2 && run.effects[..2] == [StartReported(Settle(net(0))), EndReported(r)]
      && (ExitsNormally(r) ==> run == Run([StartReported(Settle(net(0))), EndReported(r)], Returned, 1))
  {
  }

  /**
   * The handler around the size check catches an escaping stall report, so one
   * run can send two aborted reports: the log stays empty over two windows, the
   * first report fails with a connection error, the second is accepted.
   */
  lemma EscapedStallReportIsSentAgain(period: real, t0: real, cleanup: Cleanup, net: nat -> Attempt, p1: Poll, p2: Poll)
    requires net(0) == Response(200) && net(1) == Failure && net(2) == Response(204)
    requires !p1.manifest && !p1.finished && p1.log == Present(Size(0)) && p1.now == t0 + period
    requires !p2.manifest && !p2.finished && p2.log == Present(Size(0)) && p2.now == t0 + 2.0 * period
    ensures MainOutcome(false, period, t0, [p1, p2], cleanup, net)
         == Run([StartReported(Accepted),
                 EndReported(Report(Aborted, 1, Escaped)),
                 EndReported(Report(Aborted, 1, Accepted))], Returned, 2)
  {
    var polls := [p1, p2];
    var w1 := Watch(0, p1.now);
    var w2 := Watch(0, p2.now);
    assert Decide(Watch(0, t0), polls[0], period) == Stalled(w1);
    assert EndReportOutcome(Aborted, DefaultAttempts, net, 1) == Report(Aborted, 1, Escaped);
    assert Decide(w1, polls[1], period) == Stalled(w2);
    assert EndReportOutcome(Aborted, DefaultAttempts, net, 2) == Report(Aborted, 1, Accepted);
    StepStalled(period, w1, 2, polls, 1, cleanup, net);
    StepStalled(period, Watch(0, t0), 1, polls, 0, cleanup, net);
    assert WatchFrom(period, Watch(0, t0), 1, polls, 0, cleanup, net)
        == Run([EndReported(Report(Aborted, 1, Escaped)), EndReported(Report(Aborted, 1, Accepted))], Returned, 2);
  }
}
