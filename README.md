# Job monitor sidecar, modelled in Dafny

This project models the job monitor of `mmli-job-manager`. The monitor is a sidecar process. It watches a job's working directory and reports the job's lifecycle to a control-plane API. It has two parts.

- **Status reporter** (`Reporter`, `reporter.dfy`). `ReportJobEnded` POSTs an end-of-job phase (`completed`, `aborted` or `error`). It makes up to `numAttempts` attempts (5 in every call), and only a timeout leads to another attempt. The first HTTP response ends the report. A status of 200 or 204 is a success; any other status is a logged failure. Any exception other than a timeout escapes to the caller. `ReportJobStarted` is the single-attempt start report.
- **Completion watcher** (`Watcher`, `watcher.dfy`). `MonitorJob` is the program's `main`. In prestop mode it sends one `aborted` report and stops. Otherwise it sends the start report, then `WatchLoop` polls the directory:
  - `manifest.yaml` present: leave the loop, delete `finished` if present, report `completed`.
  - else `finished` present: delete it, report `error`, return.
  - else `job.log` present: once every `logFilePollingPeriod`, compare its size with the recorded size (initially 0). An unchanged size reports `aborted` and returns. A changed size is recorded.

The outside world is given as inputs:
- `net(k)` is the outcome of the k-th HTTP request of the run: `Timeout`, `Response(status)` or `Failure`. The start report is request 0.
- `polls[i]` is what pass `i` of the loop observes: `manifest.yaml`, `finished`, `job.log` (missing, a size, or a failing `stat`), the clock, and whether deleting `finished` would succeed.
- `cleanup` is the check for `finished` after the loop, and whether deleting it succeeds.

A run returns its effects in order: the start report, end reports with their attempts and verdicts, and deletions of `finished` with their success. It also returns how the run ended (`Returned`, `Raised` or `Watching`) and how many polls it read. `Watching` means the polls ran out while the watcher was still polling. This is how the model covers a loop that may legitimately never end. `WatchIsPrefixStable` shows that a run which has ended does not depend on later polls.

Each method is proved against a reference function. `ReportJobEnded` is proved against `EndReportOutcome`. `WatchLoop` is proved against `WatchFrom`, which applies the one-pass transition `Decide`. `MonitorJob` is proved against `MainOutcome`. The properties are lemmas about these functions (`WatcherProperties`, `watcher_properties.dfy`).

Where the code and its design description differ, the model follows the code:
- The design says a non-timeout exception in the reporter is "logged and stopped". The code catches only `Timeout` (line 29), so the exception escapes. The model calls this `Escaped`, and the caller's run ends `Raised`.
- The start report escapes the same way (lines 45-58). The watch never starts.
- The design says the watcher sends exactly one terminal report. The code makes the stall-path report inside the `try` whose `except Exception` guards the size check (lines 81-94). If that report escapes, the exception is logged, the `return` is skipped and polling goes on. A later comparison can then report `aborted` again (`EscapedStallReportIsSentAgain`). What the model proves instead (`MonitorEndsOnce`): a run has exactly one report that ends it. Before that report there are only such swallowed `aborted` reports and at most one deletion of `finished`.

## Model

| member | source | states |
|---|---|---|
| `Reporter.Settle` | src/job_monitor.py:22-29 | The last attempt's verdict: accepted exactly for status 200 or 204; rejected, keeping the status, for any other status; escaped exactly for a non-timeout exception; nothing delivered for a timeout |
| `Reporter.OutcomeFrom` | src/job_monitor.py:13-31 | The retry loop after `done` timeouts never makes fewer than `done` attempts or more than the budget |
| `Reporter.EndReportOutcome` | src/job_monitor.py:12-31 | An end report carries the phase it was called with and makes at most `numAttempts` POSTs (none for a budget of 0 or less) |
| `Reporter.ReportJobEnded` | src/job_monitor.py:9-31 | The retry loop yields exactly the reference outcome, within the attempt budget, and every attempt but the last was a timeout |
| `Reporter.ReportJobStarted` | src/job_monitor.py:45-58 | The start report's single POST is settled by the same rule as an end report's last attempt |
| `Reporter.OutcomeFromShape` | src/job_monitor.py:13-31 | Only timeouts lead to another attempt. A report that does not give up ends at its first non-timeout outcome, which decides the verdict. A report that gives up has used its whole budget on timeouts |
| `Reporter.EndReportShape` | src/job_monitor.py:12-31 | At most `numAttempts` attempts, none when `numAttempts <= 0`. The first response of any status ends the report. It gives up exactly when every attempt of the budget times out, and then after the whole budget |
| `Reporter.SuccessIffOkStatus` | src/job_monitor.py:22-25 | A report succeeds if and only if its last POST got status 200 or 204 |
| `Reporter.FourTimeoutsThenNoContent` | src/job_monitor.py:13-25 | With a budget of 5, four timeouts then a 204 give exactly 5 attempts and success |
| `Reporter.AllTimeoutsGiveUp` | src/job_monitor.py:29-31 | A run of timeouts as long as the budget gives up after exactly the budget, without escalation |
| `Reporter.StartIsSingleAttempt` | src/job_monitor.py:45-58 | The start report is the end reporter's policy with a budget of one attempt |
| `Watcher.Decide` | src/job_monitor.py:69-94 | One pass. `manifest.yaml` wins over everything, and `finished` wins over the log check. A stall happens only at a comparison that reads a size equal to the recorded one. The window restarts at every comparison, whatever `stat` gives, and only then. A new size is recorded only when a comparison reads a size that differs from it. Without `job.log` nothing changes |
| `Watcher.WatchFrom` | src/job_monitor.py:69-107 | The watch from pass `i` on reads at least `i` and at most all of the polls |
| `Watcher.StepComplete` | src/job_monitor.py:100-107 | A pass that sees `manifest.yaml` ends the watch with `completed`, whatever `finished` and `job.log` show. `finished` is deleted if the later check sees it, and `completed` is reported whether or not the deletion succeeds |
| `Watcher.StepFinished` | src/job_monitor.py:72-78 | A pass that sees `finished` without `manifest.yaml` deletes it, reports `error` whether or not the deletion succeeds, and ends the watch, whatever `job.log` shows |
| `Watcher.StepStalled` | src/job_monitor.py:81-94 | A pass that sees neither `manifest.yaml` nor `finished`, compares, and reads the recorded size again reports `aborted`. The watch ends unless the report escapes. If it escapes, the watch goes on from a window restarted at this pass's clock, with the size unchanged and after the requests the report made |
| `Watcher.StepKeep` | src/job_monitor.py:80-96 | A pass that sees neither `manifest.yaml` nor `finished` and does not stall leaves no effect. A comparison restarts the window at this pass's clock and records the size it reads, if any. A pass that does not compare, or finds no `job.log`, keeps the state |
| `Watcher.MainOutcome` | src/job_monitor.py:33-107 | The reference run of `main`. Prestop mode makes exactly one end report and reads no poll. Otherwise the start report comes first, and the run stops right after it, raising, exactly when that POST fails with a non-timeout exception. No run reads more polls than there are |
| `Watcher.MonitorJob` | src/job_monitor.py:33-58 | The entry point yields exactly the reference run `MainOutcome` |
| `Watcher.WatchLoop` | src/job_monitor.py:62-107 | The polling loop, with its two carried variables starting at size 0 and the start clock, yields exactly the reference watch `WatchFrom` |
| `WatcherProperties.EndsOnceCountsOne` | src/job_monitor.py:77-107 | Effects of the `EndsOnce` shape contain exactly one terminal report if the run has ended, none if it is still watching |
| `WatcherProperties.WatchEndsOnce` | src/job_monitor.py:69-107 | Every watch has the `EndsOnce` shape. A watch still going on has read every poll and made only swallowed `aborted` reports |
| `WatcherProperties.MonitorEndsOnce` | src/job_monitor.py:45-107 | Outside prestop mode a run opens with the start report. If the start report escapes, nothing else happens. Otherwise a run that has ended sent exactly one terminal report, and one still watching sent none |
| `WatcherProperties.PrestopReportsAbortedOnly` | src/job_monitor.py:41-43 | Prestop mode sends one `aborted` end report of at most 5 attempts and nothing else: no start report, no poll, no deletion |
| `WatcherProperties.StartFailureEndsRun` | src/job_monitor.py:45-58 | A start report that fails with a non-timeout exception ends the run before any poll |
| `WatcherProperties.WatchIsPrefixStable` | src/job_monitor.py:69-107 | Once a watch has ended, appending later polls does not change it |
| `WatcherProperties.MonitorIsPrefixStable` | src/job_monitor.py:33-107 | Once a run has ended, appending later polls does not change it. For example, `finished` appearing after `manifest.yaml` was seen has no effect |
| `WatcherProperties.GrowingLogKeepsWatching` | src/job_monitor.py:80-96 | A log that grows from pass to pass, above the recorded size, is watched for ever with no report and no deletion |
| `WatcherProperties.HealthyJobIsNeverReported` | src/job_monitor.py:67-96 | From the start, a non-empty log that grows at every pass is never reported and the monitor keeps watching |
| `WatcherProperties.MissingLogNeverStalls` | src/job_monitor.py:80-96 | Without `job.log`, `manifest.yaml` or `finished`, the watcher keeps polling and never compares or stalls |
| `WatcherProperties.EmptyLogStallsAtFirstComparison` | src/job_monitor.py:67-90 | Since the recorded size starts at 0, an empty `job.log` at the first comparison is a stall. It reports `aborted` right after the start report |
| `WatcherProperties.EscapedStallReportIsSentAgain` | src/job_monitor.py:81-94 | A stall report that fails with a connection error is swallowed. The next comparison of an unchanged log sends a second `aborted` report, which ends the run |

## Left out

- The HTTP requests themselves (lines 16-21 and 47-51): the URL, the JSON body, the token and the 2 s / 3 s timeouts are not modelled. Only each request's outcome is an input, and each end report records the phase it carried.
- The filesystem calls (`os.path.isfile`, `os.unlink`, `os.stat`): their results are inputs, one snapshot per pass. A file that changes between two calls of the same pass is covered only by `stat` failing after `isfile` succeeded.
- `time.sleep` (lines 96 and 102): the 5 s poll interval and the 5 s grace period only delay the next step.
- The clock (`time.time`, lines 68 and 82): readings are `real` inputs. Floating-point rounding is not modelled.
- Log messages and their formatting, including the `attemptIdx-1` display index of line 30.
- Command-line parsing (lines 109-125) and the lookup of `logFilePollingPeriod` in the configuration (line 65). The configuration module is not part of this model; the period is a parameter.
- The asserts `job_id and token and url` (lines 10 and 38): modelled as the precondition `Job.Valid()`. `MainOutcome` takes no job because nothing in it depends on one.
- Exceptions raised by logging, and a `KeyboardInterrupt` or process kill from outside: not modelled.
