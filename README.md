# Test-case runner of the Unikraft catalog, modelled in Dafny

The catalog's test runner reads test cases (an image, a platform, an architecture, port
mappings, extra launcher options and the checks to apply), launches each image with
`kraft run`, waits for it, probes its TCP ports and HTTP endpoints when it is still up after
the timeout, stops it, and prints one pass/fail line per check. There are two versions of
`run_test_case`: the first in `test.py` (with the legacy `run_test` beside it) and the later one
in `test/test.py`, which makes every key but the image, platform and architecture optional,
takes a per-case timeout, records HTTP connection errors and adds the `--filter` option.

The model keeps the runner's deterministic logic and turns the process and the network into
inputs:

- `text.dfy` (`Text`): the Python string operations the runner relies on: `str.split()`,
  `" ".join`, substring `in`, `str(int)`, `s.split("=")` and `lower()`.
- `launch.dfy` (`Launch`): the ports argument and the extra flags built from the `args`
  mapping (the same code in both versions); `BuildFlags` is the appending loop.
- `checks.dfy` (`Checks`): the check evaluators as pure functions returning an ordered
  list of verdicts `(kind, passed)`, one per printed line.
- `process.dfy` (`Process`): the launched process as a `Handle` class whose status and sent
  signals change under `Communicate`, `Terminate` and `Kill`, while `Drain` only reads what
  the terminated launcher left; how the image behaves
  (when it exits, what it prints) is a `Behaviour` value.
- `executor.dfy` (`Executor`): the `try`/`except` block: the TCP probe loop filling a
  port-keyed dictionary, the HTTP probe loop writing into an array of check records, and the
  terminate/kill control flow, as a method `Execute` proved against a state-machine function
  `Exec`.
- `legacy.dfy` (`Legacy`): the first `run_test_case` and the legacy `run_test`.
- `runner.dfy` (`Runner`): the later `run_test_case` and the enum lookups of its batch loop.
- `filter.dfy` (`Filter`): the `--filter` predicate and the lazy filtering of the test cases.

Inputs standing for I/O: a `Behaviour` (when the launcher exits on its own, what it leaves
then, what it leaves once terminated, whether the wait itself fails) and a `Network` (one
`connect_ex` outcome per published port, one `requests.request` outcome per HTTP check).
A verdict list plus a `raised` flag replaces the console output, so a `KeyError` during
evaluation shows as the verdicts printed before it and `raised == true`.

## Model

| member | source | states |
|---|---|---|
| Text.Split | test.py:452 | `command.split()` yields only non-empty tokens free of whitespace |
| Text.SplitJoin | test.py:442-452 | splitting a single-space join gives the tokens of each piece in order, so empty pieces leave no token |
| Text.SplitSpaced | test.py:442-452 | a separator between two texts splits them independently |
| Text.SplitAllWords | test.py:442-452 | pieces that are single words come back unchanged from the split |
| Text.NothingInEmpty | test.py:492 | a substring occurs in an empty output iff it is itself empty |
| Text.Decimal | test.py:433 | `str(n)` is one token: a leading minus exactly for negatives, then only digits |
| Text.DigitsRoundTrip | test.py:433 | the digits of a natural number read back give the number |
| Text.DecimalRoundTrip | test.py:433 | `str(n)` read back as sign and digits gives `n`, with a leading zero only in `"0"` |
| Text.JoinSplitOn | test/test.py:351 | the pieces of `s.split("=")` joined by `=` give back `s`, and no piece contains `=` |
| Text.Lower | test/test.py:362-363 | `lower()` maps each upper-case ASCII letter to its lower-case letter and keeps the rest |
| Launch.PairText | test.py:433 | each `published:internal` pair is one token |
| Launch.PortsArgTokens | test.py:430-434 | no ports give no token; otherwise the first pair is glued to `-p` and each later pair is a token of its own, in list order |
| Launch.BuildFlags | test.py:435-441 | the appending loop produces exactly `ExtraFlags` of the entries |
| Launch.ExtraFlagsCount | test.py:435-441 | a falsy entry adds no flag, a truthy one exactly one, in entry order |
| Launch.ExtraFlagsAppend | test.py:436-441 | the flags of consecutive entries are concatenated in order |
| Launch.ExtraFlagsTokens | test.py:436-441 | after the split a `True` entry is the token `--name`, any other truthy entry `--name` followed by its value's tokens |
| Launch.BlankValueLeavesBareFlag | test.py:437-441 | a whitespace-only string value is truthy yet leaves only `--name` |
| Launch.FixedWords | test.py:443-444 | `kraft run --rm`, `-M`, `--plat` and `--arch` are single tokens |
| Checks.IncludesEach | test.py:490-495 | one verdict per listed substring, in list order, passing iff it occurs in the output |
| Checks.ContentVerdictsShape | test.py:488-515 | `contains` verdicts first, then one `empty` verdict iff the key is present, passing iff the output is empty |
| Checks.EmptyValueIgnored | test.py:497-501 | only the presence of `empty` matters, not its value |
| Checks.ZeroLengthObserved | test.py:490-501 | an empty output fails every non-empty `contains` and passes `empty` |
| Checks.ReturnCodeVerdictsMeaning | test.py:516-542 | each present exit-code key gives exactly one verdict, absent ones none; `equals` passes iff equal, `not_equal_to` iff different, `greater_than` iff greater |
| Checks.EqualsAndNotEqualToDisagree | test.py:518-533 | `equals e` and `not_equal_to e` always give opposite verdicts |
| Checks.TcpVerdicts | test.py:544-550 | one verdict per recorded port, in order, passing iff its error code is 0 |
| Checks.ResponseVerdictsMeaning | test.py:553-573 | an answered check reports its status first, passing iff the status equals the expected one; body `contains` passes iff the text occurs, body `empty` iff the text is "" |
| Checks.EvaluatorCategories | test.py:488-573 | each evaluator only reports on its own key |
| Process.Wait | test.py:461 | the bounded wait ends in a natural exit iff the launcher exits within the bound and the wait does not fail, and then returns its own output |
| Process.WaitLonger | test/test.py:190-196 | a longer timeout never turns a natural exit into a timeout |
| Process.Handle.Communicate | test.py:461 | the wait moves the process to "exited" only on a natural exit and sends no signal |
| Process.Handle.Terminate | test.py:482 | terminating a running launcher sends one SIGTERM |
| Process.Handle.Drain | test.py:483 | the drain after terminating returns what the launcher left once stopped |
| Process.Handle.Kill | test.py:484-486 | killing sends one SIGKILL and stops a running launcher |
| Executor.Put | test.py:472 | assigning into the port-keyed dictionary keeps keys distinct, adds exactly the assigned key and grows only for a new key |
| Executor.PutMeaning | test.py:472 | the assigned key holds the new value, every other entry keeps its place and value, and a new key goes last |
| Executor.ProbePorts | test.py:468-473 | the probe loop records each published port's error code under that port, or stops at the first probe that raises |
| Executor.RecordFromSucceeds | test/test.py:205-210 | the TCP loop completes iff no probe raises |
| Executor.RecordTcpDistinct | test/test.py:205-210 | with distinct published ports the record is `Entries`: each port with its error code, in list order |
| Executor.EntriesAt | test/test.py:205-210 | entry `k` of that record is the `k`-th published port with the `k`-th probe's code |
| Executor.RecordFromKeys | test/test.py:205-210 | every published port ends up as a key of the record |
| Executor.FirstEscape | test/test.py:213-223 | the HTTP loop stops at the first probe whose exception is not recorded |
| Executor.AttachProbes | test/test.py:213-223 | each check before that probe gets its `result` or `error` written in place; the rest are untouched |
| Executor.Execute | test/test.py:195-232 | the executor's result, the process status, the signals sent and the check records are those of `Exec` |
| Executor.NoProbingWhenExitedInTime | test/test.py:196-210 | a launcher that exits within the timeout is not probed or signalled and its own output is evaluated |
| Executor.TimeoutPathProbesThenTerminates | test/test.py:202-225 | after a timeout with no escaping probe every published port is recorded, every check carries its outcome, and the launcher is terminated once, then drained |
| Executor.GuardedRunAlwaysStops | test/test.py:224-232 | with kill-on-any-error cleanup the launcher always ends exited, terminated or killed, each with its one signal |
| Executor.AsWrittenLeakIffProbeRaises | test/test.py:202-232 | as written the launcher stays running iff the wait timed out and a probe then raised |
| Executor.ProbeEscapeLeavesProcessRunning | test.py:467-486 | a refused HTTP connection in the first version leaves the launcher running with no signal |
| Legacy.CommandTokens | test.py:442-452 | the argument vector is `kraft run --rm -M`, the memory, the port tokens, `--plat` and platform, the flag tokens, `--arch`, architecture and image |
| Legacy.RunTestCase | test.py:428-573 | the launched argument vector is the split command; status, signals and report follow `Exec` with a 2-second timeout and unrecorded connection errors |
| Legacy.ExitedRunWithHttpChecksRaises | test.py:553-554 | after a natural exit a case with HTTP checks prints its other verdicts and then raises |
| Legacy.RunTestCommandTokens | test.py:236-239 | the legacy argument vector is the same without flag tokens |
| Legacy.RunTestHttpVerdicts | test.py:301-311 | two verdicts per probed port, none about stdout or the exit code |
| Legacy.RunTestHttpVerdictsAt | test.py:301-311 | port `k` owns verdicts `2k` (response ok) and `2k+1` (body contains) |
| Legacy.RunTestHttpVerdictsDrop | test.py:301-311 | the verdicts after those of the first `k` ports are the verdicts of the remaining ports |
| Legacy.RunTestSkipsFalsyExpectations | test.py:277-299 | there is no stdout verdict iff the expected stdout string is empty, and no exit-code verdict iff the expected code is 0; a stdout verdict comes first |
| Runner.ParsePlatform | test/test.py:363 | the platform found has the lower-cased text as its value; none is found iff no platform has it |
| Runner.ParseArchitecture | test/test.py:362 | likewise for the architecture |
| Runner.PlatformRoundTrip | test/test.py:10-13 | every platform is found from its own value |
| Runner.ArchitectureRoundTrip | test/test.py:16-17 | the architecture is found from its own value |
| Runner.PlatformCaseInsensitive | test/test.py:363 | a platform value written with capitals is still found |
| Runner.TimeoutOf | test/test.py:190-192 | the timeout is the case's `timeout` when present, 2 otherwise |
| Runner.CommandTokens | test/test.py:158-177 | the argument vector is `kraft run --rm`, the port tokens, `--plat` and platform, the flag tokens, `--arch`, architecture and image, with no memory option |
| Runner.HttpVerdictsAppend | test/test.py:301-328 | the checks are evaluated one after another, stopping at the first that raises |
| Runner.RecordedErrorIsOneFailure | test/test.py:304-308 | a recorded `error` gives exactly one failing verdict naming the URI, and sibling checks are still evaluated |
| Runner.HttpVerdictsCategory | test/test.py:301-328 | the HTTP evaluator only reports HTTP verdicts |
| Runner.AbsentKeysNoVerdicts | test/test.py:234-301 | an absent `stdout_check`, `stderr_check`, `return_code` or `http_check` key yields no verdict of its kind |
| Runner.RunTestCase | test/test.py:157-328 | the launched argument vector is the split command; status, signals and report follow `Exec` with the case's timeout and recorded connection errors |
| Runner.NoChecksNoVerdicts | test/test.py:234-301 | a case with no check keys and no ports reports nothing and raises only when the executor does |
| Runner.RefusedConnectionsAreReported | test/test.py:216-224 | with connection errors recorded, refused HTTP connections no longer stop the probe phase: every check carries an `error` and the launcher is terminated |
| Filter.ParseFilters | test/test.py:349-351 | one filter per argument, whose pieces joined by `=` give the argument back |
| Filter.SplitKeyValue | test/test.py:351 | `key=value` with no other `=` splits into the pair |
| Filter.NoEqualsOnePiece | test/test.py:351 | an argument without `=` is a single piece |
| Filter.Matches | test/test.py:354-359 | the loop with early returns decides as `Decide` |
| Filter.DecideMeaning | test/test.py:354-359 | with well-formed filters a case is kept iff every key is present with exactly that string value, and nothing raises |
| Filter.OnlyStringsMatch | test/test.py:357 | a present non-string value never equals the filter's text |
| Filter.MalformedOnlyWhenReached | test/test.py:354-359 | with the first malformed filter at position `i` the case is never kept, and the predicate raises iff every filter before `i` matches (a malformed filter behind a mismatching one is never unpacked) |
| Filter.SelectSound | test/test.py:361 | every selected case comes from the input and is accepted; a run that does not raise met no malformed filter |
| Filter.SelectAppend | test/test.py:361 | selection goes through the cases in file order |
| Filter.SelectOne | test/test.py:361 | a single case is kept iff accepted |
| Filter.SelectComplete | test/test.py:361 | with well-formed filters nothing raises and every accepted case is kept |
| Filter.NoFiltersSelectAll | test/test.py:349-361 | without filters every case is run, in file order |

## Left out

- Starting the process, waiting, signalling, sockets and HTTP requests: they are inputs (`Behaviour`, `Network`); the model fixes their outcomes rather than performing them.
- Console output: the glyph lines, the command echo and the `poll() == 1` failure banner with its `stdout.decode()`; verdicts replace the printed lines.
- The `errno.errorcode` lookup in the later version's failing TCP line, which raises for an unknown code: it only formats output.
- Reading the test-case file (JSON or YAML), `argparse`, and the batch loop's print-and-re-raise around each case.
- The pytest-style `test_*` functions at the top of `test.py`: hard-coded launches with asserts.
- The probe loop of the legacy `run_test` (test.py:258-274): its recorded TCP codes and HTTP responses are inputs of `Legacy.RunTestVerdicts`, and `response.ok` is an input flag because its meaning lies in the HTTP library.
- Missing keys in the first version's test cases are not modelled: `Legacy.TestCase` has every key. In `test.py` every key is read with `[]`, so a missing key raises `KeyError`: `ports`, `args` or `memory` before the launch (test.py:429-443), `http_check` inside the timeout handler (test.py:474), where it leaves the launcher running like the probe exceptions in the Findings table, and `stdout_check` after the wait, before any verdict (test.py:488).
- Regex `match` fields: declared in the format comments but never evaluated.
- UTF-8 encoding of substrings and outputs: both are modelled as the same character sequences.
- `Process.Handle.Drain` does not model a drain that raises or hangs after `terminate()`.
- Sockets left open when `connect_ex` raises, and the `requests` exception object stored under `error`, are not modelled; a failing probe is `SocketError`, a recorded error is `ConnectionFailed`.
- `args` values that are floats, lists or objects, and non-integer ports or timeouts, are not modelled; values are `null`, booleans, integers and strings.
- `Text.Lower` folds ASCII letters only; Python's `lower()` also folds other scripts, which no platform or architecture value uses.

## Findings

| source | as written | input that shows it | evidently intended | confidence | as-written member | corrected member |
|---|---|---|---|---|---|---|
| test.py:467-486, test/test.py:202-232 | an exception raised by a probe inside the `except subprocess.TimeoutExpired:` handler is not caught by the sibling bare `except:`, so the launcher is neither terminated nor killed | first version: an image still up after 2 s whose HTTP port refuses the connection; later version: a probe failing with an exception other than a connection error | every exception after launch stops the launcher (a to-do note at test.py:214 and test/test.py:20 asks for cleanup on all exceptions) | not executed | Executor.ProbeEscapeLeavesProcessRunning | Executor.GuardedRunAlwaysStops |
