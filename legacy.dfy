/** The first version of the runner (`test.py`): the legacy `run_test`, with its fixed
    parameters, and the first `run_test_case`, driven by a test-case mapping. */
module Legacy {
  import opened Wrappers
  import opened Text
  import opened Checks
  import opened Launch
  import opened Process
  import opened Executor

  /** `Platforms` of this version: QEMU only. */
  datatype Platform = Qemu {
    function Value(): (s: string)
      ensures IsWord(s)
    {
      "qemu"
    }
  }

  /** `Architecture`: x86_64 only. */
  datatype Architecture = X86_64 {
    function Value(): (s: string)
      ensures IsWord(s)
    {
      "x86_64"
    }
  }

  /** The test-case mapping this version reads; every key is required (a missing one raises
      `KeyError`). `ports` lists `[published, internal]` pairs; `args` lists the mapping's
      entries in insertion order. */
  datatype TestCase = TestCase(
    arch: Architecture, plat: Platform, image: string, memory: string,
    ports: seq<(int, int)>, args: seq<(string, ArgValue)>,
    stdoutCheck: ContentCheck, stderrCheck: ContentCheck, returnCode: ReturnCodeCheck,
    httpChecks: seq<HttpCheck>)

  /** The timeout of the first `run_test_case`, in seconds. */
  const Timeout := 2

  /** The launch command of `run_test_case`. Its f-string is exactly these fields joined by
      single spaces. */
  function CommandLine(tc: TestCase): string {
    Join(" ", Launcher + [MemoryOption, tc.memory] + [PortsArg(tc.ports)] + [PlatOption, tc.plat.Value()]
              + [Join(" ", ExtraFlags(tc.args))] + [ArchOption, tc.arch.Value()] + [tc.image])
  }

  /** The argument vector `command.split()` hands to the launcher: `kraft run --rm -M`, the
      memory, the port tokens, `--plat` and the platform, the flag tokens, `--arch`, the
      architecture and the image, with nothing empty left by absent ports or flags. */
  lemma CommandTokens(tc: TestCase)
    requires forall k :: 0 <= k < |tc.args| ==> NoSpace(tc.args[k].0)
    ensures Split(CommandLine(tc)) ==
      Launcher + [MemoryOption] + Split(tc.memory) + PortTokens(tc.ports)
      + [PlatOption, tc.plat.Value()] + FlagTokens(tc.args) + [ArchOption, tc.arch.Value()] + Split(tc.image)
  {
    var s1 := Launcher + [MemoryOption, tc.memory];
    var s2 := s1 + [PortsArg(tc.ports)];
    var s3 := s2 + [PlatOption, tc.plat.Value()];
    var s4 := s3 + [Join(" ", ExtraFlags(tc.args))];
    var s5 := s4 + [ArchOption, tc.arch.Value()];
    FixedWords();
    MemoryTokens(tc.memory);
    SplitAllSnoc(s1, PortsArg(tc.ports));
    PortsArgTokens(tc.ports);
    SplitAllSnocWords(s2, PlatOption, tc.plat.Value());
    SplitAllSnoc(s3, Join(" ", ExtraFlags(tc.args)));
    FlagsTokens(tc.args);
    SplitAllSnocWords(s4, ArchOption, tc.arch.Value());
    SplitJoin(s5 + [tc.image]);
    SplitAllSnoc(s5, tc.image);
  }

  /** `kraft run --rm -M <memory>` splits into the fixed words and the memory's own tokens. */
  lemma MemoryTokens(memory: string)
    ensures SplitAll(Launcher + [MemoryOption, memory]) == Launcher + [MemoryOption] + Split(memory)
  {
    FixedWords();
    SplitAllAppend(Launcher, [MemoryOption, memory]);
    SplitAllCons(MemoryOption, [memory]);
    SplitWord(MemoryOption);
    SplitAllOne(memory);
  }

  /** The HTTP verdicts of the first `run_test_case`: every check must carry a `result`; the
      first one that does not raises `KeyError`. */
  function HttpVerdicts(checks: seq<HttpCheck>): Evaluation {
    if |checks| == 0 then Evaluation([], false)
    else match checks[0].probe
      case Some(Answered(response)) =>
        Then(Evaluation(ResponseVerdicts(checks[0], response), false), HttpVerdicts(checks[1..]))
      case _ => Evaluation([], true)
  }

  /** The evaluators of the first `run_test_case`, in the order they print: stdout, stderr,
      exit code, TCP, HTTP. */
  function Evaluate(tc: TestCase, c: Captured, tcp: seq<(int, int)>, checks: seq<HttpCheck>): Evaluation {
    Then(Evaluation(ContentVerdicts(Stdout, tc.stdoutCheck, c.out) + ContentVerdicts(Stderr, tc.stderrCheck, c.err)
                    + ReturnCodeVerdicts(tc.returnCode, c.code) + TcpVerdicts(tcp), false),
         HttpVerdicts(checks))
  }

  /** What one run of the first `run_test_case` reports, given how the image behaves and what
      the network answers. */
  function Outcome(tc: TestCase, b: Behaviour, net: Network, cleanup: Cleanup): Evaluation
    requires |net.tcp| == |tc.ports| && |net.http| == |tc.httpChecks|
  {
    var x := Exec(b, Timeout, tc.ports, tc.httpChecks, net, false, cleanup);
    if x.result.Reraised? then Evaluation([], true) else Evaluate(tc, x.result.captured, x.result.tcp, x.checks)
  }

  /** The first `run_test_case`: build the command, launch, run the executor with a 2-second
      timeout and no recording of connection errors, then evaluate. */
  method RunTestCase(tc: TestCase, b: Behaviour, net: Network, cleanup: Cleanup) returns (h: Handle, report: Evaluation)
    requires |net.tcp| == |tc.ports| && |net.http| == |tc.httpChecks|
    ensures h.argv == Split(CommandLine(tc))
    ensures h.status == Exec(b, Timeout, tc.ports, tc.httpChecks, net, false, cleanup).status
    ensures h.signals == Exec(b, Timeout, tc.ports, tc.httpChecks, net, false, cleanup).signals
    ensures report == Outcome(tc, b, net, cleanup)
  {
    var flags := BuildFlags(tc.args);
    var command := Join(" ", Launcher + [MemoryOption, tc.memory] + [PortsArg(tc.ports)] + [PlatOption, tc.plat.Value()]
                             + [Join(" ", flags)] + [ArchOption, tc.arch.Value()] + [tc.image]);
    h := new Handle.Spawn(Split(command), b);
    var checks := new HttpCheck[|tc.httpChecks|](i requires 0 <= i < |tc.httpChecks| => tc.httpChecks[i]);
    assert checks[..] == tc.httpChecks;
    var r := Execute(h, Timeout, tc.ports, checks, net, false, cleanup);
    if r.Reraised? {
      report := Evaluation([], true);
    } else {
      report := Evaluate(tc, r.captured, r.tcp, checks[..]);
    }
  }

  /** When the image exits within the timeout its HTTP checks carry no `result`, so a test
      case with HTTP checks prints its other verdicts and then raises `KeyError`. */
  lemma ExitedRunWithHttpChecksRaises(tc: TestCase, b: Behaviour, net: Network, cleanup: Cleanup)
    requires |net.tcp| == |tc.ports| && |net.http| == |tc.httpChecks|
    requires Wait(b, Timeout).Exited?
    requires |tc.httpChecks| > 0 && forall k :: 0 <= k < |tc.httpChecks| ==> tc.httpChecks[k].probe.None?
    ensures Outcome(tc, b, net, cleanup) == Evaluation(
      ContentVerdicts(Stdout, tc.stdoutCheck, b.natural.out) + ContentVerdicts(Stderr, tc.stderrCheck, b.natural.err)
      + ReturnCodeVerdicts(tc.returnCode, b.natural.code), true)
  {
    assert tc.httpChecks[0].probe.None?;
    assert TcpVerdicts([]) == [];
  }

  /** The legacy `run_test` command (no extra flags). */
  function RunTestCommand(image: string, memory: string, ports: seq<(int, int)>, plat: Platform, arch: Architecture): string {
    Join(" ", Launcher + [MemoryOption, memory] + [PortsArg(ports)] + [PlatOption, plat.Value()] + [ArchOption, arch.Value()] + [image])
  }

  /** The legacy command after `split()`: as `CommandTokens`, without any flag tokens. */
  lemma RunTestCommandTokens(image: string, memory: string, ports: seq<(int, int)>, plat: Platform, arch: Architecture)
    ensures Split(RunTestCommand(image, memory, ports, plat, arch)) ==
      Launcher + [MemoryOption] + Split(memory) + PortTokens(ports) + [PlatOption, plat.Value()] + [ArchOption, arch.Value()] + Split(image)
  {
    var s1 := Launcher + [MemoryOption, memory];
    var s2 := s1 + [PortsArg(ports)];
    var s3 := s2 + [PlatOption, plat.Value()];
    var s4 := s3 + [ArchOption, arch.Value()];
    FixedWords();
    MemoryTokens(memory);
    SplitAllSnoc(s1, PortsArg(ports));
    PortsArgTokens(ports);
    SplitAllSnocWords(s2, PlatOption, plat.Value());
    SplitAllSnocWords(s3, ArchOption, arch.Value());
    SplitJoin(s4 + [image]);
    SplitAllSnoc(s4, image);
  }

  /** The two legacy verdicts of one probed port: whether the response was `ok`, then
      whether the expected text occurs in its body. */
  function PortVerdicts(port: int, response: Response, uri: string, expected: string): seq<Verdict> {
    var url := Url(port, uri);
    [Verdict(ResponseOk(url), response.ok), Verdict(Includes(Body(url), expected), Contains(response.text, expected))]
  }

  /** The legacy HTTP verdicts, port by port; none of them is about stdout or the exit code. */
  function RunTestHttpVerdicts(http: seq<(int, Response)>, uri: string, expected: string): (r: seq<Verdict>)
    ensures |r| == 2 * |http|
    ensures AllIn(r, HttpChecks)
  {
    if |http| == 0 then []
    else
      var pair := PortVerdicts(http[0].0, http[0].1, uri, expected);
      var rest := RunTestHttpVerdicts(http[1..], uri, expected);
      AllInAppend(pair, rest, HttpChecks);
      pair + rest
  }

  /** Port `k` of the probe list owns verdicts `2k` and `2k+1`. */
  lemma RunTestHttpVerdictsAt(http: seq<(int, Response)>, uri: string, expected: string, k: nat)
    requires k < |http|
    ensures var r := RunTestHttpVerdicts(http, uri, expected);
      var pair := PortVerdicts(http[k].0, http[k].1, uri, expected);
      r[2 * k] == pair[0] && r[2 * k + 1] == pair[1]
  {
    var r := RunTestHttpVerdicts(http, uri, expected);
    RunTestHttpVerdictsDrop(http, uri, expected, k);
    assert r[2 * k] == r[2 * k..][0] && r[2 * k + 1] == r[2 * k..][1];
  }

  /** Dropping the verdicts of the first `k` ports leaves those of the remaining ports. */
  lemma {:induction false} RunTestHttpVerdictsDrop(http: seq<(int, Response)>, uri: string, expected: string, k: nat)
    requires k <= |http|
    ensures RunTestHttpVerdicts(http, uri, expected)[2 * k..] == RunTestHttpVerdicts(http[k..], uri, expected)
  {
    if k > 0 {
      var first := PortVerdicts(http[0].0, http[0].1, uri, expected);
      var rest := RunTestHttpVerdicts(http[1..], uri, expected);
      assert RunTestHttpVerdicts(http, uri, expected) == first + rest;
      assert rest[2 * (k - 1)..] == RunTestHttpVerdicts(http[k..], uri, expected) by {
        RunTestHttpVerdictsDrop(http[1..], uri, expected, k - 1);
        assert http[1..][k - 1..] == http[k..];
      }
      DropPair(first, rest, k);
    }
  }

  lemma DropPair(first: seq<Verdict>, rest: seq<Verdict>, k: nat)
    requires |first| == 2 && 0 < k && 2 * k <= |first| + |rest|
    ensures (first + rest)[2 * k..] == rest[2 * (k - 1)..]
  {
  }

  /** The checks of the legacy `run_test`, each skipped when its expectation is falsy. */
  function RunTestVerdicts(stdoutCheck: string, stderrCheck: bool, returnCode: int, httpUri: string, httpResponseCheck: string,
                           c: Captured, tcp: seq<(int, int)>, http: seq<(int, Response)>): seq<Verdict> {
    (if stdoutCheck != "" then [Verdict(Includes(Stdout, stdoutCheck), Contains(c.out, stdoutCheck))] else [])
    + (if stderrCheck then [Verdict(IsEmpty(Stderr), c.err == "")] else [])
    + (if returnCode != 0 then [Verdict(ExitEquals(returnCode), c.code == returnCode)] else [])
    + TcpVerdicts(tcp)
    + RunTestHttpVerdicts(http, httpUri, httpResponseCheck)
  }

  /** An empty expected stdout string skips the stdout check and an expected exit code of 0
      skips the exit-code check, whatever the process printed or returned; otherwise each
      yields exactly one verdict, placed first among the verdicts of its kind. */
  lemma RunTestSkipsFalsyExpectations(stdoutCheck: string, stderrCheck: bool, returnCode: int, httpUri: string,
                                      httpResponseCheck: string, c: Captured, tcp: seq<(int, int)>, http: seq<(int, Response)>)
    ensures var r := RunTestVerdicts(stdoutCheck, stderrCheck, returnCode, httpUri, httpResponseCheck, c, tcp, http);
      && (stdoutCheck == "" <==> Excludes(r, StdoutChecks))
      && (returnCode == 0 <==> Excludes(r, ReturnCodeChecks))
      && (stdoutCheck != "" ==> r[0] == Verdict(Includes(Stdout, stdoutCheck), Contains(c.out, stdoutCheck)))
  {
    var out := if stdoutCheck != "" then [Verdict(Includes(Stdout, stdoutCheck), Contains(c.out, stdoutCheck))] else [];
    var err := if stderrCheck then [Verdict(IsEmpty(Stderr), c.err == "")] else [];
    var code := if returnCode != 0 then [Verdict(ExitEquals(returnCode), c.code == returnCode)] else [];
    var a, b := TcpVerdicts(tcp), RunTestHttpVerdicts(http, httpUri, httpResponseCheck);
    TailQuiet(tcp, http, httpUri, httpResponseCheck);
    if stdoutCheck != "" {
      assert CategoryOf(out[0].kind) == StdoutChecks;
    }
    if returnCode != 0 {
      assert CategoryOf(code[0].kind) == ReturnCodeChecks;
    }
    OnlyHeadDecides(out, err, code, a, b, StdoutChecks);
    OnlyHeadDecides(code, err, out, a, b, ReturnCodeChecks);
  }

  /** When the middle and the tail exclude a category, whether the whole does is up to the
      two outer pieces of the head. */
  lemma OnlyHeadDecides(x: seq<Verdict>, err: seq<Verdict>, y: seq<Verdict>, a: seq<Verdict>, b: seq<Verdict>, category: Category)
    requires Excludes(err, category) && Excludes(a, category) && Excludes(b, category)
    ensures Excludes(x + err + y + a + b, category) <==> Excludes(x, category) && Excludes(y, category)
    ensures Excludes(y + err + x + a + b, category) <==> Excludes(x, category) && Excludes(y, category)
  {
    ExcludesAppend(x, err, category);
    ExcludesAppend(x + err, y, category);
    ExcludesAppend(x + err + y, a, category);
    ExcludesAppend(x + err + y + a, b, category);
    ExcludesAppend(y, err, category);
    ExcludesAppend(y + err, x, category);
    ExcludesAppend(y + err + x, a, category);
    ExcludesAppend(y + err + x + a, b, category);
  }

  /** Neither the TCP verdicts nor the legacy HTTP verdicts are about stdout or the exit code. */
  lemma TailQuiet(tcp: seq<(int, int)>, http: seq<(int, Response)>, uri: string, expected: string)
    ensures Excludes(TcpVerdicts(tcp), StdoutChecks) && Excludes(TcpVerdicts(tcp), ReturnCodeChecks)
    ensures Excludes(RunTestHttpVerdicts(http, uri, expected), StdoutChecks)
    ensures Excludes(RunTestHttpVerdicts(http, uri, expected), ReturnCodeChecks)
  {
    var a, b := TcpVerdicts(tcp), RunTestHttpVerdicts(http, uri, expected);
    EvaluatorCategories(Stdout, ContentCheck(None, None), "", ReturnCodeCheck(None, None, None), 0, tcp,
                        HttpCheck("", "", 0, 0, None, None), Response(0, false, ""));
    AllInExcludes(a, TcpChecks, StdoutChecks);
    AllInExcludes(a, TcpChecks, ReturnCodeChecks);
    AllInExcludes(b, HttpChecks, StdoutChecks);
    AllInExcludes(b, HttpChecks, ReturnCodeChecks);
  }
}
