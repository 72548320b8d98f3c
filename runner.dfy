/** The later runner (`test/test.py`): `run_test_case` with optional keys, a per-case
    timeout, recorded HTTP connection errors, and the enum lookups of its batch loop. */
module Runner {
  import opened Wrappers
  import opened Text
  import opened Checks
  import opened Launch
  import opened Process
  import opened Executor

  /** `Platforms`: QEMU, Firecracker and Xen, by their values. */
  datatype Platform = Qemu | Firecracker | Xen {
    function Value(): (s: string)
      ensures IsWord(s)
      ensures forall i :: 0 <= i < |s| ==> !('A' <= s[i] <= 'Z')
    {
      match this
      case Qemu => "qemu"
      case Firecracker => "fc"
      case Xen => "xen"
    }
  }

  /** `Architecture`: x86_64 only. */
  datatype Architecture = X86_64 {
    function Value(): (s: string)
      ensures IsWord(s)
      ensures forall i :: 0 <= i < |s| ==> !('A' <= s[i] <= 'Z')
    {
      "x86_64"
    }
  }

  /** `Platforms(s.lower())`: the member whose value is the lower-cased text, or the
      `ValueError` (here `None`) when there is none. */
  function ParsePlatform(s: string): (r: Option<Platform>)
    ensures r.Some? ==> r.value.Value() == Lower(s)
    ensures r.None? ==> forall p: Platform :: p.Value() != Lower(s)
  {
    var l := Lower(s);
    if l == "qemu" then Some(Qemu)
    else if l == "fc" then Some(Firecracker)
    else if l == "xen" then Some(Xen)
    else None
  }

  /** `Architecture(s.lower())`. */
  function ParseArchitecture(s: string): (r: Option<Architecture>)
    ensures r.Some? ==> r.value.Value() == Lower(s)
    ensures r.None? ==> forall a: Architecture :: a.Value() != Lower(s)
  {
    if Lower(s) == "x86_64" then Some(X86_64) else None
  }

  /** Every platform is read back from its own value. */
  lemma PlatformRoundTrip(p: Platform)
    ensures ParsePlatform(p.Value()) == Some(p)
  {
    LowerOfLower(p.Value());
  }

  lemma ArchitectureRoundTrip(a: Architecture)
    ensures ParseArchitecture(a.Value()) == Some(a)
  {
    LowerOfLower(a.Value());
  }

  /** Case does not matter: a platform written in capitals is still found. */
  lemma PlatformCaseInsensitive(p: Platform, s: string)
    requires |s| == |p.Value()|
    requires forall i :: 0 <= i < |s| ==> s[i] == p.Value()[i] || s[i] as int == p.Value()[i] as int - 32
    requires forall i :: 0 <= i < |s| ==> 'a' <= p.Value()[i] <= 'z' || !('A' <= s[i] <= 'Z')
    ensures ParsePlatform(s) == Some(p)
  {
    assert Lower(s) == p.Value();
  }

  /** The test-case mapping of this version: only the architecture, the platform (both already
      converted by the batch loop) and the image are required. */
  datatype TestCase = TestCase(
    arch: Architecture, plat: Platform, image: string,
    ports: Option<seq<(int, int)>>, args: Option<seq<(string, ArgValue)>>, timeout: Option<int>,
    stdoutCheck: Option<ContentCheck>, stderrCheck: Option<ContentCheck>,
    returnCode: Option<ReturnCodeCheck>, httpChecks: Option<seq<HttpCheck>>)

  /** The port mappings, none when the key is absent. */
  function PortsOf(tc: TestCase): seq<(int, int)> {
    if tc.ports.Some? then tc.ports.value else []
  }

  function ArgsOf(tc: TestCase): seq<(string, ArgValue)> {
    if tc.args.Some? then tc.args.value else []
  }

  function ChecksOf(tc: TestCase): seq<HttpCheck> {
    if tc.httpChecks.Some? then tc.httpChecks.value else []
  }

  const DefaultTimeout := 2

  /** The wait bound: the case's own `timeout` when it has one, 2 seconds otherwise. */
  function TimeoutOf(tc: TestCase): (t: int)
    ensures tc.timeout.None? ==> t == DefaultTimeout
    ensures tc.timeout.Some? ==> t == tc.timeout.value
  {
    match tc.timeout
    case None => DefaultTimeout
    case Some(t) => t
  }

  /** The launch command: no `-M`, otherwise the same order as the first version. */
  function CommandLine(tc: TestCase): string {
    Join(" ", Launcher + [PortsArg(PortsOf(tc))] + [PlatOption, tc.plat.Value()]
              + [Join(" ", ExtraFlags(ArgsOf(tc)))] + [ArchOption, tc.arch.Value()] + [tc.image])
  }

  /** The argument vector: `kraft run --rm`, the port tokens, `--plat` and the platform, the
      flag tokens, `--arch`, the architecture and the image; absent or empty `ports` and
      `args` leave no token, and no memory option is passed. */
  lemma CommandTokens(tc: TestCase)
    requires forall k :: 0 <= k < |ArgsOf(tc)| ==> NoSpace(ArgsOf(tc)[k].0)
    ensures Split(CommandLine(tc)) ==
      Launcher + PortTokens(PortsOf(tc)) + [PlatOption, tc.plat.Value()] + FlagTokens(ArgsOf(tc))
      + [ArchOption, tc.arch.Value()] + Split(tc.image)
  {
    var s1 := Launcher + [PortsArg(PortsOf(tc))];
    var s2 := s1 + [PlatOption, tc.plat.Value()];
    var s3 := s2 + [Join(" ", ExtraFlags(ArgsOf(tc)))];
    var s4 := s3 + [ArchOption, tc.arch.Value()];
    FixedWords();
    SplitAllSnoc(Launcher, PortsArg(PortsOf(tc)));
    PortsArgTokens(PortsOf(tc));
    SplitAllSnocWords(s1, PlatOption, tc.plat.Value());
    SplitAllSnoc(s2, Join(" ", ExtraFlags(ArgsOf(tc))));
    FlagsTokens(ArgsOf(tc));
    SplitAllSnocWords(s3, ArchOption, tc.arch.Value());
    SplitJoin(s4 + [tc.image]);
    SplitAllSnoc(s4, tc.image);
  }

  /** The HTTP verdicts of this version: a check with a recorded `error` yields one failing
      verdict and the loop goes on; one with a `result` yields its response verdicts; one
      with neither raises `KeyError`. */
  function HttpVerdicts(checks: seq<HttpCheck>): Evaluation {
    if |checks| == 0 then Evaluation([], false)
    else match checks[0].probe
      case Some(ConnectionFailed) =>
        Then(Evaluation([Verdict(RequestFailed(checks[0].uri), false)], false), HttpVerdicts(checks[1..]))
      case Some(Answered(response)) =>
        Then(Evaluation(ResponseVerdicts(checks[0], response), false), HttpVerdicts(checks[1..]))
      case None => Evaluation([], true)
  }

  lemma ThenAssociates(x: Evaluation, y: Evaluation, z: Evaluation)
    ensures Then(Then(x, y), z) == Then(x, Then(y, z))
  {
  }

  /** The HTTP checks are evaluated one after the other: the verdicts of a list are those of
      its front followed, unless the front raised, by those of its back. */
  lemma {:induction false} HttpVerdictsAppend(a: seq<HttpCheck>, b: seq<HttpCheck>)
    ensures HttpVerdicts(a + b) == Then(HttpVerdicts(a), HttpVerdicts(b))
  {
    if |a| == 0 {
      assert a + b == b;
    } else {
      assert (a + b)[0] == a[0];
      assert (a + b)[1..] == a[1..] + b;
      HttpVerdictsAppend(a[1..], b);
      match a[0].probe
      case Some(ConnectionFailed) =>
        ThenAssociates(Evaluation([Verdict(RequestFailed(a[0].uri), false)], false), HttpVerdicts(a[1..]), HttpVerdicts(b));
      case Some(Answered(response)) =>
        ThenAssociates(Evaluation(ResponseVerdicts(a[0], response), false), HttpVerdicts(a[1..]), HttpVerdicts(b));
      case None =>
    }
  }

  /** A check whose request failed to connect contributes exactly one failing verdict, naming
      its URI, and the checks before and after it are evaluated as if it were not there. */
  lemma RecordedErrorIsOneFailure(before: seq<HttpCheck>, failed: HttpCheck, after: seq<HttpCheck>)
    requires failed.probe == Some(ConnectionFailed)
    ensures HttpVerdicts(before + [failed] + after)
         == Then(Then(HttpVerdicts(before), Evaluation([Verdict(RequestFailed(failed.uri), false)], false)),
                 HttpVerdicts(after))
  {
    var one := Evaluation([Verdict(RequestFailed(failed.uri), false)], false);
    assert HttpVerdicts([failed]) == one by {
      assert [failed][1..] == [];
      assert one.verdicts + [] == one.verdicts;
    }
    HttpVerdictsAppend(before + [failed], after);
    HttpVerdictsAppend(before, [failed]);
  }

  /** Every HTTP verdict is about HTTP. */
  lemma {:induction false} HttpVerdictsCategory(checks: seq<HttpCheck>)
    ensures AllIn(HttpVerdicts(checks).verdicts, HttpChecks)
  {
    if |checks| > 0 {
      HttpVerdictsCategory(checks[1..]);
      match checks[0].probe
      case Some(ConnectionFailed) =>
        AllInAppend([Verdict(RequestFailed(checks[0].uri), false)], HttpVerdicts(checks[1..]).verdicts, HttpChecks);
      case Some(Answered(response)) =>
        EvaluatorCategories(Stdout, ContentCheck(None, None), "", ReturnCodeCheck(None, None, None), 0, [], checks[0], response);
        AllInAppend(ResponseVerdicts(checks[0], response), HttpVerdicts(checks[1..]).verdicts, HttpChecks);
      case None =>
    }
  }

  /** The verdicts of an optional content check. */
  function ContentIfPresent(subject: Subject, check: Option<ContentCheck>, observed: string): seq<Verdict> {
    if check.Some? then ContentVerdicts(subject, check.value, observed) else []
  }

  /** The verdicts printed before the HTTP checks: stdout, stderr, exit code, TCP. */
  function PlainVerdicts(tc: TestCase, c: Captured, tcp: seq<(int, int)>): seq<Verdict> {
    ContentIfPresent(Stdout, tc.stdoutCheck, c.out) + ContentIfPresent(Stderr, tc.stderrCheck, c.err)
    + (if tc.returnCode.Some? then ReturnCodeVerdicts(tc.returnCode.value, c.code) else [])
    + TcpVerdicts(tcp)
  }

  /** The evaluators of this version, in order; each runs only when its key is present. */
  function Evaluate(tc: TestCase, c: Captured, tcp: seq<(int, int)>, checks: seq<HttpCheck>): Evaluation {
    Then(Evaluation(PlainVerdicts(tc, c, tcp), false),
         if tc.httpChecks.Some? then HttpVerdicts(checks) else Evaluation([], false))
  }

  /** An absent key contributes no verdict of its kind, whatever was observed. */
  lemma AbsentKeysNoVerdicts(tc: TestCase, c: Captured, tcp: seq<(int, int)>, checks: seq<HttpCheck>)
    ensures var r := Evaluate(tc, c, tcp, checks).verdicts;
      && (tc.stdoutCheck.None? ==> Excludes(r, StdoutChecks))
      && (tc.stderrCheck.None? ==> Excludes(r, StderrChecks))
      && (tc.returnCode.None? ==> Excludes(r, ReturnCodeChecks))
      && (tc.httpChecks.None? ==> Excludes(r, HttpChecks))
  {
    if tc.stdoutCheck.None? { EvaluateExcludes(tc, c, tcp, checks, StdoutChecks); }
    if tc.stderrCheck.None? { EvaluateExcludes(tc, c, tcp, checks, StderrChecks); }
    if tc.returnCode.None? { EvaluateExcludes(tc, c, tcp, checks, ReturnCodeChecks); }
    if tc.httpChecks.None? { EvaluateExcludes(tc, c, tcp, checks, HttpChecks); }
  }

  lemma EvaluateExcludes(tc: TestCase, c: Captured, tcp: seq<(int, int)>, checks: seq<HttpCheck>, category: Category)
    requires category != TcpChecks
    requires category == StdoutChecks ==> tc.stdoutCheck.None?
    requires category == StderrChecks ==> tc.stderrCheck.None?
    requires category == ReturnCodeChecks ==> tc.returnCode.None?
    requires category == HttpChecks ==> tc.httpChecks.None?
    ensures Excludes(Evaluate(tc, c, tcp, checks).verdicts, category)
  {
    var out := ContentIfPresent(Stdout, tc.stdoutCheck, c.out);
    var err := ContentIfPresent(Stderr, tc.stderrCheck, c.err);
    var rc := if tc.returnCode.Some? then ReturnCodeVerdicts(tc.returnCode.value, c.code) else [];
    var http := if tc.httpChecks.Some? then HttpVerdicts(checks) else Evaluation([], false);
    var dummy := HttpCheck("", "", 0, 0, None, None);
    var none := Response(0, false, "");
    var noCodes := ReturnCodeCheck(None, None, None);
    if tc.stdoutCheck.Some? {
      EvaluatorCategories(Stdout, tc.stdoutCheck.value, c.out, noCodes, 0, [], dummy, none);
    }
    assert Excludes(out, category);
    if tc.stderrCheck.Some? {
      EvaluatorCategories(Stderr, tc.stderrCheck.value, c.err, noCodes, 0, [], dummy, none);
    }
    assert Excludes(err, category);
    if tc.returnCode.Some? {
      EvaluatorCategories(Stdout, ContentCheck(None, None), "", tc.returnCode.value, c.code, [], dummy, none);
    }
    assert Excludes(rc, category);
    EvaluatorCategories(Stdout, ContentCheck(None, None), "", noCodes, 0, tcp, dummy, none);
    assert Excludes(TcpVerdicts(tcp), category);
    if tc.httpChecks.Some? {
      HttpVerdictsCategory(checks);
    }
    assert Excludes(http.verdicts, category);
    ExcludesAppend(out, err, category);
    ExcludesAppend(out + err, rc, category);
    ExcludesAppend(out + err + rc, TcpVerdicts(tcp), category);
    ExcludesAppend(PlainVerdicts(tc, c, tcp), http.verdicts, category);
  }

  /** What one run of this version reports, given the image's behaviour and the network's
      answers. Connection errors of HTTP probes are recorded, other exceptions escape. */
  function Outcome(tc: TestCase, b: Behaviour, net: Network, cleanup: Cleanup): Evaluation
    requires |net.tcp| == |PortsOf(tc)| && |net.http| == |ChecksOf(tc)|
  {
    var x := Exec(b, TimeoutOf(tc), PortsOf(tc), ChecksOf(tc), net, true, cleanup);
    if x.result.Reraised? then Evaluation([], true) else Evaluate(tc, x.result.captured, x.result.tcp, x.checks)
  }

  /** `run_test_case`: build the command, launch, pick the timeout, run the executor, then
      evaluate. */
  method RunTestCase(tc: TestCase, b: Behaviour, net: Network, cleanup: Cleanup) returns (h: Handle, report: Evaluation)
    requires |net.tcp| == |PortsOf(tc)| && |net.http| == |ChecksOf(tc)|
    ensures h.argv == Split(CommandLine(tc))
    ensures h.status == Exec(b, TimeoutOf(tc), PortsOf(tc), ChecksOf(tc), net, true, cleanup).status
    ensures h.signals == Exec(b, TimeoutOf(tc), PortsOf(tc), ChecksOf(tc), net, true, cleanup).signals
    ensures report == Outcome(tc, b, net, cleanup)
  {
    var ports: seq<(int, int)> := [];
    if tc.ports.Some? {
      ports := tc.ports.value;
    }
    var flags: seq<string> := [];
    if tc.args.Some? {
      flags := BuildFlags(tc.args.value);
    }
    var command := Join(" ", Launcher + [PortsArg(ports)] + [PlatOption, tc.plat.Value()]
                             + [Join(" ", flags)] + [ArchOption, tc.arch.Value()] + [tc.image]);
    h := new Handle.Spawn(Split(command), b);
    var timeout := DefaultTimeout;
    if tc.timeout.Some? {
      timeout := tc.timeout.value;
    }
    var given := ChecksOf(tc);
    var checks := new HttpCheck[|given|](i requires 0 <= i < |given| => given[i]);
    assert checks[..] == given;
    var r := Execute(h, timeout, ports, checks, net, true, cleanup);
    if r.Reraised? {
      report := Evaluation([], true);
    } else {
      report := Evaluate(tc, r.captured, r.tcp, checks[..]);
    }
  }

  /** A case with no check keys and no ports reports nothing; it raises only when the
      executor does. */
  lemma NoChecksNoVerdicts(tc: TestCase, b: Behaviour, net: Network, cleanup: Cleanup)
    requires tc.stdoutCheck.None? && tc.stderrCheck.None? && tc.returnCode.None? && tc.httpChecks.None?
    requires PortsOf(tc) == [] && |net.tcp| == 0 && |net.http| == 0
    ensures Outcome(tc, b, net, cleanup).verdicts == []
    ensures Outcome(tc, b, net, cleanup).raised ==
      Exec(b, TimeoutOf(tc), [], [], net, true, cleanup).result.Reraised?
  {
    var x := Exec(b, TimeoutOf(tc), [], [], net, true, cleanup);
    assert RecordTcp([], []) == Some([]);
    assert x.result.Finished? ==> x.result.tcp == [];
  }

  /** With connection errors recorded, a server that refuses every HTTP connection no longer
      escapes the probe phase: the process is terminated and each HTTP check reports one
      failure. */
  lemma RefusedConnectionsAreReported(tc: TestCase, b: Behaviour, net: Network, cleanup: Cleanup)
    requires |net.tcp| == |PortsOf(tc)| && |net.http| == |ChecksOf(tc)|
    requires Wait(b, TimeoutOf(tc)).TimedOut?
    requires forall k :: 0 <= k < |net.tcp| ==> net.tcp[k].Errno?
    requires forall k :: 0 <= k < |net.http| ==> net.http[k] == ConnectionError
    ensures Exec(b, TimeoutOf(tc), PortsOf(tc), ChecksOf(tc), net, true, cleanup).status == Terminated
    ensures var x := Exec(b, TimeoutOf(tc), PortsOf(tc), ChecksOf(tc), net, true, cleanup);
      forall k :: 0 <= k < |x.checks| ==> x.checks[k].probe == Some(ConnectionFailed)
  {
    TimeoutPathProbesThenTerminates(b, TimeoutOf(tc), PortsOf(tc), ChecksOf(tc), net, true, cleanup);
    assert FirstEscape(net.http, true) == |net.http|;
  }
}
