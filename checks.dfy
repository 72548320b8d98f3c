/** The check evaluators of the test-case runner: pure functions from what was observed
    (stdout, stderr, exit code, TCP error codes, HTTP responses) and what the test case
    expects to an ordered list of pass/fail verdicts. Each verdict stands for one line the
    runner prints with a pass or fail glyph. */
module Checks {
  import opened Wrappers
  import opened Text

  /** What a content check looks at: one of the two output streams or an HTTP response body. */
  datatype Subject = Stdout | Stderr | Body(url: string)

  /** The check a verdict reports on, with the expectation it was given. */
  datatype Kind =
    | Includes(subject: Subject, substr: string)
    | IsEmpty(subject: Subject)
    | ExitEquals(expected: int)
    | ExitNotEqualTo(excluded: int)
    | ExitGreaterThan(bound: int)
    | TcpListening(port: int, errno: int)
    | StatusIs(url: string, expected: int)
    | ResponseOk(url: string)
    | RequestFailed(uri: string)

  datatype Verdict = Verdict(kind: Kind, passed: bool)

  /** A `stdout_check`, `stderr_check` or `response_check` mapping: its `contains` list and its
      `empty` key, each present or absent. */
  datatype ContentCheck = ContentCheck(contains: Option<seq<string>>, empty: Option<bool>)

  /** A `return_code` mapping: `equals`, `not_equal_to` and `greater_than`, each optional. */
  datatype ReturnCodeCheck = ReturnCodeCheck(equals: Option<int>, notEqualTo: Option<int>, greaterThan: Option<int>)

  /** The parts of an HTTP response the runner reads. */
  datatype Response = Response(statusCode: int, ok: bool, text: string)

  /** What the probe phase attached to an `http_check` mapping: a `result` or an `error`. */
  datatype Probe = Answered(response: Response) | ConnectionFailed

  /** One `http_check` mapping (`verb` is its `method` key); `probe` is the `result`/`error` key the probe phase writes into it. */
  datatype HttpCheck = HttpCheck(
    uri: string, verb: string, port: int, statusCode: int,
    responseCheck: Option<ContentCheck>, probe: Option<Probe>)

  /** The URL an HTTP check requests. Verdicts are labelled with it; the runner prints the
      response's own `url` instead, which differs after a redirect. Only the label differs. */
  function Url(port: int, uri: string): string {
    "http://localhost:" + Decimal(port) + uri
  }

  /** The verdicts printed while a runner is evaluating, and whether it then raised. */
  datatype Evaluation = Evaluation(verdicts: seq<Verdict>, raised: bool)

  /** Evaluate `first`, then, unless it raised, `second`. */
  function Then(first: Evaluation, second: Evaluation): Evaluation {
    if first.raised then first else Evaluation(first.verdicts + second.verdicts, second.raised)
  }

  /** One verdict per listed substring, in list order. */
  function IncludesEach(subject: Subject, substrs: seq<string>, observed: string): (r: seq<Verdict>)
    ensures |r| == |substrs|
    ensures forall k :: 0 <= k < |r| ==>
      r[k] == Verdict(Includes(subject, substrs[k]), Contains(observed, substrs[k]))
  {
    if |substrs| == 0 then []
    else [Verdict(Includes(subject, substrs[0]), Contains(observed, substrs[0]))]
         + IncludesEach(subject, substrs[1..], observed)
  }

  /** The verdicts of one content check: the `contains` verdicts, then the `empty` verdict. */
  function ContentVerdicts(subject: Subject, check: ContentCheck, observed: string): seq<Verdict> {
    (if check.contains.Some? then IncludesEach(subject, check.contains.value, observed) else [])
    + (if check.empty.Some? then [Verdict(IsEmpty(subject), |observed| == 0)] else [])
  }

  /** A content check yields one verdict per listed substring, passing iff the substring occurs,
      then, when the `empty` key is present, one verdict passing iff nothing was observed. */
  lemma ContentVerdictsShape(subject: Subject, check: ContentCheck, observed: string)
    ensures var n := if check.contains.Some? then |check.contains.value| else 0;
      var r := ContentVerdicts(subject, check, observed);
      && |r| == n + (if check.empty.Some? then 1 else 0)
      && (forall k :: 0 <= k < n ==>
            r[k] == Verdict(Includes(subject, check.contains.value[k]), Contains(observed, check.contains.value[k])))
      && (check.empty.Some? ==> r[n] == Verdict(IsEmpty(subject), observed == ""))
  {
  }

  /** Only the presence of the `empty` key matters, not its value. */
  lemma EmptyValueIgnored(subject: Subject, contains: Option<seq<string>>, b1: bool, b2: bool, observed: string)
    ensures ContentVerdicts(subject, ContentCheck(contains, Some(b1)), observed)
         == ContentVerdicts(subject, ContentCheck(contains, Some(b2)), observed)
  {
  }

  /** A zero-length output fails every `contains` check of a non-empty substring and passes
      the `empty` check. */
  lemma ZeroLengthObserved(subject: Subject, check: ContentCheck)
    ensures forall v :: v in ContentVerdicts(subject, check, "") ==>
      (v.kind.Includes? ==> v.passed == (v.kind.substr == "")) && (v.kind.IsEmpty? ==> v.passed)
  {
    forall v | v in ContentVerdicts(subject, check, "") && v.kind.Includes?
      ensures v.passed == (v.kind.substr == "")
    {
      NothingInEmpty(v.kind.substr);
    }
  }

  /** The exit-code checks that are present, each evaluated on its own. */
  function ReturnCodeVerdicts(check: ReturnCodeCheck, code: int): seq<Verdict> {
    (if check.equals.Some? then [Verdict(ExitEquals(check.equals.value), code == check.equals.value)] else [])
    + (if check.notEqualTo.Some? then [Verdict(ExitNotEqualTo(check.notEqualTo.value), code != check.notEqualTo.value)] else [])
    + (if check.greaterThan.Some? then [Verdict(ExitGreaterThan(check.greaterThan.value), code > check.greaterThan.value)] else [])
  }

  /** What an exit-code verdict asserts about the exit code. */
  predicate ExitHolds(kind: Kind, code: int) {
    match kind
    case ExitEquals(e) => code == e
    case ExitNotEqualTo(n) => code != n
    case ExitGreaterThan(g) => code > g
    case _ => false
  }

  /** Every present exit-code expectation yields exactly one verdict, absent ones none, and
      each verdict passes iff the exit code meets it. */
  lemma ReturnCodeVerdictsMeaning(check: ReturnCodeCheck, code: int)
    ensures var r := ReturnCodeVerdicts(check, code);
      && |r| == (if check.equals.Some? then 1 else 0) + (if check.notEqualTo.Some? then 1 else 0)
                + (if check.greaterThan.Some? then 1 else 0)
      && (forall v :: v in r ==> v.passed == ExitHolds(v.kind, code))
      && (forall e :: Verdict(ExitEquals(e), code == e) in r <==> check.equals == Some(e))
      && (forall n :: Verdict(ExitNotEqualTo(n), code != n) in r <==> check.notEqualTo == Some(n))
      && (forall g :: Verdict(ExitGreaterThan(g), code > g) in r <==> check.greaterThan == Some(g))
  {
  }

  /** `equals e` and `not_equal_to e` on the same exit code always disagree. */
  lemma EqualsAndNotEqualToDisagree(e: int, code: int)
    ensures var r := ReturnCodeVerdicts(ReturnCodeCheck(Some(e), Some(e), None), code);
      |r| == 2 && r[0].passed == !r[1].passed
  {
  }

  /** One verdict per recorded port, in recorded order, passing iff the error code is 0. */
  function TcpVerdicts(recorded: seq<(int, int)>): (r: seq<Verdict>)
    ensures |r| == |recorded|
    ensures forall k :: 0 <= k < |r| ==>
      r[k] == Verdict(TcpListening(recorded[k].0, recorded[k].1), recorded[k].1 == 0)
  {
    if |recorded| == 0 then []
    else [Verdict(TcpListening(recorded[0].0, recorded[0].1), recorded[0].1 == 0)] + TcpVerdicts(recorded[1..])
  }

  /** The verdicts of one answered HTTP check: the status verdict, then its `response_check`. */
  function ResponseVerdicts(check: HttpCheck, response: Response): seq<Verdict> {
    var url := Url(check.port, check.uri);
    [Verdict(StatusIs(url, check.statusCode), response.statusCode == check.statusCode)]
    + (if check.responseCheck.Some? then ContentVerdicts(Body(url), check.responseCheck.value, response.text) else [])
  }

  /** Which part of a test case a verdict belongs to. */
  datatype Category = StdoutChecks | StderrChecks | ReturnCodeChecks | TcpChecks | HttpChecks

  function CategoryOf(kind: Kind): Category {
    match kind
    case Includes(Stdout, _) => StdoutChecks
    case IsEmpty(Stdout) => StdoutChecks
    case Includes(Stderr, _) => StderrChecks
    case IsEmpty(Stderr) => StderrChecks
    case ExitEquals(_) => ReturnCodeChecks
    case ExitNotEqualTo(_) => ReturnCodeChecks
    case ExitGreaterThan(_) => ReturnCodeChecks
    case TcpListening(_, _) => TcpChecks
    case _ => HttpChecks
  }

  function SubjectCategory(subject: Subject): Category {
    match subject
    case Stdout => StdoutChecks
    case Stderr => StderrChecks
    case Body(_) => HttpChecks
  }

  /** Every verdict lies in `category`. */
  predicate AllIn(verdicts: seq<Verdict>, category: Category) {
    forall k :: 0 <= k < |verdicts| ==> CategoryOf(verdicts[k].kind) == category
  }

  /** Each evaluator only reports on its own part of the test case. */
  lemma EvaluatorCategories(subject: Subject, check: ContentCheck, observed: string, rc: ReturnCodeCheck, code: int,
                            recorded: seq<(int, int)>, http: HttpCheck, response: Response)
    ensures AllIn(ContentVerdicts(subject, check, observed), SubjectCategory(subject))
    ensures AllIn(ReturnCodeVerdicts(rc, code), ReturnCodeChecks)
    ensures AllIn(TcpVerdicts(recorded), TcpChecks)
    ensures AllIn(ResponseVerdicts(http, response), HttpChecks)
  {
    var url := Url(http.port, http.uri);
    if http.responseCheck.Some? {
      var body := ContentVerdicts(Body(url), http.responseCheck.value, response.text);
      assert AllIn(body, HttpChecks);
    }
  }

  /** No verdict lies in `category`. */
  predicate Excludes(verdicts: seq<Verdict>, category: Category) {
    forall k :: 0 <= k < |verdicts| ==> CategoryOf(verdicts[k].kind) != category
  }

  lemma ExcludesAppend(a: seq<Verdict>, b: seq<Verdict>, category: Category)
    ensures Excludes(a + b, category) <==> Excludes(a, category) && Excludes(b, category)
  {
    assert forall k :: 0 <= k < |a| ==> (a + b)[k] == a[k];
    assert forall k :: 0 <= k < |b| ==> (a + b)[|a| + k] == b[k];
  }

  lemma AllInExcludes(verdicts: seq<Verdict>, category: Category, other: Category)
    requires AllIn(verdicts, category) && other != category
    ensures Excludes(verdicts, other)
  {
  }

  lemma AllInAppend(a: seq<Verdict>, b: seq<Verdict>, category: Category)
    requires AllIn(a, category) && AllIn(b, category)
    ensures AllIn(a + b, category)
  {
  }

  /** An answered check always reports its status first; body verdicts pass iff the substring
      occurs in the response text, or, for `empty`, iff the text is "". */
  lemma ResponseVerdictsMeaning(check: HttpCheck, response: Response)
    ensures var r := ResponseVerdicts(check, response);
      && |r| >= 1
      && r[0].kind.StatusIs? && (r[0].passed <==> response.statusCode == check.statusCode)
      && (forall v :: v in r[1..] && v.kind.Includes? ==> v.passed == Contains(response.text, v.kind.substr))
      && (forall v :: v in r[1..] && v.kind.IsEmpty? ==> v.passed == (response.text == ""))
      && (check.responseCheck.None? ==> |r| == 1)
  {
    var url := Url(check.port, check.uri);
    var r := ResponseVerdicts(check, response);
    if check.responseCheck.Some? {
      ContentVerdictsShape(Body(url), check.responseCheck.value, response.text);
      assert r[1..] == ContentVerdicts(Body(url), check.responseCheck.value, response.text);
    }
  }
}
