/** The executor of one test case, shared by both versions of `run_test_case`: wait for the
    launcher under a timeout; only on timeout probe every published TCP port and every HTTP
    check, then stop the launcher gracefully and drain it; kill it when the wait fails. */
module Executor {
  import opened Wrappers
  import opened Checks
  import opened Process

  /** What `connect_ex` gives for one probe: an OS error code (0 on success) or an exception. */
  datatype TcpOutcome = Errno(code: int) | SocketError

  /** What `requests.request` gives for one probe: a response, a `ConnectionError`, or any
      other exception. */
  datatype HttpOutcome = Responded(response: Response) | ConnectionError | RequestError

  /** The answers the network gives, one per probe, in the order the probes are made. */
  datatype Network = Network(tcp: seq<TcpOutcome>, http: seq<HttpOutcome>)

  /** Which exceptions kill the launcher: the source's handler covers only the wait
      (`AsWritten`); the evidently intended handler covers the probes as well (`OnAnyError`). */
  datatype Cleanup = AsWritten | OnAnyError

  /** The ports that are recorded in a TCP results dictionary. */
  function Keys(d: seq<(int, int)>): set<int> {
    if |d| == 0 then {} else {d[0].0} + Keys(d[1..])
  }

  /** No port is recorded twice. */
  predicate DistinctKeys(d: seq<(int, int)>) {
    |d| == 0 || (d[0].0 !in Keys(d[1..]) && DistinctKeys(d[1..]))
  }

  /** `d[k] = v` on an insertion-ordered Python dictionary: an existing key keeps its place
      and takes the new value, a new key goes last. */
  function Put(d: seq<(int, int)>, k: int, v: int): (r: seq<(int, int)>)
    requires DistinctKeys(d)
    ensures Keys(r) == Keys(d) + {k}
    ensures DistinctKeys(r)
    ensures |r| == |d| + (if k in Keys(d) then 0 else 1)
  {
    if |d| == 0 then
      assert [(k, v)][0].0 == k;
      [(k, v)]
    else if d[0].0 == k then
      KeysCons(d[0], d[1..]);
      KeysCons((k, v), d[1..]);
      [(k, v)] + d[1..]
    else
      var rest := Put(d[1..], k, v);
      KeysCons(d[0], d[1..]);
      KeysCons(d[0], rest);
      [d[0]] + rest
  }

  /** Where `Put` writes: the entry under `k` holds `v`, every other entry stays where it was,
      and a new key goes last. */
  lemma {:induction false} PutMeaning(d: seq<(int, int)>, k: int, v: int)
    requires DistinctKeys(d)
    ensures k !in Keys(d) ==> Put(d, k, v) == d + [(k, v)]
    ensures forall i :: 0 <= i < |Put(d, k, v)| && Put(d, k, v)[i].0 == k ==> Put(d, k, v)[i].1 == v
    ensures forall i :: 0 <= i < |d| && d[i].0 != k ==> Put(d, k, v)[i] == d[i]
  {
    if |d| > 0 && d[0].0 == k {
      forall i | 1 <= i < |d| ensures d[i].0 != k {
        KeyAt(d[1..], i - 1);
        assert d[1..][i - 1] == d[i];
      }
    } else if |d| > 0 {
      var rest := Put(d[1..], k, v);
      PutMeaning(d[1..], k, v);
      KeysCons(d[0], d[1..]);
      assert Put(d, k, v) == [d[0]] + rest;
      assert forall i :: 1 <= i < |d| ==> d[i] == d[1..][i - 1];
      if k !in Keys(d) {
        assert d == [d[0]] + d[1..];
      }
    }
  }

  lemma KeysCons(x: (int, int), d: seq<(int, int)>)
    ensures Keys([x] + d) == {x.0} + Keys(d)
    ensures DistinctKeys([x] + d) <==> x.0 !in Keys(d) && DistinctKeys(d)
  {
    assert ([x] + d)[1..] == d;
  }

  /** Every entry's port is among the keys. */
  lemma {:induction false} KeyAt(d: seq<(int, int)>, i: nat)
    requires i < |d|
    ensures d[i].0 in Keys(d)
  {
    if i > 0 {
      KeyAt(d[1..], i - 1);
      assert d[1..][i - 1] == d[i];
    }
  }

  /** The probe loop from a partly filled dictionary on: `None` when a probe raises. */
  function RecordFrom(d: seq<(int, int)>, ports: seq<(int, int)>, outcomes: seq<TcpOutcome>): Option<seq<(int, int)>>
    requires |ports| == |outcomes| && DistinctKeys(d)
    decreases |ports|
  {
    if |ports| == 0 then Some(d)
    else match outcomes[0]
      case SocketError => None
      case Errno(e) => RecordFrom(Put(d, ports[0].0, e), ports[1..], outcomes[1..])
  }

  /** `ports_tcp_check_results` after probing every published port in list order. */
  function RecordTcp(ports: seq<(int, int)>, outcomes: seq<TcpOutcome>): Option<seq<(int, int)>>
    requires |ports| == |outcomes|
  {
    RecordFrom([], ports, outcomes)
  }

  /** The TCP probe loop: probe each published port in order and record its error code under
      that port; stop at the first probe that raises. */
  method ProbePorts(ports: seq<(int, int)>, outcomes: seq<TcpOutcome>) returns (recorded: seq<(int, int)>, ok: bool)
    requires |ports| == |outcomes|
    ensures (if ok then Some(recorded) else None) == RecordTcp(ports, outcomes)
  {
    recorded := [];
    for i := 0 to |ports|
      invariant DistinctKeys(recorded)
      invariant RecordTcp(ports, outcomes) == RecordFrom(recorded, ports[i..], outcomes[i..])
    {
      assert ports[i..][1..] == ports[i + 1..] && outcomes[i..][1..] == outcomes[i + 1..];
      match outcomes[i]
      case SocketError =>
        return [], false;
      case Errno(e) =>
        recorded := Put(recorded, ports[i].0, e);
    }
    ok := true;
  }

  /** Whether the probe loop completes: it does iff no probe raises. */
  lemma {:induction false} RecordFromSucceeds(d: seq<(int, int)>, ports: seq<(int, int)>, outcomes: seq<TcpOutcome>)
    requires |ports| == |outcomes|
    requires DistinctKeys(d)
    ensures RecordFrom(d, ports, outcomes).Some? <==> forall k :: 0 <= k < |outcomes| ==> outcomes[k].Errno?
    ensures RecordFrom(d, ports, outcomes).Some? ==> DistinctKeys(RecordFrom(d, ports, outcomes).value)
    decreases |ports|
  {
    if |ports| > 0 && outcomes[0].Errno? {
      RecordFromSucceeds(Put(d, ports[0].0, outcomes[0].code), ports[1..], outcomes[1..]);
      assert forall k :: 1 <= k < |outcomes| ==> outcomes[1..][k - 1] == outcomes[k];
    }
  }

  /** One `(port, error code)` entry per published mapping, in list order. */
  function Entries(ports: seq<(int, int)>, outcomes: seq<TcpOutcome>): (r: seq<(int, int)>)
    requires |ports| == |outcomes|
    requires forall k :: 0 <= k < |outcomes| ==> outcomes[k].Errno?
    ensures |r| == |ports|
  {
    if |ports| == 0 then []
    else [(ports[0].0, outcomes[0].code)] + Entries(ports[1..], outcomes[1..])
  }

  /** Entry `k` pairs the `k`-th published port with the code of the `k`-th probe. */
  lemma {:induction false} EntriesAt(ports: seq<(int, int)>, outcomes: seq<TcpOutcome>, k: nat)
    requires |ports| == |outcomes|
    requires forall k :: 0 <= k < |outcomes| ==> outcomes[k].Errno?
    requires k < |ports|
    ensures Entries(ports, outcomes)[k] == (ports[k].0, outcomes[k].code)
  {
    if k > 0 {
      EntriesAt(ports[1..], outcomes[1..], k - 1);
    }
  }

  /** With distinct published ports, the dictionary holds one entry per mapping, in list
      order, each with the error code of its own probe. */
  lemma {:induction false} RecordFromDistinct(d: seq<(int, int)>, ports: seq<(int, int)>, outcomes: seq<TcpOutcome>)
    requires |ports| == |outcomes|
    requires forall k :: 0 <= k < |outcomes| ==> outcomes[k].Errno?
    requires DistinctKeys(ports) && DistinctKeys(d) && Keys(ports) !! Keys(d)
    ensures RecordFrom(d, ports, outcomes) == Some(d + Entries(ports, outcomes))
    decreases |ports|
  {
    if |ports| > 0 {
      var e := (ports[0].0, outcomes[0].code);
      var tail := Entries(ports[1..], outcomes[1..]);
      var d' := Put(d, ports[0].0, outcomes[0].code);
      assert d' == d + [e] by {
        PutMeaning(d, ports[0].0, outcomes[0].code);
      }
      assert RecordFrom(d', ports[1..], outcomes[1..]) == Some(d' + tail) by {
        RecordFromDistinct(d', ports[1..], outcomes[1..]);
      }
      assert Entries(ports, outcomes) == [e] + tail;
      assert d + [e] + tail == d + ([e] + tail);
    } else {
      assert d + Entries(ports, outcomes) == d;
    }
  }

  lemma RecordTcpDistinct(ports: seq<(int, int)>, outcomes: seq<TcpOutcome>)
    requires |ports| == |outcomes|
    requires forall k :: 0 <= k < |outcomes| ==> outcomes[k].Errno?
    requires DistinctKeys(ports)
    ensures RecordTcp(ports, outcomes) == Some(Entries(ports, outcomes))
  {
    RecordFromDistinct([], ports, outcomes);
    assert [] + Entries(ports, outcomes) == Entries(ports, outcomes);
  }

  /** Whether an HTTP probe's exception escapes the probe loop: any exception but a
      `ConnectionError`, and that one too unless the runner records it. */
  predicate Escapes(o: HttpOutcome, recordConnectionErrors: bool) {
    o.RequestError? || (o.ConnectionError? && !recordConnectionErrors)
  }

  /** The index of the first HTTP probe whose exception escapes, or the number of probes. */
  function FirstEscape(outcomes: seq<HttpOutcome>, recordConnectionErrors: bool): (n: nat)
    ensures n <= |outcomes|
    ensures forall k :: 0 <= k < n ==> !Escapes(outcomes[k], recordConnectionErrors)
    ensures n < |outcomes| ==> Escapes(outcomes[n], recordConnectionErrors)
  {
    if |outcomes| == 0 || Escapes(outcomes[0], recordConnectionErrors) then 0
    else 1 + FirstEscape(outcomes[1..], recordConnectionErrors)
  }

  /** What a probe that did not escape leaves on its check. */
  function ProbeOf(o: HttpOutcome): Probe
    requires !o.RequestError?
  {
    if o.Responded? then Answered(o.response) else ConnectionFailed
  }

  /** The `http_check` mappings after the probe loop: every check before the first escaping
      probe carries its `result` or `error`, the others are as they were. */
  function Attach(checks: seq<HttpCheck>, outcomes: seq<HttpOutcome>, recordConnectionErrors: bool): (r: seq<HttpCheck>)
    requires |checks| == |outcomes|
    ensures |r| == |checks|
  {
    var stop := FirstEscape(outcomes, recordConnectionErrors);
    seq(|checks|, k requires 0 <= k < |checks| =>
      if k < stop then checks[k].(probe := Some(ProbeOf(outcomes[k]))) else checks[k])
  }

  /** The HTTP probe loop, writing each outcome into its check in place; it stops at the first
      probe whose exception escapes. */
  method AttachProbes(checks: array<HttpCheck>, outcomes: seq<HttpOutcome>, recordConnectionErrors: bool) returns (escaped: bool)
    requires checks.Length == |outcomes|
    modifies checks
    ensures escaped <==> FirstEscape(outcomes, recordConnectionErrors) < |outcomes|
    ensures checks[..] == Attach(old(checks[..]), outcomes, recordConnectionErrors)
  {
    var stop := FirstEscape(outcomes, recordConnectionErrors);
    for i := 0 to checks.Length
      invariant i <= stop
      invariant forall k :: 0 <= k < i ==> checks[k] == old(checks[k]).(probe := Some(ProbeOf(outcomes[k])))
      invariant forall k :: i <= k < checks.Length ==> checks[k] == old(checks[k])
    {
      match outcomes[i]
      case Responded(response) =>
        checks[i] := checks[i].(probe := Some(Answered(response)));
      case ConnectionError =>
        if !recordConnectionErrors {
          return true;
        }
        checks[i] := checks[i].(probe := Some(ConnectionFailed));
      case RequestError =>
        return true;
    }
    escaped := false;
  }

  /** How the executor ends. */
  datatype ExecResult = Finished(captured: Captured, tcp: seq<(int, int)>) | Reraised

  /** The executor's whole effect: its result, where it leaves the process, the signals it
      sent and the `http_check` mappings. */
  datatype Execution = Execution(result: ExecResult, status: Status, signals: seq<Signal>, checks: seq<HttpCheck>)

  /** A probe raised inside the timeout handler. As written the exception escapes that handler
      without stopping the process; the guarded executor kills it first. */
  function ProbeFailure(cleanup: Cleanup, checks: seq<HttpCheck>): Execution {
    if cleanup == AsWritten then Execution(Reraised, Running, [], checks)
    else Execution(Reraised, Killed, [SigKill], checks)
  }

  /** The executor as a state machine, from the launched state to the stopped state. */
  function Exec(b: Behaviour, timeout: int, ports: seq<(int, int)>, checks: seq<HttpCheck>,
                net: Network, recordConnectionErrors: bool, cleanup: Cleanup): Execution
    requires |net.tcp| == |ports| && |net.http| == |checks|
  {
    match Wait(b, timeout)
    case Exited(c) => Execution(Finished(c, []), ExitedOnItsOwn, [], checks)
    case Raised => Execution(Reraised, Killed, [SigKill], checks)
    case TimedOut =>
      match RecordTcp(ports, net.tcp)
      case None => ProbeFailure(cleanup, checks)
      case Some(recorded) =>
        var attached := Attach(checks, net.http, recordConnectionErrors);
        if FirstEscape(net.http, recordConnectionErrors) < |checks| then ProbeFailure(cleanup, attached)
        else Execution(Finished(b.afterTerminate, recorded), Terminated, [SigTerm], attached)
  }

  /** The `try`/`except` block of `run_test_case`: wait; on timeout probe, terminate and drain;
      on any other exception from the wait kill and re-raise. */
  method Execute(h: Handle, timeout: int, ports: seq<(int, int)>, checks: array<HttpCheck>,
                 net: Network, recordConnectionErrors: bool, cleanup: Cleanup) returns (r: ExecResult)
    requires h.status == Running && h.signals == []
    requires |net.tcp| == |ports| && |net.http| == checks.Length
    modifies h, checks
    ensures Execution(r, h.status, h.signals, checks[..])
         == Exec(h.behaviour, timeout, ports, old(checks[..]), net, recordConnectionErrors, cleanup)
  {
    var w := h.Communicate(timeout);
    match w
    case Exited(c) =>
      r := Finished(c, []);
    case Raised =>
      h.Kill();
      r := Reraised;
    case TimedOut =>
      var recorded, ok := ProbePorts(ports, net.tcp);
      if !ok {
        if cleanup == OnAnyError {
          h.Kill();
        }
        return Reraised;
      }
      var escaped := AttachProbes(checks, net.http, recordConnectionErrors);
      if escaped {
        if cleanup == OnAnyError {
          h.Kill();
        }
        return Reraised;
      }
      h.Terminate();
      var c := h.Drain();
      r := Finished(c, recorded);
  }

  /** When the launcher exits within the timeout nothing is probed, nothing is signalled and
      its own output is what the checks see. */
  lemma NoProbingWhenExitedInTime(b: Behaviour, timeout: int, ports: seq<(int, int)>, checks: seq<HttpCheck>,
                                  net: Network, recordConnectionErrors: bool, cleanup: Cleanup)
    requires |net.tcp| == |ports| && |net.http| == |checks|
    requires !b.waitRaises && b.exitsAfter.Some? && b.exitsAfter.value <= timeout
    ensures Exec(b, timeout, ports, checks, net, recordConnectionErrors, cleanup)
         == Execution(Finished(b.natural, []), ExitedOnItsOwn, [], checks)
  {
  }

  /** On the timeout path with no escaping probe, every published port is recorded, every
      check carries its outcome, and the launcher is terminated once and then drained. */
  lemma TimeoutPathProbesThenTerminates(b: Behaviour, timeout: int, ports: seq<(int, int)>, checks: seq<HttpCheck>,
                                        net: Network, recordConnectionErrors: bool, cleanup: Cleanup)
    requires |net.tcp| == |ports| && |net.http| == |checks|
    requires Wait(b, timeout).TimedOut?
    requires forall k :: 0 <= k < |ports| ==> net.tcp[k].Errno?
    requires forall k :: 0 <= k < |checks| ==> !Escapes(net.http[k], recordConnectionErrors)
    ensures var x := Exec(b, timeout, ports, checks, net, recordConnectionErrors, cleanup);
      && x.result.Finished?
      && x.result.captured == b.afterTerminate
      && Keys(x.result.tcp) == Keys(ports)
      && x.status == Terminated && x.signals == [SigTerm]
      && |x.checks| == |checks|
      && forall k :: 0 <= k < |checks| ==> x.checks[k] == checks[k].(probe := Some(ProbeOf(net.http[k])))
  {
    RecordFromSucceeds([], ports, net.tcp);
    RecordFromKeys([], ports, net.tcp);
  }

  lemma {:induction false} RecordFromKeys(d: seq<(int, int)>, ports: seq<(int, int)>, outcomes: seq<TcpOutcome>)
    requires |ports| == |outcomes| && DistinctKeys(d)
    requires RecordFrom(d, ports, outcomes).Some?
    ensures Keys(RecordFrom(d, ports, outcomes).value) == Keys(d) + Keys(ports)
    decreases |ports|
  {
    if |ports| > 0 {
      var d' := Put(d, ports[0].0, outcomes[0].code);
      assert RecordFrom(d, ports, outcomes) == RecordFrom(d', ports[1..], outcomes[1..]);
      RecordFromKeys(d', ports[1..], outcomes[1..]);
      assert ports == [ports[0]] + ports[1..];
      KeysCons(ports[0], ports[1..]);
      assert Keys(d') == Keys(d) + {ports[0].0};
    } else {
      assert Keys(ports) == {};
    }
  }

  /** With the guarded cleanup the launcher is never left running: it exited on its own with
      no signal, or was terminated once, or was killed once. */
  lemma GuardedRunAlwaysStops(b: Behaviour, timeout: int, ports: seq<(int, int)>, checks: seq<HttpCheck>,
                              net: Network, recordConnectionErrors: bool)
    requires |net.tcp| == |ports| && |net.http| == |checks|
    ensures var x := Exec(b, timeout, ports, checks, net, recordConnectionErrors, OnAnyError);
      && x.status != Running
      && (x.status == ExitedOnItsOwn <==> x.signals == [])
      && (x.status == Terminated <==> x.signals == [SigTerm])
      && (x.status == Killed <==> x.signals == [SigKill])
      && (x.result.Finished? <==> x.status in {ExitedOnItsOwn, Terminated})
  {
  }

  /** As written, the launcher is left running with no signal exactly when the wait timed out
      and a probe then raised: that exception escapes the timeout handler, and the handler
      that kills is not consulted for it. */
  lemma AsWrittenLeakIffProbeRaises(b: Behaviour, timeout: int, ports: seq<(int, int)>, checks: seq<HttpCheck>,
                                    net: Network, recordConnectionErrors: bool)
    requires |net.tcp| == |ports| && |net.http| == |checks|
    ensures var x := Exec(b, timeout, ports, checks, net, recordConnectionErrors, AsWritten);
      x.status == Running <==>
        && Wait(b, timeout).TimedOut?
        && ((exists k :: 0 <= k < |ports| && net.tcp[k].SocketError?)
            || (exists k :: 0 <= k < |checks| && Escapes(net.http[k], recordConnectionErrors)))
  {
    RecordFromSucceeds([], ports, net.tcp);
    var stop := FirstEscape(net.http, recordConnectionErrors);
    if stop < |checks| {
      assert Escapes(net.http[stop], recordConnectionErrors);
    }
  }

  /** A concrete run: the image keeps serving past the 2-second timeout, its one HTTP check's
      port refuses the connection, and the runner does not record connection errors (the
      first version of `run_test_case`). The exception leaves the launcher running, unsignalled. */
  lemma ProbeEscapeLeavesProcessRunning()
    ensures var b := Behaviour(None, Captured("", "", 0), Captured("", "", 0), false);
      var check := HttpCheck("/", "GET", 2105, 200, None, None);
      var x := Exec(b, 2, [(2105, 2015)], [check], Network([Errno(0)], [ConnectionError]), false, AsWritten);
      x.result.Reraised? && x.status == Running && x.signals == []
  {
    var b := Behaviour(None, Captured("", "", 0), Captured("", "", 0), false);
    assert Wait(b, 2).TimedOut?;
    assert RecordTcp([(2105, 2015)], [Errno(0)]) == Some([(2105, 0)]);
    assert FirstEscape([ConnectionError], false) == 0;
  }
}
