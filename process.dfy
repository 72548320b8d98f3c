/** The launched launcher process, seen from the runner: its observable behaviour and the
    handle (`subprocess.Popen`) through which the runner waits for it, stops it or kills it. */
module Process {
  import opened Wrappers

  /** What `communicate()` hands back: stdout, stderr and the exit code. */
  datatype Captured = Captured(out: string, err: string, code: int)

  /** How a launched image behaves, as far as the runner can observe it. `exitsAfter` is the
      number of seconds after which the launcher exits on its own (`None`: it keeps running
      until it is stopped); `natural` is what it leaves when it does; `afterTerminate` is what
      it leaves once stopped gracefully; `waitRaises` says that the bounded wait itself fails
      with an exception other than the timeout. */
  datatype Behaviour = Behaviour(
    exitsAfter: Option<int>, natural: Captured, afterTerminate: Captured, waitRaises: bool)

  /** The three ways `communicate(timeout=t)` can return. */
  datatype WaitOutcome = Exited(captured: Captured) | TimedOut | Raised

  /** The outcome of the bounded wait: the launcher's own output when it exits within the
      bound, a timeout when it does not, an exception when the wait fails. */
  function Wait(b: Behaviour, timeout: int): (w: WaitOutcome)
    ensures w.Exited? <==> !b.waitRaises && b.exitsAfter.Some? && b.exitsAfter.value <= timeout
    ensures w.Exited? ==> w.captured == b.natural
    ensures w.Raised? <==> b.waitRaises
  {
    if b.waitRaises then Raised
    else if b.exitsAfter.Some? && b.exitsAfter.value <= timeout then Exited(b.natural)
    else TimedOut
  }

  /** A longer bound never turns a natural exit into a timeout. */
  lemma WaitLonger(b: Behaviour, t: int, t': int)
    requires t <= t' && Wait(b, t).Exited?
    ensures Wait(b, t') == Wait(b, t)
  {
  }

  /** Where the process is in its life. */
  datatype Status = Running | ExitedOnItsOwn | Terminated | Killed

  /** The signals the runner can send. */
  datatype Signal = SigTerm | SigKill

  /** A `subprocess.Popen` handle on the launcher. */
  class Handle {
    const argv: seq<string>
    const behaviour: Behaviour
    var status: Status
    /** The signals sent so far, in order. */
    var signals: seq<Signal>

    /** Start the launcher with the given argument vector. */
    constructor Spawn(argv: seq<string>, behaviour: Behaviour)
      ensures this.argv == argv && this.behaviour == behaviour
      ensures status == Running && signals == []
    {
      this.argv := argv;
      this.behaviour := behaviour;
      status := Running;
      signals := [];
    }

    /** `communicate(timeout=t)`: wait for the launcher to exit, at most `t` seconds. */
    method Communicate(timeout: int) returns (w: WaitOutcome)
      requires status == Running
      modifies this
      ensures w == Wait(behaviour, timeout)
      ensures status == (if w.Exited? then ExitedOnItsOwn else Running)
      ensures signals == old(signals)
    {
      w := Wait(behaviour, timeout);
      if w.Exited? {
        status := ExitedOnItsOwn;
      }
    }

    /** `terminate()`: ask the running launcher to stop. */
    method Terminate()
      requires status == Running
      modifies this
      ensures status == Terminated
      ensures signals == old(signals) + [SigTerm]
    {
      status := Terminated;
      signals := signals + [SigTerm];
    }

    /** `communicate()` after `terminate()`: collect everything the launcher left. */
    method Drain() returns (c: Captured)
      requires status == Terminated
      ensures c == behaviour.afterTerminate
    {
      c := behaviour.afterTerminate;
    }

    /** `kill()`: force the launcher to stop; a process that already ended stays as it was. */
    method Kill()
      modifies this
      ensures status == (if old(status) == Running then Killed else old(status))
      ensures signals == old(signals) + [SigKill]
    {
      if status == Running {
        status := Killed;
      }
      signals := signals + [SigKill];
    }
  }
}
