/** The checkpoint handshake: a disconnecting thread asks the replica thread for
    leave to shut RDMA down, and the replica thread parks until it is told to
    reconnect.  The two flags are read and written in separate steps; there is one
    disconnecting thread at a time. */
module Checkpoint {

  datatype Flag = NoDisconnected | Request | Approve

  /** `disconnct_inner`: not called; found the flag clear; spinning on its request;
      left the spin; inside the shutdown. */
  datatype Caller = Idle | Asking | Spinning | Answered | ShuttingDown

  /** The replica thread: at work; has seen a request; has found its connection map
      empty, or not; parked on the restore flag; reconnecting. */
  datatype Replica = Working | SawRequest | FoundNone | FoundSome | Parked | Reconnecting

  /** `granted` counts the shutdowns that have returned in success, `raised` how often
      the restore flag was raised; `failed` is set by a shutdown that returned -1. */
  datatype State = State(flag: Flag, restore: bool, connections: nat, caller: Caller, replica: Replica,
                         granted: nat, raised: nat, failed: bool)

  datatype Action =
    | Call | WriteRequest | LeaveSpin | Decide | ShutdownDone | ShutdownFails
    | Work(connections: nat) | Check | Count | Answer | Wake | Reconnect
    | Raise

  const INIT := State(NoDisconnected, false, 0, Idle, Working, 0, 0, false)

  predicate Enabled(s: State, a: Action)
  {
    match a
    case Call => s.caller == Idle
    case WriteRequest => s.caller == Asking
    case LeaveSpin => s.caller == Spinning && s.flag != Request
    case Decide => s.caller == Answered
    case ShutdownDone => s.caller == ShuttingDown
    case ShutdownFails => s.caller == ShuttingDown
    case Work(_) => s.replica == Working
    case Check => s.replica == Working && s.flag == Request
    case Count => s.replica == SawRequest
    case Answer => s.replica == FoundNone || s.replica == FoundSome
    case Wake => s.replica == Parked && s.restore
    case Reconnect => s.replica == Reconnecting
    case Raise => true
  }

  function Apply(s: State, a: Action): (s': State)
    requires Enabled(s, a)
  {
    match a
    case Call => if s.flag == NoDisconnected then s.(caller := Asking) else s
    case WriteRequest => s.(flag := Request, caller := Spinning)
    case LeaveSpin => s.(caller := Answered)
    case Decide => s.(caller := if s.flag == Approve then ShuttingDown else Idle)
    case ShutdownDone => s.(flag := NoDisconnected, caller := Idle, granted := s.granted + 1)
    case ShutdownFails => s.(caller := Idle, failed := true)
    case Work(n) => s.(connections := n)
    case Check => s.(replica := SawRequest)
    case Count => s.(replica := if s.connections == 0 then FoundNone else FoundSome)
    case Answer =>
      if s.replica == FoundNone then s.(flag := Approve, replica := Parked)
      else s.(flag := NoDisconnected, replica := Working)
    case Wake => s.(replica := Reconnecting)
    case Reconnect => s.(restore := false, replica := Working)
    case Raise => s.(restore := true, raised := s.raised + 1)
  }

  /** The rule for the controller: raise the flag once for every successful shutdown,
      and after it has returned. */
  predicate Ruled(s: State, a: Action)
  {
    a.Raise? ==> s.raised < s.granted
  }

  ghost predicate Next(s: State, s': State, ruled: bool)
  {
    exists a :: Enabled(s, a) && (ruled ==> Ruled(s, a)) && s' == Apply(s, a)
  }

  ghost predicate Run(run: seq<State>, ruled: bool)
  {
    && |run| > 0 && run[0] == INIT
    && forall i, j :: 0 <= i < j == i + 1 < |run| ==> Next(run[i], run[j], ruled)
  }

  /** What the handshake is for. */
  predicate Safe(s: State)
  {
    s.caller == ShuttingDown ==> s.replica == Parked && s.connections == 0
  }

  /** The restore flag is up although a call is between its approval and its end. */
  predicate Early(s: State)
  {
    s.flag == Approve && s.caller != Idle && s.restore
  }

  // ------------------------------------------------------ what every run keeps

  predicate Inv(s: State)
  {
    && (s.replica == SawRequest || s.replica == FoundNone || s.replica == FoundSome ==> s.flag == Request)
    && (s.replica == FoundNone || s.replica == Parked || s.replica == Reconnecting ==> s.connections == 0)
    && (s.flag == Request ==> s.caller == Spinning)
    && (s.caller == Asking ==> s.flag == NoDisconnected)
    && (s.caller == Answered ==> s.flag != Request)
    && (s.caller == ShuttingDown ==> s.flag == Approve)
    && (s.failed <==> s.caller == Idle && s.flag != NoDisconnected)
    && (s.failed ==> s.flag == Approve)
  }

  predicate ParkedWhileApproved(s: State)
  {
    s.flag == Approve && s.caller != Idle ==> s.replica == Parked
  }

  lemma InvStep(s: State, a: Action)
    requires Inv(s) && Enabled(s, a)
    ensures Inv(Apply(s, a))
    ensures ParkedWhileApproved(s) && !Early(s) ==> ParkedWhileApproved(Apply(s, a))
  {
  }

  lemma {:induction false} RunInv(run: seq<State>, ruled: bool, i: nat)
    requires Run(run, ruled) && i < |run|
    ensures Inv(run[i])
    ensures (forall k :: 0 <= k < i ==> !Early(run[k])) ==> ParkedWhileApproved(run[i])
  {
    if i > 0 {
      var j := i - 1;
      RunInv(run, ruled, j);
      assert Next(run[j], run[i], ruled);
      var a :| Enabled(run[j], a) && run[i] == Apply(run[j], a);
      InvStep(run[j], a);
    }
  }

  /** With any controller: as long as the restore flag has not been up early, every
      shutdown runs while the replica thread is parked and has no connections. */
  lemma LateFlagSuffices(run: seq<State>, i: nat)
    requires Run(run, false) && i < |run|
    requires forall k :: 0 <= k < i ==> !Early(run[k])
    ensures Safe(run[i])
  {
    RunInv(run, false, i);
  }

  function Last(run: seq<State>): (s: State)
  {
    if run == [] then INIT else run[|run| - 1]
  }

  lemma StartRun()
    ensures Run([INIT], false)
  {
  }

  lemma Extend(run: seq<State>, a: Action) returns (longer: seq<State>)
    requires Run(run, false) && Enabled(Last(run), a)
    ensures Run(longer, false) && longer == run + [Apply(Last(run), a)]
    ensures |run| > 0 && run <= longer && Last(longer) == Apply(Last(run), a)
  {
    longer := run + [Apply(Last(run), a)];
    forall i, j | 0 <= i < j == i + 1 < |longer| ensures Next(longer[i], longer[j], false) {
      assert longer[i] == run[i];
      if j < |run| {
        assert longer[j] == run[j];
      }
    }
  }

  /** And it is needed: every run that has come to a state with the flag up early can
      go on to an unsafe shutdown. */
  lemma EarlyFlagBreaks(run: seq<State>) returns (longer: seq<State>)
    requires Run(run, false) && Early(Last(run))
    ensures Run(longer, false) && run <= longer && !Safe(Last(longer))
  {
    RunInv(run, false, |run| - 1);
    hide Run;
    longer := run;
    if Last(longer).replica == Parked {
      longer := Extend(longer, Wake);
    }
    if Last(longer).caller == Spinning {
      longer := Extend(longer, LeaveSpin);
    }
    if Last(longer).caller == Answered {
      longer := Extend(longer, Decide);
    }
  }

  /** A call finds the flag set, and so returns 0 without a shutdown, exactly after a
      failed shutdown, and the flag then stays so: no later call shuts RDMA down.
      Otherwise 0 means that RDMA has been shut down. */
  lemma IdleCallMeansFailure(run: seq<State>, ruled: bool, i: nat)
    requires Run(run, ruled) && i < |run|
    ensures run[i].failed <==> run[i].caller == Idle && run[i].flag != NoDisconnected
    ensures run[i].failed ==> forall j :: i <= j < |run| ==> run[j].failed && run[j].granted == run[i].granted
  {
    RunInv(run, ruled, i);
    if run[i].failed {
      forall j | i <= j < |run| ensures run[j].failed && run[j].granted == run[i].granted {
        FailureStays(run, ruled, i, j);
      }
    }
  }

  lemma {:induction false} FailureStays(run: seq<State>, ruled: bool, i: nat, j: nat)
    requires Run(run, ruled) && i <= j < |run| && run[i].failed
    ensures run[j].failed && run[j].granted == run[i].granted
  {
    if i < j {
      var k := j - 1;
      FailureStays(run, ruled, i, k);
      RunInv(run, ruled, k);
      assert Next(run[k], run[j], ruled);
    }
  }

  // ------------------------------------------------------------- under the rule

  predicate RuledInv(s: State)
  {
    && s.raised <= s.granted <= s.raised + 1
    && (s.replica == Reconnecting ==> s.restore)
    && (s.restore ==> s.granted == s.raised && s.flag != Approve && (s.replica == Parked || s.replica == Reconnecting))
    && (s.raised < s.granted ==> s.replica == Parked && !s.restore && s.flag != Approve)
    && (s.flag == Approve ==> s.replica == Parked && s.granted == s.raised)
  }

  lemma RuledStep(s: State, a: Action)
    requires Inv(s) && RuledInv(s) && Enabled(s, a) && Ruled(s, a)
    ensures RuledInv(Apply(s, a))
  {
  }

  lemma {:induction false} RuledRun(run: seq<State>, i: nat)
    requires Run(run, true) && i < |run|
    ensures Inv(run[i]) && RuledInv(run[i])
  {
    RunInv(run, true, i);
    if i > 0 {
      var j := i - 1;
      RuledRun(run, j);
      assert Next(run[j], run[i], true);
      var a :| Enabled(run[j], a) && Ruled(run[j], a) && run[i] == Apply(run[j], a);
      RuledStep(run[j], a);
    }
  }

  /** With a controller that raises the flag once after each successful shutdown,
      every shutdown of every run is safe, and the flag is never up early. */
  lemma ShutdownSafe(run: seq<State>, i: nat)
    requires Run(run, true) && i < |run|
    ensures Safe(run[i]) && !Early(run[i])
  {
    RuledRun(run, i);
  }

  // ------------------------------------------- raising after a refused request

  /** The first request is refused because there is a connection. */
  lemma Refused() returns (run: seq<State>)
    ensures Run(run, false) && Last(run) == INIT.(connections := 1)
  {
    hide Run;
    StartRun();
    run := [INIT];
    run := Extend(run, Work(1));
    run := Extend(run, Call);
    run := Extend(run, WriteRequest);
    run := Extend(run, Check);
    run := Extend(run, Count);
    run := Extend(run, Answer);
    run := Extend(run, LeaveSpin);
    run := Extend(run, Decide);
  }

  /** With the flag up, the second one is approved and the replica thread leaves. */
  lemma ApprovedUnparked(first: seq<State>) returns (run: seq<State>)
    requires Run(first, false) && Last(first) == State(NoDisconnected, true, 1, Idle, Working, 0, 1, false)
    ensures Run(run, false) && first <= run
    ensures Last(run) == State(Approve, false, 1, ShuttingDown, Working, 0, 1, false)
  {
    hide Run;
    run := Extend(first, Work(0));
    run := Extend(run, Call);
    run := Extend(run, WriteRequest);
    run := Extend(run, Check);
    run := Extend(run, Count);
    run := Extend(run, Answer);
    run := Extend(run, Wake);
    run := Extend(run, Reconnect);
    run := Extend(run, Work(1));
    run := Extend(run, LeaveSpin);
    run := Extend(run, Decide);
  }

  /** Raising the flag after any return is not enough: raised once, after a refused
      request has returned, it stays up; the next request is approved, the replica
      thread does not stay parked, and RDMA is shut down while it works on a new
      connection. */
  lemma RaiseAfterRefusal() returns (run: seq<State>, k: nat)
    ensures Run(run, false) && k + 1 < |run|
    ensures run[k].caller == Idle && run[k].raised == 0 && run[k + 1] == Apply(run[k], Raise)
    ensures Last(run).raised == 1
    ensures Last(run).caller == ShuttingDown && Last(run).replica == Working && Last(run).connections == 1
  {
    hide Run;
    var first := Refused();
    k := |first| - 1;
    var second := Extend(first, Raise);
    run := ApprovedUnparked(second);
    assert run[k] == second[k] == first[k] && run[k + 1] == second[k + 1];
  }
}
