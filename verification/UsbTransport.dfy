/** The pending-RPC table of the WebUSB transport. */
module UsbTransport {
  import opened Prelude

  datatype Outcome = Replied | TimedOut | Overflowed | ReadFailed | WriteFailed | Disconnected | ProbeFailed

  datatype Settlement = Settlement(id: nat, outcome: Outcome)

  /** Ids awaiting a reply in insertion order, and every settlement so far. */
  datatype State = State(connected: bool, tearingDown: bool, pending: seq<nat>, settled: seq<Settlement>)

  const START: State := State(false, false, [], [])

  datatype Step =
    | Opened                        // an interface was claimed
    | Issue(id: nat)                // a new RPC, under a fresh random id
    | Reply(id: nat)
    | TimeOut(id: nat)
    | Overflow                      // an over-long line
    | ReadError
    | WriteError(id: nat)
    | Disconnect                    // the disconnect event, or disconnect()
    | TornDown                      // the asynchronous release and close are over
    | ProbeError

  function Without(ids: seq<nat>, id: nat): (rest: seq<nat>)
    ensures forall x :: x in rest <==> x in ids && x != id
  {
    if ids == [] then []
    else (if ids[0] == id then [] else [ids[0]]) + Without(ids[1..], id)
  }

  function SettleOne(s: State, id: nat, outcome: Outcome): State {
    if id in s.pending then
      s.(pending := Without(s.pending, id), settled := s.settled + [Settlement(id, outcome)])
    else s
  }

  function Settlements(ids: seq<nat>, outcome: Outcome): seq<Settlement> {
    seq(|ids|, i requires 0 <= i < |ids| => Settlement(ids[i], outcome))
  }

  function SettleAll(s: State, outcome: Outcome): State {
    s.(pending := [], settled := s.settled + Settlements(s.pending, outcome))
  }

  /** A teardown while another is still closing the device only waits for it. */
  function TearDown(s: State): State {
    if s.tearingDown then s
    else SettleAll(s, Disconnected).(connected := false, tearingDown := true)
  }

  predicate Enabled(s: State, step: Step) {
    match step
    case Issue(id) => s.connected && id !in s.pending && forall i :: 0 <= i < |s.settled| ==> s.settled[i].id != id
    case TornDown => s.tearingDown
    case _ => true
  }

  function Next(s: State, step: Step): State {
    match step
    case Opened => s.(connected := true)
    case Issue(id) => s.(pending := s.pending + [id])
    case Reply(id) => SettleOne(s, id, Replied)
    case TimeOut(id) => SettleOne(s, id, TimedOut)
    case Overflow => TearDown(SettleAll(s, Overflowed))
    case ReadError => TearDown(SettleAll(s, ReadFailed))
    case WriteError(id) => TearDown(SettleOne(s, id, WriteFailed))
    case Disconnect => TearDown(s)
    case TornDown => s.(tearingDown := false)
    case ProbeError => SettleAll(s, ProbeFailed).(connected := false)
  }

  /** The transport object. */
  class WebUsbTransport {
    var connected: bool
    var tearingDown: bool
    var pending: seq<nat>
    ghost var settled: seq<Settlement>

    ghost function Fields(): State
      reads this
    {
      State(connected, tearingDown, pending, settled)
    }

    constructor ()
      ensures Fields() == START
    {
      connected, tearingDown, pending, settled := false, false, [], [];
    }

    /** False if there is no device to talk to. */
    method RawRpc(id: nat) returns (issued: bool)
      modifies this
      ensures issued == old(connected)
      ensures Fields() == if issued then Next(old(Fields()), Issue(id)) else old(Fields())
    {
      if !connected {
        return false;
      }
      pending := pending + [id];
      return true;
    }

    method SettleById(id: nat, outcome: Outcome)
      modifies this
      ensures Fields() == SettleOne(old(Fields()), id, outcome)
    {
      if id in pending {
        pending := Without(pending, id);
        settled := settled + [Settlement(id, outcome)];
      }
    }

    method RejectAll(outcome: Outcome)
      modifies this
      ensures Fields() == SettleAll(old(Fields()), outcome)
    {
      for i := 0 to |pending|
        invariant pending == old(pending) && connected == old(connected) && tearingDown == old(tearingDown)
        invariant settled == old(settled) + Settlements(pending[..i], outcome)
      {
        assert Settlements(pending[..i + 1], outcome)
            == Settlements(pending[..i], outcome) + [Settlement(pending[i], outcome)];
        settled := settled + [Settlement(pending[i], outcome)];
      }
      assert pending[..|pending|] == pending;
      pending := [];
    }

    method TearDownNow()
      modifies this
      ensures Fields() == TearDown(old(Fields()))
    {
      if tearingDown {
        return;
      }
      connected := false;
      RejectAll(Disconnected);
      tearingDown := true;
    }

    method OnOverflow()
      modifies this
      ensures Fields() == Next(old(Fields()), Overflow)
    {
      RejectAll(Overflowed);
      TearDownNow();
    }

    method OnReadError()
      modifies this
      ensures Fields() == Next(old(Fields()), ReadError)
    {
      RejectAll(ReadFailed);
      TearDownNow();
    }

    method OnWriteError(id: nat)
      modifies this
      ensures Fields() == Next(old(Fields()), WriteError(id))
    {
      SettleById(id, WriteFailed);
      TearDownNow();
    }
  }

  // ----- every run ------------------------------------------------------------

  function After(steps: seq<Step>): State {
    if steps == [] then START else Next(After(steps[..|steps| - 1]), steps[|steps| - 1])
  }

  ghost predicate Legal(steps: seq<Step>) {
    forall n :: 0 <= n < |steps| ==> Enabled(After(steps[..n]), steps[n])
  }

  /** The ids of the RPCs issued so far. */
  function Issued(steps: seq<Step>): set<nat> {
    if steps == [] then {}
    else
      var last := steps[|steps| - 1];
      Issued(steps[..|steps| - 1]) + if last.Issue? then {last.id} else {}
  }

  ghost predicate Distinct(ids: seq<nat>) {
    forall i, j {:trigger ids[i], ids[j]} :: 0 <= i < j < |ids| ==> ids[i] != ids[j]
  }

  ghost predicate SettledOnce(s: State) {
    && (forall i, j {:trigger s.settled[i], s.settled[j]} :: 0 <= i < j < |s.settled| ==>
          s.settled[i].id != s.settled[j].id)
    && Distinct(s.pending)
    && (forall i :: 0 <= i < |s.settled| ==> s.settled[i].id !in s.pending)
  }

  function SettledIds(s: State): set<nat> {
    set x | x in s.settled :: x.id
  }

  lemma {:induction false} WithoutDistinct(ids: seq<nat>, id: nat)
    requires Distinct(ids)
    ensures Distinct(Without(ids, id))
  {
    if ids != [] {
      var tail := Without(ids[1..], id);
      WithoutDistinct(ids[1..], id);
      assert ids[0] !in ids[1..];
      assert forall j :: 0 <= j < |tail| ==> tail[j] in tail;
    }
  }

  lemma {:induction false} SettleOneKeeps(s: State, id: nat, outcome: Outcome)
    requires SettledOnce(s)
    ensures var s' := SettleOne(s, id, outcome);
            && SettledOnce(s')
            && SettledIds(s') + (set x | x in s'.pending) == SettledIds(s) + (set x | x in s.pending)
  {
    WithoutDistinct(s.pending, id);
    var s' := SettleOne(s, id, outcome);
    if id in s.pending {
      assert SettledIds(s') == SettledIds(s) + {id} by {
        assert Settlement(id, outcome) in s'.settled;
      }
    }
  }

  lemma {:induction false} SettleAllKeeps(s: State, outcome: Outcome)
    requires SettledOnce(s)
    ensures var s' := SettleAll(s, outcome);
            && SettledOnce(s') && s'.pending == []
            && SettledIds(s') == SettledIds(s) + (set x | x in s.pending)
  {
    var s' := SettleAll(s, outcome);
    var n := |s.settled|;
    forall i, j | 0 <= i < j < |s'.settled| ensures s'.settled[i].id != s'.settled[j].id {
      if i < n <= j { assert s.settled[i].id !in s.pending; }
    }
    forall id | id in s.pending ensures id in SettledIds(s') {
      var i :| 0 <= i < |s.pending| && s.pending[i] == id;
      assert s'.settled[n + i] == Settlement(id, outcome);
    }
    forall id | id in SettledIds(s) ensures id in SettledIds(s') {
      var x :| x in s.settled && x.id == id;
      assert x in s'.settled;
    }
  }

  lemma {:induction false} TearDownKeeps(s: State)
    requires SettledOnce(s)
    ensures SettledOnce(TearDown(s))
    ensures SettledIds(TearDown(s)) + (set x | x in TearDown(s).pending) == SettledIds(s) + (set x | x in s.pending)
  {
    SettleAllKeeps(s, Disconnected);
  }

  /** In every run each RPC issued is still pending or was settled exactly once, however it ended. */
  lemma {:induction false} EveryRpcSettledOnce(steps: seq<Step>)
    requires Legal(steps)
    ensures var s := After(steps);
            && SettledOnce(s)
            && SettledIds(s) + (set x | x in s.pending) == Issued(steps)
            && SettledIds(s) !! (set x | x in s.pending)
  {
    if steps != [] {
      var n := |steps| - 1;
      var before := steps[..n];
      assert forall m :: 0 <= m < n ==> before[..m] == steps[..m] && before[m] == steps[m];
      EveryRpcSettledOnce(before);
      StepKeeps(After(before), steps[n]);
    }
  }

  lemma {:induction false} StepKeeps(s: State, step: Step)
    requires SettledOnce(s) && Enabled(s, step)
    ensures var s' := Next(s, step);
            && SettledOnce(s')
            && SettledIds(s') + (set x | x in s'.pending)
               == SettledIds(s) + (set x | x in s.pending) + (if step.Issue? then {step.id} else {})
  {
    match step
    case Issue(id) => assert Next(s, step).pending == s.pending + [id];
    case Reply(id) => SettleOneKeeps(s, id, Replied);
    case TimeOut(id) => SettleOneKeeps(s, id, TimedOut);
    case Overflow => SettleAllKeeps(s, Overflowed); TearDownKeeps(SettleAll(s, Overflowed));
    case ReadError => SettleAllKeeps(s, ReadFailed); TearDownKeeps(SettleAll(s, ReadFailed));
    case WriteError(id) => SettleOneKeeps(s, id, WriteFailed); TearDownKeeps(SettleOne(s, id, WriteFailed));
    case Disconnect => TearDownKeeps(s);
    case ProbeError => SettleAllKeeps(s, ProbeFailed);
    case _ =>
  }

  /** The steps that settle a pending RPC, and how. */
  ghost predicate Settles(s: State, step: Step, id: nat, outcome: Outcome) {
    && id in s.pending
    && match outcome
       case Replied => step == Reply(id)
       case TimedOut => step == TimeOut(id)
       case WriteFailed => step == WriteError(id)
       case Overflowed => step == Overflow
       case ReadFailed => step == ReadError
       case ProbeFailed => step == ProbeError
       case Disconnected => !s.tearingDown && (step == Disconnect || (step.WriteError? && step.id != id))
  }

  /**
   * A step settles an RPC just so: it appends that settlement and takes the id off the table; what was
   * settled before stays, and what no step settles stays pending.
   */
  lemma {:induction false} StepSettles(s: State, step: Step, id: nat, outcome: Outcome)
    requires SettledOnce(s) && Enabled(s, step)
    ensures var s' := Next(s, step);
            && s.settled <= s'.settled
            && (Settles(s, step, id, outcome) <==>
                  exists i :: |s.settled| <= i < |s'.settled| && s'.settled[i] == Settlement(id, outcome))
            && (Settles(s, step, id, outcome) ==> id !in s'.pending)
  {
    match step
    case Reply(other) => SettlesOne(s, other, Replied, id, outcome);
    case TimeOut(other) => SettlesOne(s, other, TimedOut, id, outcome);
    case WriteError(other) =>
      var s1 := SettleOne(s, other, WriteFailed);
      SettlesOne(s, other, WriteFailed, id, outcome);
      SettlesAll(s1, Disconnected, id, outcome);
      assert Next(s, step) == TearDown(s1);
      Later(s.settled, s1.settled, Next(s, step).settled, Settlement(id, outcome));
    case Overflow =>
      SettlesAll(s, Overflowed, id, outcome);
      EmptyTearDown(SettleAll(s, Overflowed));
    case ReadError =>
      SettlesAll(s, ReadFailed, id, outcome);
      EmptyTearDown(SettleAll(s, ReadFailed));
    case Disconnect => SettlesAll(s, Disconnected, id, outcome);
    case ProbeError => SettlesAll(s, ProbeFailed, id, outcome);
    case _ =>
  }

  ghost predicate Added(before: seq<Settlement>, after: seq<Settlement>, x: Settlement) {
    exists i :: |before| <= i < |after| && after[i] == x
  }

  lemma {:induction false} SettlesOne(s: State, other: nat, how: Outcome, id: nat, outcome: Outcome)
    ensures var s' := SettleOne(s, other, how);
            && s.settled <= s'.settled && s'.tearingDown == s.tearingDown
            && (Added(s.settled, s'.settled, Settlement(id, outcome)) <==>
                  id in s.pending && id == other && outcome == how)
            && (id in s'.pending <==> id in s.pending && id != other)
  {
    if other in s.pending {
      assert SettleOne(s, other, how).settled[|s.settled|] == Settlement(other, how);
    }
  }

  lemma {:induction false} SettlesAll(s: State, how: Outcome, id: nat, outcome: Outcome)
    ensures var s' := SettleAll(s, how);
            && s.settled <= s'.settled && s'.pending == []
            && (Added(s.settled, s'.settled, Settlement(id, outcome)) <==> id in s.pending && outcome == how)
  {
    var s' := SettleAll(s, how);
    assert forall i :: 0 <= i < |s.pending| ==> s'.settled[|s.settled| + i] == Settlement(s.pending[i], how);
    if id in s.pending {
      var i :| 0 <= i < |s.pending| && s.pending[i] == id;
      assert s'.settled[|s.settled| + i] == Settlement(id, how);
    }
  }

  /** With nothing pending a teardown settles nothing. */
  lemma EmptyTearDown(s: State)
    requires s.pending == []
    ensures TearDown(s).settled == s.settled && TearDown(s).pending == []
  {
  }

  lemma Later(a: seq<Settlement>, b: seq<Settlement>, c: seq<Settlement>, x: Settlement)
    requires a <= b <= c
    ensures Added(a, c, x) <==> Added(a, b, x) || Added(b, c, x)
  {
    if Added(a, b, x) {
      var i :| |a| <= i < |b| && b[i] == x;
      assert c[i] == x;
    }
  }

  /** In every run an RPC was settled as it was because a step of that kind found it pending. */
  lemma {:induction false} SettledFor(steps: seq<Step>, id: nat, outcome: Outcome)
    requires Legal(steps) && Settlement(id, outcome) in After(steps).settled
    ensures exists n :: 0 <= n < |steps| && Settles(After(steps[..n]), steps[n], id, outcome)
  {
    var n := |steps| - 1;
    var before := steps[..n];
    assert forall m :: 0 <= m < n ==> before[..m] == steps[..m] && before[m] == steps[m];
    EveryRpcSettledOnce(before);
    StepSettles(After(before), steps[n], id, outcome);
    if !Settles(After(before), steps[n], id, outcome) {
      var i :| 0 <= i < |After(steps).settled| && After(steps).settled[i] == Settlement(id, outcome);
      assert After(before).settled[i] == Settlement(id, outcome);
      SettledFor(before, id, outcome);
    }
  }

  /** There is a device to talk to from its opening until the first failure, and again after a new opening. */
  lemma ConnectedAfter(s: State, step: Step)
    ensures Next(s, step).connected <==>
              step == Opened
              || (s.connected && (step.Issue? || step.Reply? || step.TimeOut? || step == TornDown))
              || (s.connected && s.tearingDown
                  && (step == Overflow || step == ReadError || step.WriteError? || step == Disconnect))
    ensures Next(s, step).tearingDown <==>
              step == Overflow || step == ReadError || step.WriteError? || step == Disconnect
              || (s.tearingDown && step != TornDown)
  {
  }

  /**
   * A teardown leaves no RPC pending exactly when none was pending or no earlier teardown is still
   * closing the device; RPCs issued after a reconnect in that window are left to their timeouts.
   */
  lemma TearDownEmptiesExactly(s: State)
    ensures TearDown(s).pending == [] <==> s.pending == [] || !s.tearingDown
  {
  }

  /** The window is reachable: tear down, reconnect before the close is over, issue, disconnect. */
  lemma {:induction false} TearDownCanLeavePending(id: nat)
    ensures var steps := [Opened, Disconnect, Opened, Issue(id), Disconnect];
            Legal(steps) && After(steps).pending == [id]
  {
    var steps := [Opened, Disconnect, Opened, Issue(id), Disconnect];
    assert After(steps[..0]) == START;
    assert steps[..1][..0] == steps[..0] && After(steps[..1]) == State(true, false, [], []);
    assert steps[..2][..1] == steps[..1] && After(steps[..2]) == State(false, true, [], []);
    assert steps[..3][..2] == steps[..2] && After(steps[..3]) == State(true, true, [], []);
    assert steps[..4][..3] == steps[..3] && After(steps[..4]) == State(true, true, [id], []);
    assert steps[..4] == steps[..|steps| - 1];
    forall n | 0 <= n < |steps| ensures Enabled(After(steps[..n]), steps[n]) {
      assert n == 0 || n == 1 || n == 2 || n == 3 || n == 4;
    }
  }
}
