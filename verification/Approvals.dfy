/** The approval slot of the app shell: raised by requests, emptied by taps, cancels and a timeout worker. */
module Approvals {
  import opened Prelude

  const APPROVAL_TIMEOUT_MS: nat := 60_000

  datatype Decision = Approve | Reject | Timeout

  datatype Pending = Pending(id: nat, deadline: nat)

  /** What happened to approvals, in order. A withdrawn approval was never shown to the user. */
  datatype Event =
    | Raised(id: nat, at: nat)
    | Decided(id: nat, decision: Decision, at: nat)
    | Withdrawn(id: nat, at: nat)

  datatype Desk = Desk(slot: Option<Pending>, history: seq<Event>)

  const EMPTY: Desk := Desk(None, [])

  // ----- the operations -------------------------------------------------------

  /** Empty the slot, sending the decision to whoever waits on it. */
  function Take(d: Desk, decision: Decision, now: nat): Desk {
    if d.slot.None? then d else Desk(None, d.history + [Decided(d.slot.value.id, decision, now)])
  }

  /** A new approval takes the slot; one still pending is rejected. */
  function Raise(d: Desk, id: nat, now: nat): Desk {
    Desk(Some(Pending(id, now + APPROVAL_TIMEOUT_MS)), d.history + [Raised(id, now)] + Superseded(d, now))
  }

  function Superseded(d: Desk, now: nat): seq<Event> {
    if d.slot.None? then [] else [Decided(d.slot.value.id, Reject, now)]
  }

  /** The card could not be queued: take the approval back, if the slot still holds it. */
  function Withdraw(d: Desk, id: nat, now: nat): Desk {
    if d.slot.Some? && d.slot.value.id == id then Desk(None, d.history + [Withdrawn(id, now)]) else d
  }

  /** One pass of the timeout worker. */
  function WorkerPass(d: Desk, now: nat): Desk {
    if d.slot.Some? && now >= d.slot.value.deadline then Take(d, Timeout, now) else d
  }

  class ApprovalDesk {
    var slot: Option<Pending>
    var nextId: nat
    ghost var history: seq<Event>

    ghost function State(): Desk
      reads this
    {
      Desk(slot, history)
    }

    constructor ()
      ensures State() == EMPTY && nextId == 1
    {
      slot, nextId, history := None, 1, [];
    }

    method Send(id: nat, decision: Decision, now: nat)
      modifies this`history
      ensures history == old(history) + [Decided(id, decision, now)]
    {
      history := history + [Decided(id, decision, now)];
    }

    /** The synchronous part of `request`: a fresh id, the slot replaced, the old pending rejected. */
    method Request(now: nat) returns (id: nat)
      modifies this
      ensures id == old(nextId) && nextId == old(nextId) + 1
      ensures State() == Raise(old(State()), id, now)
    {
      id := nextId;
      nextId := nextId + 1;
      var replaced := slot;
      slot := Some(Pending(id, now + APPROVAL_TIMEOUT_MS));
      history := history + [Raised(id, now)];
      if replaced.Some? {
        Send(replaced.value.id, Reject, now);
      }
    }

    method ScheduleFailed(id: nat, now: nat)
      modifies this
      ensures State() == Withdraw(old(State()), id, now) && nextId == old(nextId)
    {
      if slot.Some? && slot.value.id == id {
        slot := None;
        history := history + [Withdrawn(id, now)];
      }
    }

    method OnApprove(now: nat)
      modifies this
      ensures State() == Take(old(State()), Approve, now) && nextId == old(nextId)
    {
      if slot.Some? {
        var pending := slot.value;
        slot := None;
        Send(pending.id, Approve, now);
      }
    }

    method OnReject(now: nat)
      modifies this
      ensures State() == Take(old(State()), Reject, now) && nextId == old(nextId)
    {
      if slot.Some? {
        var pending := slot.value;
        slot := None;
        Send(pending.id, Reject, now);
      }
    }

    method CancelPending(now: nat) returns (cancelled: bool)
      modifies this
      ensures State() == Take(old(State()), Reject, now) && nextId == old(nextId)
      ensures cancelled == old(slot).Some?
    {
      cancelled := slot.Some?;
      OnReject(now);
    }

    method TimeoutPass(now: nat) returns (timedOut: bool)
      modifies this
      ensures State() == WorkerPass(old(State()), now) && nextId == old(nextId)
      ensures timedOut <==> old(slot).Some? && now >= old(slot).value.deadline
    {
      timedOut := slot.Some? && now >= slot.value.deadline;
      if timedOut {
        var pending := slot.value;
        slot := None;
        Send(pending.id, Timeout, now);
      }
    }
  }

  // ----- every run ------------------------------------------------------------

  datatype Op =
    | DoRaise(id: nat, now: nat)
    | DoWithdraw(id: nat, now: nat)
    | DoTap(approve: bool, now: nat)
    | DoCancel(now: nat)
    | DoWorker(now: nat)

  function Apply(d: Desk, op: Op): Desk {
    match op
    case DoRaise(id, now) => Raise(d, id, now)
    case DoWithdraw(id, now) => Withdraw(d, id, now)
    case DoTap(approve, now) => Take(d, if approve then Approve else Reject, now)
    case DoCancel(now) => Take(d, Reject, now)
    case DoWorker(now) => WorkerPass(d, now)
  }

  ghost predicate WasRaised(history: seq<Event>, id: nat) {
    exists i :: 0 <= i < |history| && history[i].Raised? && history[i].id == id
  }

  ghost predicate WasSettled(history: seq<Event>, id: nat) {
    exists i :: 0 <= i < |history| && !history[i].Raised? && history[i].id == id
  }

  /** Ids come from a counter, so each is raised once. */
  ghost predicate Legal(d: Desk, op: Op) {
    op.DoRaise? ==> !WasRaised(d.history, op.id)
  }

  ghost predicate LegalRun(ops: seq<Op>) {
    forall n :: 0 <= n < |ops| ==> Legal(After(ops[..n]), ops[n])
  }

  function After(ops: seq<Op>): Desk {
    if ops == [] then EMPTY else Apply(After(ops[..|ops| - 1]), ops[|ops| - 1])
  }

  /** The j-th event, if it settles an approval, comes after its raising; a timeout a full period after. */
  ghost predicate SettledFairly(h: seq<Event>, j: nat)
    requires j < |h|
  {
    !h[j].Raised? ==> exists i :: 0 <= i < j && RaisedInTime(h[i], h[j])
  }

  predicate RaisedInTime(raised: Event, settled: Event) {
    && raised.Raised? && raised.id == settled.id
    && (settled.Decided? && settled.decision == Timeout ==> raised.at + APPROVAL_TIMEOUT_MS <= settled.at)
  }

  /** Each id is raised at most once, and settled (decided or withdrawn) at most once. */
  ghost predicate OncePerId(h: seq<Event>) {
    forall i, j {:trigger h[i], h[j]} :: 0 <= i < j < |h| && h[i].Raised? == h[j].Raised? ==> h[i].id != h[j].id
  }

  /** The raised approvals not settled yet are exactly `open`. */
  ghost predicate OpenAre(h: seq<Event>, open: set<nat>) {
    forall id :: id in open <==> WasRaised(h, id) && !WasSettled(h, id)
  }

  ghost predicate HistoryInvariant(h: seq<Event>, open: set<nat>) {
    OncePerId(h) && OpenAre(h, open) && forall j :: 0 <= j < |h| ==> SettledFairly(h, j)
  }

  function OpenOf(d: Desk): set<nat> {
    if d.slot.Some? then {d.slot.value.id} else {}
  }

  /** The deadline in the slot is a full period after the raising. */
  ghost predicate DeadlineSet(d: Desk) {
    d.slot.Some? ==>
      exists i :: 0 <= i < |d.history| && d.history[i].Raised? && d.history[i].id == d.slot.value.id
                  && d.history[i].at + APPROVAL_TIMEOUT_MS == d.slot.value.deadline
  }

  ghost predicate DeskInvariant(d: Desk) {
    HistoryInvariant(d.history, OpenOf(d)) && DeadlineSet(d)
  }

  lemma {:induction false} FairlyKept(h: seq<Event>, e: Event, j: nat)
    requires j < |h| && SettledFairly(h, j)
    ensures SettledFairly(h + [e], j)
  {
    if !h[j].Raised? {
      var i :| 0 <= i < j && RaisedInTime(h[i], h[j]);
      assert (h + [e])[i] == h[i] && (h + [e])[j] == h[j];
    }
  }

  lemma {:induction false} WasAppend(h: seq<Event>, e: Event, id: nat)
    ensures WasRaised(h + [e], id) <==> WasRaised(h, id) || (e.Raised? && e.id == id)
    ensures WasSettled(h + [e], id) <==> WasSettled(h, id) || (!e.Raised? && e.id == id)
  {
    var h' := h + [e];
    assert h'[|h|] == e;
    assert forall i :: 0 <= i < |h| ==> h'[i] == h[i];
    if WasRaised(h, id) {
      var i :| 0 <= i < |h| && h[i].Raised? && h[i].id == id;
      assert h'[i].Raised?;
    }
    if WasSettled(h, id) {
      var i :| 0 <= i < |h| && !h[i].Raised? && h[i].id == id;
      assert !h'[i].Raised?;
    }
  }

  lemma {:induction false} AppendRaised(h: seq<Event>, open: set<nat>, e: Event)
    requires HistoryInvariant(h, open) && e.Raised? && !WasRaised(h, e.id)
    ensures HistoryInvariant(h + [e], open + {e.id})
  {
    forall id ensures id in open + {e.id} <==> WasRaised(h + [e], id) && !WasSettled(h + [e], id) {
      WasAppend(h, e, id);
      if WasSettled(h, e.id) { SettledWasRaised(h, e.id); }
    }
    forall j | 0 <= j < |h + [e]| ensures SettledFairly(h + [e], j) {
      if j < |h| { FairlyKept(h, e, j); }
    }
  }

  lemma {:induction false} SettledWasRaised(h: seq<Event>, id: nat)
    requires WasSettled(h, id) && forall j :: 0 <= j < |h| ==> SettledFairly(h, j)
    ensures WasRaised(h, id)
  {
    var j :| 0 <= j < |h| && !h[j].Raised? && h[j].id == id;
    assert SettledFairly(h, j);
  }

  lemma {:induction false} AppendSettled(h: seq<Event>, open: set<nat>, e: Event)
    requires HistoryInvariant(h, open) && !e.Raised? && e.id in open
    requires exists i :: 0 <= i < |h| && RaisedInTime(h[i], e)
    ensures HistoryInvariant(h + [e], open - {e.id})
  {
    var h' := h + [e];
    forall id ensures id in open - {e.id} <==> WasRaised(h', id) && !WasSettled(h', id) {
      WasAppend(h, e, id);
    }
    forall j | 0 <= j < |h'| ensures SettledFairly(h', j) {
      if j < |h| {
        FairlyKept(h, e, j);
      } else {
        var i :| 0 <= i < |h| && RaisedInTime(h[i], e);
        assert h'[i] == h[i];
      }
    }
  }

  lemma {:induction false} TakeKeeps(d: Desk, decision: Decision, now: nat)
    requires DeskInvariant(d)
    requires decision == Timeout && d.slot.Some? ==> now >= d.slot.value.deadline
    ensures DeskInvariant(Take(d, decision, now))
  {
    if d.slot.Some? {
      var e := Decided(d.slot.value.id, decision, now);
      var i :| 0 <= i < |d.history| && d.history[i].Raised? && d.history[i].id == d.slot.value.id
               && d.history[i].at + APPROVAL_TIMEOUT_MS == d.slot.value.deadline;
      assert RaisedInTime(d.history[i], e);
      AppendSettled(d.history, OpenOf(d), e);
      assert OpenOf(d) - {e.id} == {};
    }
  }

  lemma {:induction false} RaiseKeeps(d: Desk, id: nat, now: nat)
    requires DeskInvariant(d) && !WasRaised(d.history, id)
    ensures DeskInvariant(Raise(d, id, now))
  {
    var e := Raised(id, now);
    var h := d.history + [e];
    AppendRaised(d.history, OpenOf(d), e);
    var after := Raise(d, id, now);
    if d.slot.Some? {
      var r := Decided(d.slot.value.id, Reject, now);
      assert d.slot.value.id in OpenOf(d);
      var i :| 0 <= i < |d.history| && d.history[i].Raised? && d.history[i].id == d.slot.value.id;
      assert h[i] == d.history[i] && RaisedInTime(h[i], r);
      AppendSettled(h, OpenOf(d) + {id}, r);
      assert OpenOf(d) + {id} - {r.id} == {id};
      assert after.history == h + [r];
    } else {
      assert after.history == h;
      assert OpenOf(d) + {id} == {id};
    }
    assert after.history[|d.history|] == e;
  }

  lemma {:induction false} WithdrawKeeps(d: Desk, id: nat, now: nat)
    requires DeskInvariant(d)
    ensures DeskInvariant(Withdraw(d, id, now))
  {
    if d.slot.Some? && d.slot.value.id == id {
      var e := Withdrawn(id, now);
      var i :| 0 <= i < |d.history| && d.history[i].Raised? && d.history[i].id == id;
      assert RaisedInTime(d.history[i], e);
      AppendSettled(d.history, OpenOf(d), e);
      assert OpenOf(d) - {id} == {};
    }
  }

  /**
   * In every run each approval is raised once and settled at most once, in that order and a timeout
   * never early, and the only one open is the one in the slot.
   */
  lemma {:induction false} DeskInvariantHolds(ops: seq<Op>)
    requires LegalRun(ops)
    ensures DeskInvariant(After(ops))
  {
    if ops == [] {
      assert forall id :: !WasRaised([], id);
    } else {
      var n := |ops| - 1;
      var before := ops[..n];
      assert forall m :: 0 <= m < n ==> before[..m] == ops[..m] && before[m] == ops[m];
      DeskInvariantHolds(before);
      ApplyKeeps(After(before), ops[n]);
    }
  }

  lemma {:induction false} ApplyKeeps(d: Desk, op: Op)
    requires DeskInvariant(d) && Legal(d, op)
    ensures DeskInvariant(Apply(d, op))
  {
    match op
    case DoRaise(id, now) => RaiseKeeps(d, id, now);
    case DoWithdraw(id, now) => WithdrawKeeps(d, id, now);
    case DoTap(approve, now) => TakeKeeps(d, if approve then Approve else Reject, now);
    case DoCancel(now) => TakeKeeps(d, Reject, now);
    case DoWorker(now) =>
      if d.slot.Some? && now >= d.slot.value.deadline { TakeKeeps(d, Timeout, now); }
  }

  lemma {:induction false} HistoryGrows(ops: seq<Op>, n: nat)
    requires n <= |ops|
    ensures After(ops[..n]).history <= After(ops).history
    decreases |ops| - n
  {
    if n < |ops| {
      var before := ops[..|ops| - 1];
      assert before[..n] == ops[..n];
      HistoryGrows(before, n);
      assert After(before).history <= Apply(After(before), ops[|ops| - 1]).history;
    } else {
      assert ops[..n] == ops;
    }
  }

  /** A raise that finds the slot taken rejects the approval it replaces. */
  lemma RaiseRejectsPending(d: Desk, id: nat, now: nat)
    requires d.slot.Some?
    ensures Raise(d, id, now).history == d.history + [Raised(id, now)] + [Decided(d.slot.value.id, Reject, now)]
  {
  }

  /**
   * In every run, an approval still open when another is raised is rejected then, and nothing else
   * ever settles it.
   */
  lemma {:induction false} SupersededIsRejected(ops: seq<Op>, n: nat, id: nat)
    requires LegalRun(ops) && n < |ops| && ops[n].DoRaise?
    requires var h := After(ops[..n]).history; WasRaised(h, id) && !WasSettled(h, id)
    ensures var h := After(ops).history;
            && WasSettled(h, id)
            && forall j :: 0 <= j < |h| && !h[j].Raised? && h[j].id == id ==> h[j] == Decided(id, Reject, ops[n].now)
  {
    var d := After(ops[..n]);
    RunPrefix(ops, n);
    DeskInvariantHolds(ops[..n]);
    assert id in OpenOf(d);
    RaiseRejectsPending(d, ops[n].id, ops[n].now);
    assert ops[..n + 1][..n] == ops[..n];
    HistoryGrows(ops, n + 1);
    DeskInvariantHolds(ops);
    assert After(ops).history[|d.history| + 1] == Decided(id, Reject, ops[n].now);
  }

  lemma {:induction false} RunPrefix(ops: seq<Op>, n: nat)
    requires LegalRun(ops) && n <= |ops|
    ensures LegalRun(ops[..n])
  {
    assert forall m :: 0 <= m < n ==> ops[..n][..m] == ops[..m] && ops[..n][m] == ops[m];
  }

  /** Every raising of the approval is a full period ago. */
  ghost predicate Due(h: seq<Event>, id: nat, now: nat) {
    forall i :: 0 <= i < |h| && h[i].Raised? && h[i].id == id ==> h[i].at + APPROVAL_TIMEOUT_MS <= now
  }

  /** A worker pass at or after an approval's deadline leaves it settled. */
  lemma {:induction false} WorkerDecidesOverdue(ops: seq<Op>, now: nat, id: nat)
    requires LegalRun(ops) && WasRaised(After(ops).history, id) && Due(After(ops).history, id, now)
    ensures WasSettled(WorkerPass(After(ops), now).history, id)
  {
    DeskInvariantHolds(ops);
    var d := After(ops);
    if d.slot.Some? && d.slot.value.id == id {
      assert now >= d.slot.value.deadline;
      WasAppend(d.history, Decided(id, Timeout, now), id);
    } else {
      assert id !in OpenOf(d);
      assert WasSettled(d.history, id);
      if WorkerPass(d, now) != d {
        WasAppend(d.history, Decided(d.slot.value.id, Timeout, now), id);
      }
    }
  }
}
