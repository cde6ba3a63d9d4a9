/**
 * The extension's FIFO of RPCs, its session key and its nonce counter, with any number of actions at
 * once, together with the device's gate. Actions interleave wherever the source awaits.
 */
module HostChain {
  import opened Prelude
  import Hex
  import opened Records
  import Sessions
  import opened Engine

  datatype Call =
    | Establish(action: nat, hostSecret: nat)
    | Nonced(action: nat, nonce: u64)

  /** Where an action is between two of its turns. */
  datatype Phase =
    | Preparing    // in ensureSession without a key, generating a key pair
    | KeyMade      // exporting its public key
    | Waiting      // the handshake call is chained or in flight
    | Replied      // the device's public key has arrived
    | Derived      // past deriveBits, importing the session key
    | Through      // past ensureSession, about to seal a password
    | Armed        // past its last look at the session key, about to number its request
    | Called       // the numbered request is chained or in flight
    | Over

  /** `seals`: the action seals a password between ensureSession and its request. */
  datatype Action = Action(seals: bool, phase: Phase)

  /** The extension's module variables and actions, the cable, and the device's session. */
  datatype State = State(
    hasKey: bool,               // sessionKey is set
    hostKey: bool,              // hostPrivateKey is set
    requestNonce: nat,
    actions: map<nat, Action>,
    queue: seq<Call>,           // chained behind the RPC in flight
    inFlight: Option<Call>,
    wire: seq<Call>,            // written, not yet handled by the device
    answered: bool,             // the device has answered the call in flight without an error
    device: Sessions.Data,
    handled: seq<(Call, Option<ErrorCode>)>)

  datatype Step =
    | Begin(action: nat, seals: bool)
    | MakeKey(action: nat)
    | CallEstablish(action: nat, hostSecret: nat)
    | Derive(action: nat)
    | Install(action: nat)                         // sessionKey and requestNonce, in one turn
    | Seal(action: nat)
    | Number(action: nat)                          // ++requestNonce and rpc(), in one turn
    | Fail(action: nat)                            // anything thrown between calls
    | Dispatch
    | Handle(secret: nat, now: u64)
    | Lose                                         // a written line never reaches the device
    | Settle(ok: bool)                             // reply, error or timeout of the RPC in flight
    | Reset

  predicate At(s: State, action: nat, phase: Phase) {
    action in s.actions && s.actions[action].phase == phase
  }

  predicate Enabled(s: State, step: Step) {
    match step
    case Begin(a, _) => a !in s.actions
    case MakeKey(a) => At(s, a, Preparing)
    case CallEstablish(a, _) => At(s, a, KeyMade)
    case Derive(a) => At(s, a, Replied) && s.hostKey
    case Install(a) => At(s, a, Derived)
    case Seal(a) => At(s, a, Through) && s.hasKey
    case Number(a) => At(s, a, Armed) && s.requestNonce < U64_MAX
    case Fail(a) =>
      a in s.actions && !s.actions[a].phase.Waiting? && !s.actions[a].phase.Called?
    case Dispatch => s.inFlight == None && s.queue != []
    case Handle(_, _) => s.wire != []
    case Lose => s.wire != []
    case Settle(ok) => s.inFlight.Some? && s.inFlight.value.action in s.actions && (ok ==> s.answered)
    case Reset => true
  }

  function Handled(d: Sessions.Data, env: Env, c: Call, secret: nat, now: u64): (Sessions.Data, Option<ErrorCode>) {
    match c
    case Establish(_, hostSecret) =>
      var a := Sessions.Accept(d, env.suite, Hex.Encode(env.suite.curve.public(hostSecret)), secret, now);
      (a.data, if a.reply.Ok? then None else Some(MapSessionError(a.reply.error)))
    case Nonced(_, nonce) =>
      var g := GateSession(d, nonce, now, env.idleMs);
      (g.session, if g.result.Ok? then None else Some(g.result.error))
  }

  /** Where an action goes on once a session key is there. */
  function PastSession(seals: bool): Phase {
    if seals then Through else Armed
  }

  function Put(s: State, action: nat, phase: Phase): State
    requires action in s.actions
  {
    s.(actions := s.actions[action := s.actions[action].(phase := phase)])
  }

  function Next(s: State, env: Env, step: Step): State
    requires Enabled(s, step)
  {
    match step
    case Begin(a, seals) =>
      s.(actions := s.actions[a := Action(seals, if s.hasKey then PastSession(seals) else Preparing)])
    case MakeKey(a) => Put(s, a, KeyMade).(hostKey := true)
    case CallEstablish(a, hostSecret) => Put(s, a, Waiting).(queue := s.queue + [Establish(a, hostSecret)])
    case Derive(a) => Put(s, a, Derived)
    case Install(a) => Put(s, a, PastSession(s.actions[a].seals)).(hasKey := true, requestNonce := 0)
    case Seal(a) => Put(s, a, Armed)
    case Number(a) =>
      Put(s, a, Called).(requestNonce := s.requestNonce + 1, queue := s.queue + [Nonced(a, s.requestNonce + 1)])
    case Fail(a) => Put(s, a, Over)
    case Dispatch => s.(queue := s.queue[1..], inFlight := Some(s.queue[0]), wire := s.wire + [s.queue[0]],
                       answered := false)
    case Handle(secret, now) =>
      var h := Handled(s.device, env, s.wire[0], secret, now);
      // the call in flight was written last, so it is the one handled when the wire runs empty
      s.(wire := s.wire[1..], device := h.0, handled := s.handled + [(s.wire[0], h.1)],
         answered := if s.inFlight.Some? && |s.wire| == 1 then h.1 == None else s.answered)
    case Lose => s.(wire := s.wire[1..])
    case Settle(ok) =>
      var c := s.inFlight.value;
      Put(s, c.action, if ok && c.Establish? then Replied else Over).(inFlight := None, answered := false)
    case Reset => s.(hasKey := false, hostKey := false, requestNonce := 0)
  }

  const START: State := State(false, false, 0, map[], [], None, [], false, Sessions.FRESH, [])

  /** The extension's module variables as an object; the chain is a queue of calls. */
  class Background {
    var hasKey: bool
    var hostKey: bool
    var requestNonce: nat
    var queue: seq<Call>

    predicate Holds(s: State)
      reads this
    {
      hasKey == s.hasKey && hostKey == s.hostKey && requestNonce == s.requestNonce && queue == s.queue
    }

    constructor ()
      ensures Holds(START)
    {
      hasKey, hostKey, requestNonce, queue := false, false, 0, [];
    }

    method ResetSession(ghost s: State, ghost env: Env)
      requires Holds(s)
      modifies this
      ensures Holds(Next(s, env, Reset))
    {
      hasKey, hostKey, requestNonce := false, false, 0;
    }

    method Rpc(call: Call)
      modifies this`queue
      ensures queue == old(queue) + [call]
    {
      queue := queue + [call];
    }

    /** The start of `ensureSession`: whether the action can go on at once. */
    method EnsureSession(a: nat, seals: bool, ghost s: State, ghost env: Env) returns (through: bool)
      requires Holds(s) && Enabled(s, Begin(a, seals))
      ensures Holds(Next(s, env, Begin(a, seals)))
      ensures through <==> At(Next(s, env, Begin(a, seals)), a, PastSession(seals))
    {
      through := hasKey;
    }

    method KeyPairMade(a: nat, ghost s: State, ghost env: Env)
      requires Holds(s) && Enabled(s, MakeKey(a))
      modifies this
      ensures Holds(Next(s, env, MakeKey(a)))
    {
      hostKey := true;
    }

    method CallDevice(a: nat, hostSecret: nat, ghost s: State, ghost env: Env)
      requires Holds(s) && Enabled(s, CallEstablish(a, hostSecret))
      modifies this
      ensures Holds(Next(s, env, CallEstablish(a, hostSecret)))
    {
      Rpc(Establish(a, hostSecret));
    }

    /** The end of `ensureSession`: the derived key is installed and the counter restarts. */
    method SessionEstablished(a: nat, ghost s: State, ghost env: Env)
      requires Holds(s) && Enabled(s, Install(a))
      modifies this
      ensures Holds(Next(s, env, Install(a)))
    {
      hasKey, requestNonce := true, 0;
    }

    /** Whatever has become of the session key since the action last looked at it. */
    method CallWithNonce(a: nat, ghost s: State, ghost env: Env)
      requires Holds(s) && Enabled(s, Number(a))
      modifies this
      ensures Holds(Next(s, env, Number(a)))
    {
      requestNonce := requestNonce + 1;
      Rpc(Nonced(a, requestNonce));
    }

    method TakeNext(ghost s: State, ghost env: Env) returns (call: Call)
      requires Holds(s) && Enabled(s, Dispatch)
      modifies this
      ensures Holds(Next(s, env, Dispatch)) && Next(s, env, Dispatch).inFlight == Some(call)
    {
      call := queue[0];
      queue := queue[1..];
    }
  }

  // ----- when the nonce order is at risk ---------------------------------------

  predicate Handshaking(p: Phase) {
    p.Preparing? || p.KeyMade? || p.Waiting? || p.Replied? || p.Derived?
  }

  /** The call in flight was lost or refused: only its error or timeout is to come. */
  predicate Stuck(s: State) {
    s.inFlight.Some? && s.wire == [] && !s.answered
  }

  /** A handshake that may still succeed. */
  predicate Live(s: State, action: nat) {
    && action in s.actions && Handshaking(s.actions[action].phase)
    && !(Stuck(s) && s.inFlight.value.action == action)
  }

  /**
   * What endangers the order: beginning a handshake while another may still succeed, and resetting the
   * session while an action is past its last look at the key and its request not yet numbered.
   */
  predicate Hazard(s: State, step: Step) {
    match step
    case Begin(_, _) => !s.hasKey && exists a :: a in s.actions && Live(s, a)
    case Reset => exists a :: a in s.actions && s.actions[a].phase.Armed?
    case _ => false
  }

  ghost predicate IsRun(env: Env, steps: seq<Step>, trace: seq<State>) {
    && |trace| == |steps| + 1 && trace[0] == START
    && forall i :: 0 <= i < |steps| ==> Enabled(trace[i], steps[i]) && trace[i + 1] == Next(trace[i], env, steps[i])
  }

  /** A reset forgets both keys and the count: no waiting handshake can derive a key, no action seal. */
  lemma ResetForgets(s: State, env: Env, a: nat)
    ensures var s' := Next(s, env, Reset);
            && !s'.hasKey && s'.requestNonce == 0 && !Enabled(s', Derive(a)) && !Enabled(s', Seal(a))
            && s'.actions == s.actions && s'.queue == s.queue && s'.inFlight == s.inFlight && s'.wire == s.wire
  {
  }

  predicate NoReuse(handled: seq<(Call, Option<ErrorCode>)>) {
    forall i :: 0 <= i < |handled| ==> handled[i].1 != Some(NonceReused)
  }

  // ----- what keeps the order --------------------------------------------------

  /** The RPC in flight and those behind it. */
  function Pending(s: State): seq<Call> {
    (if s.inFlight.Some? then [s.inFlight.value] else []) + s.queue
  }

  predicate Matches(actions: map<nat, Action>, c: Call) {
    c.action in actions && actions[c.action].phase == (if c.Establish? then Waiting else Called)
  }

  /** Each pending call is its action's only one, and an action that waits has one pending. */
  ghost predicate Owned(actions: map<nat, Action>, pending: seq<Call>) {
    && (forall i :: 0 <= i < |pending| ==> Matches(actions, pending[i]))
    && (forall i, j {:trigger pending[i], pending[j]} ::
          0 <= i < j < |pending| ==> pending[i].action != pending[j].action)
    && (forall a :: a in actions && actions[a].phase.Waiting? ==>
          exists i :: 0 <= i < |pending| && pending[i].action == a)
  }

  /** Numbered requests on their way in ascending order above the device's last nonce, then handshakes. */
  ghost predicate Ascending(line: seq<Call>, low: int) {
    && (forall i :: 0 <= i < |line| && line[i].Nonced? ==> low < line[i].nonce)
    && (forall i, j {:trigger line[i], line[j]} :: 0 <= i < j < |line| && line[j].Nonced? ==>
          line[i].Nonced? && line[i].nonce < line[j].nonce)
  }

  ghost predicate Exclusive(s: State) {
    && (forall a, b :: Live(s, a) && Live(s, b) ==> a == b)
    && (forall a :: a in s.actions && s.actions[a].phase.Armed? ==> s.hasKey)
    && (forall a :: a in s.actions && Handshaking(s.actions[a].phase) ==> !s.hasKey)
  }

  ghost predicate Cabled(s: State) {
    && (s.answered ==> s.inFlight.Some? && s.wire == [])
    && (s.inFlight.Some? && s.wire != [] ==> s.wire[|s.wire| - 1] == s.inFlight.value)
    && (s.answered && s.inFlight.value.Establish? ==> s.device.lastNonce == 0)
    && (forall a :: a in s.actions && (s.actions[a].phase.Replied? || s.actions[a].phase.Derived?) ==>
          s.inFlight == None && s.wire == [] && s.queue == [] && s.device.lastNonce == 0)
  }

  ghost predicate Ordered(s: State) {
    && Ascending(s.wire + s.queue, s.device.lastNonce)
    && (s.inFlight.Some? && s.inFlight.value.Establish? ==> forall i :: 0 <= i < |s.queue| ==> s.queue[i].Establish?)
    && (s.hasKey ==> s.device.lastNonce <= s.requestNonce
                     && forall i :: 0 <= i < |s.wire + s.queue| ==>
                          (s.wire + s.queue)[i].Nonced? && (s.wire + s.queue)[i].nonce <= s.requestNonce)
  }

  ghost predicate Inv(s: State) {
    Owned(s.actions, Pending(s)) && Exclusive(s) && Cabled(s) && Ordered(s)
  }

  /** Steps of one action that make no call. */
  predicate Local(step: Step) {
    step.Begin? || step.MakeKey? || step.Derive? || step.Install? || step.Seal? || step.Fail?
  }

  lemma {:induction false} LocalKeeps(s: State, env: Env, step: Step)
    requires Inv(s) && Enabled(s, step) && Local(step) && !Hazard(s, step)
    ensures Inv(Next(s, env, step))
  {
    LocalOwned(s, env, step);
    LocalExclusive(s, env, step);
    assert forall a :: a in s.actions && a != step.action ==> Next(s, env, step).actions[a] == s.actions[a];
  }

  /** The action of the RPC in flight is waiting for it. */
  lemma {:induction false} InFlightMatches(s: State)
    requires Inv(s) && s.inFlight.Some?
    ensures Matches(s.actions, s.inFlight.value)
  {
    assert Pending(s)[0] == s.inFlight.value;
  }

  /** An action that begins without hazard finds no live handshake. */
  lemma NoneLive(s: State, step: Step)
    requires Inv(s) && step.Begin? && !Hazard(s, step)
    ensures forall a :: !Live(s, a)
  {
  }

  lemma {:induction false} LocalExclusive(s: State, env: Env, step: Step)
    requires Inv(s) && Enabled(s, step) && Local(step) && !Hazard(s, step)
    ensures Exclusive(Next(s, env, step))
  {
    var s' := Next(s, env, step);
    assert forall a :: a in s.actions && a != step.action ==> s'.actions[a] == s.actions[a];
    if s.inFlight.Some? { InFlightMatches(s); }
    if step.Begin? { NoneLive(s, step); }
    assert forall a :: Live(s', a) && a != step.action ==> Live(s, a);
    assert !step.Begin? && Live(s', step.action) ==> Live(s, step.action);
    if step.Install? { OnlyHandshake(s, step.action); }
  }

  /** Once a key is derived no other handshake is under way. */
  lemma {:induction false} OnlyHandshake(s: State, b: nat)
    requires Inv(s) && At(s, b, Derived)
    ensures forall a :: a in s.actions && a != b ==> !Handshaking(s.actions[a].phase)
  {
    assert Live(s, b);
    assert forall a :: a in s.actions && Handshaking(s.actions[a].phase) ==> Live(s, a);
  }

  lemma LocalOwned(s: State, env: Env, step: Step)
    requires Inv(s) && Enabled(s, step) && Local(step)
    ensures Owned(Next(s, env, step).actions, Pending(s))
  {
    var s' := Next(s, env, step);
    forall i | 0 <= i < |Pending(s)| ensures Matches(s'.actions, Pending(s)[i]) {
      assert Matches(s.actions, Pending(s)[i]);
    }
  }

  /** One more call at the end of the chain. */
  lemma {:induction false} OwnedSnoc(actions: map<nat, Action>, pending: seq<Call>, c: Call, to: Action)
    requires Owned(actions, pending) && c.action in actions
    requires !actions[c.action].phase.Waiting? && !actions[c.action].phase.Called?
    requires Matches(actions[c.action := to], c)
    ensures Owned(actions[c.action := to], pending + [c])
  {
    var actions', more := actions[c.action := to], pending + [c];
    forall i | 0 <= i < |more| ensures Matches(actions', more[i]) {
      if i < |pending| { assert Matches(actions, pending[i]); }
    }
    forall a | a in actions' && actions'[a].phase.Waiting?
      ensures exists i :: 0 <= i < |more| && more[i].action == a
    {
      if a == c.action {
        assert more[|pending|].action == a;
      } else {
        var i :| 0 <= i < |pending| && pending[i].action == a;
        assert more[i].action == a;
      }
    }
  }

  /** The first call settled; its action does not wait any more. */
  lemma OwnedTail(actions: map<nat, Action>, pending: seq<Call>, to: Action)
    requires Owned(actions, pending) && pending != [] && !to.phase.Waiting? && !to.phase.Called?
    ensures Owned(actions[pending[0].action := to], pending[1..])
  {
    var a0 := pending[0].action;
    var actions', rest := actions[a0 := to], pending[1..];
    forall i | 0 <= i < |rest| ensures Matches(actions', rest[i]) {
      assert Matches(actions, pending[i + 1]) && pending[0].action != pending[i + 1].action;
    }
    forall a | a in actions' && actions'[a].phase.Waiting?
      ensures exists i :: 0 <= i < |rest| && rest[i].action == a
    {
      var i :| 0 <= i < |pending| && pending[i].action == a;
      assert rest[i - 1].action == a;
    }
  }

  lemma AscendingSnoc(line: seq<Call>, low: int, c: Call)
    requires Ascending(line, low)
    requires c.Nonced? ==> low < c.nonce && forall i :: 0 <= i < |line| ==> line[i].Nonced? && line[i].nonce < c.nonce
    ensures Ascending(line + [c], low)
  {
  }

  lemma AscendingTail(line: seq<Call>, low: int, after: int)
    requires Ascending(line, low) && line != []
    requires if line[0].Nonced? then after <= line[0].nonce else true
    ensures Ascending(line[1..], after)
  {
    var rest := line[1..];
    forall i | 0 <= i < |rest| && rest[i].Nonced? ensures after < rest[i].nonce {
      assert rest[i] == line[i + 1] && line[0].Nonced? && line[0].nonce < line[i + 1].nonce;
    }
  }

  lemma {:induction false} CallKeeps(s: State, env: Env, step: Step)
    requires Inv(s) && Enabled(s, step) && (step.Number? || step.CallEstablish?)
    ensures Inv(Next(s, env, step))
  {
    var s' := Next(s, env, step);
    var c := s'.queue[|s.queue|];
    OwnedSnoc(s.actions, Pending(s), c, s'.actions[step.action]);
    assert Pending(s') == Pending(s) + [c];
    assert s'.wire + s'.queue == (s.wire + s.queue) + [c];
    CallOrder(s, step, c);
    AscendingSnoc(s.wire + s.queue, s.device.lastNonce, c);
    CallExclusive(s, env, step);
  }

  lemma {:induction false} CallOrder(s: State, step: Step, c: Call)
    requires Inv(s) && Enabled(s, step) && (step.Number? || step.CallEstablish?)
    requires step.Number? ==> c == Nonced(step.action, s.requestNonce + 1)
    ensures step.Number? ==> s.hasKey && s.device.lastNonce < c.nonce
    ensures step.Number? ==> forall i :: 0 <= i < |s.wire + s.queue| ==>
              (s.wire + s.queue)[i].Nonced? && (s.wire + s.queue)[i].nonce < c.nonce
    ensures step.Number? ==> !(s.inFlight.Some? && s.inFlight.value.Establish?)
    ensures step.CallEstablish? ==> !s.hasKey
    ensures forall a :: a in s.actions ==> !s.actions[a].phase.Replied? && !s.actions[a].phase.Derived?
  {
    if s.inFlight.Some? { InFlightMatches(s); }
    if step.CallEstablish? {
      assert Live(s, step.action);
      assert forall a :: a in s.actions && Handshaking(s.actions[a].phase) && !s.actions[a].phase.Waiting? ==>
               Live(s, a);
    }
  }

  lemma {:induction false} CallExclusive(s: State, env: Env, step: Step)
    requires Inv(s) && Enabled(s, step) && (step.Number? || step.CallEstablish?)
    ensures Exclusive(Next(s, env, step))
  {
    var s' := Next(s, env, step);
    if s.inFlight.Some? { InFlightMatches(s); }
    assert forall a :: Live(s', a) ==> Live(s, a);
  }

  lemma {:induction false} DispatchKeeps(s: State, env: Env)
    requires Inv(s) && Enabled(s, Dispatch)
    ensures Inv(Next(s, env, Dispatch))
  {
    var s' := Next(s, env, Dispatch);
    assert Pending(s') == Pending(s);
    assert s'.wire + s'.queue == s.wire + s.queue;
    assert forall a :: Live(s', a) ==> Live(s, a);
    if s.queue[0].Establish? {
      forall i | 0 <= i < |s'.queue| ensures s'.queue[i].Establish? {
        assert (s.wire + s.queue)[|s.wire|] == s.queue[0] && (s.wire + s.queue)[|s.wire| + 1 + i] == s'.queue[i];
      }
    }
  }

  lemma {:induction false} SettleKeeps(s: State, env: Env, ok: bool)
    requires Inv(s) && Enabled(s, Settle(ok))
    ensures Inv(Next(s, env, Settle(ok)))
  {
    SettleOwned(s, env, ok);
    SettleExclusive(s, env, ok);
    if ok && s.inFlight.value.Establish? { NothingBehind(s); }
  }

  lemma {:induction false} SettleOwned(s: State, env: Env, ok: bool)
    requires Inv(s) && Enabled(s, Settle(ok))
    ensures var s' := Next(s, env, Settle(ok)); Owned(s'.actions, Pending(s'))
  {
    var s', c := Next(s, env, Settle(ok)), s.inFlight.value;
    assert Pending(s)[0] == c && Pending(s') == Pending(s)[1..];
    OwnedTail(s.actions, Pending(s), s'.actions[c.action]);
  }

  lemma {:induction false} SettleExclusive(s: State, env: Env, ok: bool)
    requires Inv(s) && Enabled(s, Settle(ok))
    ensures Exclusive(Next(s, env, Settle(ok)))
  {
    var s', c := Next(s, env, Settle(ok)), s.inFlight.value;
    InFlightMatches(s);
    assert forall a :: a in s.actions && a != c.action ==> s'.actions[a] == s.actions[a];
    assert forall a :: Live(s', a) ==> Live(s, a);
  }

  /** No call is chained behind a handshake that was answered. */
  lemma {:induction false} NothingBehind(s: State)
    requires Inv(s) && s.inFlight.Some? && s.inFlight.value.Establish? && !Stuck(s)
    ensures s.queue == []
  {
    InFlightMatches(s);
    if s.queue != [] {
      assert Pending(s)[1] == s.queue[0] && Pending(s)[0] == s.inFlight.value;
      assert Matches(s.actions, s.queue[0]) && Live(s, s.queue[0].action) && Live(s, s.inFlight.value.action);
    }
  }

  lemma {:induction false} FirstIsAbove(s: State)
    requires Inv(s) && s.wire != []
    ensures s.wire[0].Nonced? ==> s.device.lastNonce < s.wire[0].nonce
  {
    assert (s.wire + s.queue)[0] == s.wire[0];
  }

  /** With the first line gone, what is left is still in order. */
  lemma {:induction false} LineTail(s: State, after: int)
    requires Inv(s) && s.wire != []
    requires s.wire[0].Nonced? ==> after <= s.wire[0].nonce
    ensures Ascending(s.wire[1..] + s.queue, after)
    ensures s.hasKey ==> forall i :: 0 <= i < |s.wire[1..] + s.queue| ==>
              (s.wire[1..] + s.queue)[i].Nonced? && (s.wire[1..] + s.queue)[i].nonce <= s.requestNonce
    ensures s.hasKey ==> s.wire[0].Nonced? && s.wire[0].nonce <= s.requestNonce
  {
    var line := s.wire + s.queue;
    assert line[0] == s.wire[0] && s.wire[1..] + s.queue == line[1..];
    AscendingTail(line, s.device.lastNonce, after);
    assert forall i :: 0 <= i < |line[1..]| ==> line[1..][i] == line[i + 1];
  }

  lemma {:induction false} FewerLive(s: State, s': State)
    requires Exclusive(s) && s'.actions == s.actions && s'.hasKey == s.hasKey
    requires s'.inFlight == s.inFlight && (Stuck(s) ==> Stuck(s'))
    ensures Exclusive(s')
  {
    assert forall a :: Live(s', a) ==> Live(s, a);
  }

  /** The device hears the first line, and refuses no number in it. */
  lemma {:induction false} HandleKeeps(s: State, env: Env, secret: nat, now: u64)
    requires Inv(s) && NoReuse(s.handled) && Enabled(s, Handle(secret, now))
    ensures Inv(Next(s, env, Handle(secret, now))) && NoReuse(Next(s, env, Handle(secret, now)).handled)
  {
    var s', c := Next(s, env, Handle(secret, now)), s.wire[0];
    FirstIsAbove(s);
    HandledNonce(s.device, env, c, secret, now);
    LineTail(s, s'.device.lastNonce);
    FewerLive(s, s');
    assert Pending(s') == Pending(s);
  }

  lemma HandledNonce(d: Sessions.Data, env: Env, c: Call, secret: nat, now: u64)
    requires c.Nonced? ==> c.nonce > d.lastNonce
    ensures var h := Handled(d, env, c, secret, now);
            && h.1 != Some(NonceReused)
            && (c.Nonced? ==> d.lastNonce <= h.0.lastNonce <= c.nonce)
            && (c.Establish? ==> h.0.lastNonce <= d.lastNonce && (h.1 == None ==> h.0.lastNonce == 0))
  {
  }

  lemma {:induction false} LoseKeeps(s: State, env: Env)
    requires Inv(s) && Enabled(s, Lose)
    ensures Inv(Next(s, env, Lose))
  {
    var s' := Next(s, env, Lose);
    FirstIsAbove(s);
    LineTail(s, s.device.lastNonce);
    FewerLive(s, s');
    assert Pending(s') == Pending(s);
  }

  lemma {:induction false} StepKeeps(s: State, env: Env, step: Step)
    requires Inv(s) && NoReuse(s.handled) && Enabled(s, step) && !Hazard(s, step)
    ensures Inv(Next(s, env, step)) && NoReuse(Next(s, env, step).handled)
  {
    match step
    case Number(_) => CallKeeps(s, env, step);
    case CallEstablish(_, _) => CallKeeps(s, env, step);
    case Dispatch => DispatchKeeps(s, env);
    case Handle(secret, now) => HandleKeeps(s, env, secret, now);
    case Lose => LoseKeeps(s, env);
    case Settle(ok) => SettleKeeps(s, env, ok);
    case Reset => assert forall a :: Live(Next(s, env, Reset), a) ==> Live(s, a);
    case _ => LocalKeeps(s, env, step);
  }

  /** The device never answers NonceReused in such runs: nonces reach it in the order they were allocated. */
  lemma {:induction false} NoncesArriveInOrder(env: Env, steps: seq<Step>, trace: seq<State>, n: nat)
    requires IsRun(env, steps, trace) && n < |trace|
    requires forall i :: 0 <= i < |steps| ==> !Hazard(trace[i], steps[i])
    ensures Inv(trace[n]) && NoReuse(trace[n].handled)
  {
    if n > 0 {
      NoncesArriveInOrder(env, steps, trace, n - 1);
      StepKeeps(trace[n - 1], env, steps[n - 1]);
    }
  }

  // ----- every hazard leads to a reused nonce ----------------------------------

  /** A run without hazards from `s` to `t`. */
  ghost predicate Leads(s: State, env: Env, steps: seq<Step>, t: State)
    decreases |steps|
  {
    if steps == [] then t == s
    else Enabled(s, steps[0]) && !Hazard(s, steps[0]) && Leads(Next(s, env, steps[0]), env, steps[1..], t)
  }

  ghost predicate Reaches(s: State, env: Env, t: State) {
    exists steps: seq<Step> :: Leads(s, env, steps, t)
  }

  lemma {:induction false} Here(s: State, env: Env)
    ensures Reaches(s, env, s)
  {
    assert Leads(s, env, [], s);
  }

  lemma {:induction false} LeadsSnoc(s: State, env: Env, steps: seq<Step>, m: State, step: Step)
    requires Leads(s, env, steps, m) && Enabled(m, step) && !Hazard(m, step)
    ensures Leads(s, env, steps + [step], Next(m, env, step))
    decreases |steps|
  {
    if steps == [] {
      assert (steps + [step])[1..] == [];
    } else {
      assert (steps + [step])[1..] == steps[1..] + [step];
      LeadsSnoc(Next(s, env, steps[0]), env, steps[1..], m, step);
    }
  }

  lemma {:induction false} Go(s: State, env: Env, m: State, step: Step) returns (t: State)
    requires Reaches(s, env, m) && Enabled(m, step) && !Hazard(m, step)
    ensures Reaches(s, env, t) && t == Next(m, env, step)
  {
    var steps: seq<Step> :| Leads(s, env, steps, m);
    LeadsSnoc(s, env, steps, m, step);
    t := Next(m, env, step);
  }

  /** A device secret with which the device accepts the host's key. */
  ghost predicate Accepts(env: Env, hostSecret: nat, secret: nat) {
    !Sessions.AllZero(env.suite.curve.shared(secret, env.suite.curve.public(hostSecret)))
  }

  ghost predicate Acceptable(env: Env, hostSecret: nat) {
    exists secret: nat :: Accepts(env, hostSecret, secret)
  }

  ghost predicate HostKeysAccepted(env: Env) {
    forall hostSecret: nat :: Acceptable(env, hostSecret)
  }

  lemma {:induction false} AcceptedKey(d: Sessions.Data, env: Env, a: nat, hostSecret: nat, secret: nat)
    requires Accepts(env, hostSecret, secret)
    ensures var h := Handled(d, env, Establish(a, hostSecret), secret, 0);
            h.1 == None && h.0.state == Sessions.Active && h.0.lastNonce == 0 && h.0.lastActivityMs == 0
  {
    Hex.DecodeEncode(env.suite.curve.public(hostSecret));
  }

  /** All but the last `keep` lines on the wire are lost. */
  lemma {:induction false} LoseLines(s: State, env: Env, m: State, keep: nat) returns (t: State)
    requires Reaches(s, env, m) && keep <= |m.wire|
    ensures Reaches(s, env, t) && t == m.(wire := m.wire[|m.wire| - keep..])
    decreases |m.wire|
  {
    if |m.wire| == keep {
      t := m;
    } else {
      t := Go(s, env, m, Lose);
      t := LoseLines(s, env, t, keep);
    }
  }

  /** The RPC in flight, if any, is given up. */
  lemma {:induction false} GiveUp(s: State, env: Env, m: State) returns (t: State)
    requires Reaches(s, env, m) && (m.inFlight.Some? ==> m.inFlight.value.action in m.actions)
    ensures Reaches(s, env, t)
    ensures t == m.(actions := t.actions, inFlight := None, wire := [], answered := t.answered)
    ensures t.actions == if m.inFlight.None? then m.actions else Put(m, m.inFlight.value.action, Over).actions
  {
    t := LoseLines(s, env, m, 0);
    if m.inFlight.Some? { t := Go(s, env, t, Settle(false)); }
  }

  predicate IsPending(s: State, a: nat) {
    Calls(Pending(s), |Pending(s)|, a)
  }

  predicate Known(actions: map<nat, Action>, calls: seq<Call>) {
    forall i :: 0 <= i < |calls| ==> calls[i].action in actions
  }

  /** One of the first `n` calls is the action's. */
  predicate Calls(calls: seq<Call>, n: nat, a: nat)
    requires n <= |calls|
  {
    exists i :: 0 <= i < n && calls[i].action == a
  }

  /** The first `n` calls are given up; other actions do not notice. */
  lemma {:induction false} GiveUpCalls(s: State, env: Env, m: State, n: nat) returns (t: State)
    requires Reaches(s, env, m) && m.inFlight == None && m.wire == []
    requires n <= |m.queue| && Known(m.actions, m.queue)
    ensures Reaches(s, env, t)
    ensures t == m.(actions := t.actions, queue := m.queue[n..], answered := t.answered)
    ensures t.actions.Keys == m.actions.Keys
    ensures forall a :: a in m.actions && !Calls(m.queue, n, a) ==> t.actions[a] == m.actions[a]
    decreases n
  {
    if n == 0 {
      t := m;
    } else {
      var m1 := GiveUpCalls(s, env, m, n - 1);
      t := GiveUpFirst(s, env, m1);
      assert m.queue[n - 1..][1..] == m.queue[n..];
      forall a | a in m.actions && !Calls(m.queue, n, a) ensures t.actions[a] == m.actions[a] {
        assert m.queue[n - 1].action != a && !Calls(m.queue, n - 1, a);
      }
    }
  }

  lemma {:induction false} GiveUpFirst(s: State, env: Env, m: State) returns (t: State)
    requires Reaches(s, env, m) && m.inFlight == None && m.wire == []
    requires m.queue != [] && m.queue[0].action in m.actions
    ensures Reaches(s, env, t)
    ensures t == m.(actions := Put(m, m.queue[0].action, Over).actions, queue := m.queue[1..], answered := t.answered)
  {
    t := Go(s, env, m, Dispatch);
    t := GiveUp(s, env, t);
  }

  /** An action without a key gets as far as chaining its handshake call. */
  lemma {:induction false} CallOut(s: State, env: Env, m: State, a: nat, hostSecret: nat) returns (t: State)
    requires Reaches(s, env, m) && (At(m, a, Preparing) || At(m, a, KeyMade))
    ensures Reaches(s, env, t)
    ensures t == m.(actions := t.actions, hostKey := t.hostKey, queue := m.queue + [Establish(a, hostSecret)])
    ensures t.actions == m.actions[a := Action(m.actions[a].seals, Waiting)]
    ensures m.hostKey || At(m, a, Preparing) ==> t.hostKey
  {
    t := m;
    if At(m, a, Preparing) { t := Go(s, env, t, MakeKey(a)); }
    t := Go(s, env, t, CallEstablish(a, hostSecret));
    assert t.actions == m.actions[a := Action(m.actions[a].seals, Waiting)];
  }

  /** The reply is there: the key is installed and the action's request is number 1. */
  lemma {:induction false} InstallAndNumber(s: State, env: Env, m: State, a: nat) returns (t: State)
    requires Reaches(s, env, m) && ((At(m, a, Replied) && m.hostKey) || At(m, a, Derived))
    ensures Reaches(s, env, t)
    ensures t == m.(actions := t.actions, hasKey := true, requestNonce := 1, queue := m.queue + [Nonced(a, 1)])
    ensures t.actions == m.actions[a := Action(m.actions[a].seals, Called)]
  {
    t := m;
    if At(m, a, Replied) { t := Go(s, env, t, Derive(a)); }
    t := Go(s, env, t, Install(a));
    if m.actions[a].seals { t := Go(s, env, t, Seal(a)); }
    t := Go(s, env, t, Number(a));
    assert t.actions == m.actions[a := Action(m.actions[a].seals, Called)];
  }

  /** The first call, a handshake, is answered. */
  lemma {:induction false} Answer(s: State, env: Env, m: State, a: nat) returns (t: State)
    requires Reaches(s, env, m) && HostKeysAccepted(env) && At(m, a, Waiting)
    requires m.inFlight == None && m.wire == [] && m.queue != [] && m.queue[0].Establish? && m.queue[0].action == a
    ensures Reaches(s, env, t)
    ensures t == m.(actions := t.actions, queue := m.queue[1..], device := t.device, answered := false,
                    handled := t.handled)
    ensures t.actions == m.actions[a := Action(m.actions[a].seals, Replied)]
    ensures t.device.state == Sessions.Active && t.device.lastNonce == 0 && t.device.lastActivityMs == 0
  {
    t := Go(s, env, m, Dispatch);
    t := AnswerFlying(s, env, t, a);
  }

  lemma {:induction false} AnswerFlying(s: State, env: Env, m: State, a: nat) returns (t: State)
    requires Reaches(s, env, m) && HostKeysAccepted(env) && At(m, a, Waiting)
    requires m.inFlight.Some? && m.inFlight.value.Establish? && m.inFlight.value.action == a
    requires m.wire == [m.inFlight.value]
    ensures Reaches(s, env, t)
    ensures t == m.(actions := t.actions, inFlight := None, wire := [], device := t.device, answered := false,
                    handled := t.handled)
    ensures t.actions == m.actions[a := Action(m.actions[a].seals, Replied)]
    ensures t.device.state == Sessions.Active && t.device.lastNonce == 0 && t.device.lastActivityMs == 0
  {
    var c := m.inFlight.value;
    assert Acceptable(env, c.hostSecret);
    var secret: nat :| Accepts(env, c.hostSecret, secret);
    AcceptedKey(m.device, env, a, c.hostSecret, secret);
    t := Go(s, env, m, Handle(secret, 0));
    t := Go(s, env, t, Settle(true));
  }

  /** Nonce 1 is chained behind a handshake that restarts both counters: it is used twice. */
  lemma {:induction false} Endgame(s: State, env: Env, m: State, a: nat, b: nat) returns (t: State)
    requires Reaches(s, env, m) && HostKeysAccepted(env) && env.idleMs > 0
    requires m.inFlight == None && m.wire == [] && m.hostKey
    requires a != b && a in m.actions && At(m, b, Waiting)
    requires |m.queue| == 2 && m.queue[0].Establish? && m.queue[0].action == b && m.queue[1] == Nonced(a, 1)
    ensures Reaches(s, env, t) && !NoReuse(t.handled)
  {
    t := Answer(s, env, m, b);
    t := InstallAndNumber(s, env, t, b);
    assert t.queue == [Nonced(a, 1), Nonced(b, 1)];
    t := NonceTwice(s, env, t, a, b);
  }

  lemma {:induction false} NonceTwice(s: State, env: Env, m: State, a: nat, b: nat) returns (t: State)
    requires Reaches(s, env, m) && env.idleMs > 0 && a in m.actions && b in m.actions
    requires m.inFlight == None && m.wire == [] && m.queue == [Nonced(a, 1), Nonced(b, 1)]
    requires m.device.state == Sessions.Active && m.device.lastNonce == 0 && m.device.lastActivityMs == 0
    ensures Reaches(s, env, t) && !NoReuse(t.handled)
  {
    GateOpensExactly(m.device, 1, 0, env.idleMs);
    t := Send(s, env, m);
    t := Send(s, env, t);
    assert t.handled[|t.handled| - 1].1 == Some(NonceReused);
  }

  /** The first call, a numbered request, reaches the device at time 0. */
  lemma {:induction false} Send(s: State, env: Env, m: State) returns (t: State)
    requires Reaches(s, env, m) && m.inFlight == None && m.wire == []
    requires m.queue != [] && m.queue[0].Nonced? && m.queue[0].action in m.actions
    ensures Reaches(s, env, t)
    ensures var h := Handled(m.device, env, m.queue[0], 0, 0);
            t == m.(actions := t.actions, queue := m.queue[1..], answered := false, device := h.0,
                    handled := m.handled + [(m.queue[0], h.1)])
    ensures t.actions.Keys == m.actions.Keys
  {
    t := Go(s, env, m, Dispatch);
    t := Go(s, env, t, Handle(0, 0));
    t := Go(s, env, t, Settle(false));
  }

  /** A reset while a request is about to be numbered. */
  lemma {:induction false} ResetReuses(s: State, env: Env) returns (t: State)
    requires Inv(s) && Hazard(s, Reset) && HostKeysAccepted(env) && env.idleMs > 0
    ensures Reaches(Next(s, env, Reset), env, t) && !NoReuse(t.handled)
  {
    var s0 := Next(s, env, Reset);
    var a :| a in s.actions && s.actions[a].phase.Armed?;
    var b := AboveAll(s.actions.Keys);
    Here(s0, env);
    t := Go(s0, env, s0, Begin(b, false));
    t := CallOut(s0, env, t, b, 0);
    t := Go(s0, env, t, Number(a));
    assert t.queue == s.queue + [Establish(b, 0), Nonced(a, 1)];
    t := CallsGone(s, s0, env, t, a, b, [Establish(b, 0), Nonced(a, 1)]);
    t := Endgame(s0, env, t, a, b);
  }

  /** The calls that were pending before are given up. */
  lemma {:induction false} CallsGone(s: State, s0: State, env: Env, m: State, a: nat, b: nat,
                                     more: seq<Call>) returns (t: State)
    requires Inv(s) && Reaches(s0, env, m) && m.queue == s.queue + more && m.inFlight == s.inFlight
    requires s.actions.Keys <= m.actions.Keys && a in m.actions && b in m.actions && Known(m.actions, more)
    requires !IsPending(s, a) && !IsPending(s, b)
    ensures Reaches(s0, env, t)
    ensures t == m.(actions := t.actions, queue := more, inFlight := None, wire := [], answered := t.answered)
    ensures t.actions.Keys == m.actions.Keys && t.actions[a] == m.actions[a] && t.actions[b] == m.actions[b]
  {
    PendingKnown(s);
    NotCalled(s, a);
    NotCalled(s, b);
    t := GiveUp(s0, env, m);
    assert t.actions.Keys == m.actions.Keys && t.actions[a] == m.actions[a] && t.actions[b] == m.actions[b];
    assert t.queue[|s.queue|..] == more && forall i :: 0 <= i < |s.queue| ==> t.queue[i] == s.queue[i];
    t := GiveUpCalls(s0, env, t, |s.queue|);
  }

  lemma {:induction false} PendingKnown(s: State)
    requires Inv(s)
    ensures Known(s.actions, s.queue) && (s.inFlight.Some? ==> s.inFlight.value.action in s.actions)
  {
    if s.inFlight.Some? { InFlightMatches(s); }
    forall i | 0 <= i < |s.queue| ensures s.queue[i].action in s.actions {
      assert s.queue[i] == Pending(s)[|Pending(s)| - |s.queue| + i];
      assert Matches(s.actions, s.queue[i]);
    }
  }

  lemma {:induction false} NotCalled(s: State, a: nat)
    requires !IsPending(s, a)
    ensures !Calls(s.queue, |s.queue|, a) && (s.inFlight.Some? ==> s.inFlight.value.action != a)
  {
    assert forall i :: 0 <= i < |s.queue| ==> s.queue[i] == Pending(s)[|Pending(s)| - |s.queue| + i];
    if s.inFlight.Some? { assert Pending(s)[0] == s.inFlight.value; }
  }

  lemma {:induction false} ChainedCall(s: State, k: nat)
    requires Inv(s) && k < |s.queue|
    ensures Matches(s.actions, s.queue[k])
    ensures s.inFlight.Some? ==> s.inFlight.value.action != s.queue[k].action
    ensures forall i :: 0 <= i < |s.queue| && i != k ==> s.queue[i].action != s.queue[k].action
  {
    var p := |Pending(s)| - |s.queue|;
    assert forall i :: 0 <= i < |s.queue| ==> s.queue[i] == Pending(s)[p + i];
    assert Matches(s.actions, Pending(s)[p + k]);
    if s.inFlight.Some? { assert Pending(s)[0] == s.inFlight.value; }
  }

  /** A live handshake still in the chain is the last call there. */
  lemma {:induction false} LiveIsLast(s: State, a: nat, k: nat)
    requires Inv(s) && Live(s, a) && At(s, a, Waiting) && k < |s.queue| && s.queue[k].action == a
    ensures k == |s.queue| - 1 && s.queue[k].Establish? && !Calls(s.queue, k, a)
  {
    ChainedCall(s, k);
    if k + 1 < |s.queue| {
      ChainedCall(s, k + 1);
      assert (s.wire + s.queue)[|s.wire| + k] == s.queue[k];
      assert (s.wire + s.queue)[|s.wire| + k + 1] == s.queue[k + 1];
      assert Live(s, s.queue[k + 1].action);
    }
  }

  /** Another action has begun; the live handshake is answered all the same. */
  lemma {:induction false} BringReply(s: State, env: Env, a: nat, b: nat, seals: bool) returns (t: State)
    requires Inv(s) && HostKeysAccepted(env) && !s.hasKey && Live(s, a) && b !in s.actions
    ensures Reaches(Next(s, env, Begin(b, seals)), env, t)
    ensures t.queue == [] && t.inFlight == None && t.wire == []
    ensures (At(t, a, Replied) || At(t, a, Derived)) && At(t, b, Preparing)
  {
    var s0 := Next(s, env, Begin(b, seals));
    Here(s0, env);
    NotPending(s, b);
    if s.actions[a].phase.Replied? || s.actions[a].phase.Derived? {
      t := s0;
    } else if !s.actions[a].phase.Waiting? {
      NotPending(s, a);
      t := CallOut(s0, env, s0, a, 0);
      t := CallsGone(s, s0, env, t, a, b, [Establish(a, 0)]);
      t := Answer(s0, env, t, a);
    } else if s.inFlight.Some? && s.inFlight.value.action == a {
      t := BringFlying(s, s0, env, a);
    } else {
      t := BringChained(s, s0, env, a, b);
    }
  }

  lemma {:induction false} NotPending(s: State, a: nat)
    requires Inv(s) && (a in s.actions ==> !s.actions[a].phase.Waiting? && !s.actions[a].phase.Called?)
    ensures !IsPending(s, a)
  {
    assert forall i :: 0 <= i < |Pending(s)| ==> Matches(s.actions, Pending(s)[i]);
  }

  lemma {:induction false} BringFlying(s: State, s0: State, env: Env, a: nat) returns (t: State)
    requires Inv(s) && HostKeysAccepted(env) && Live(s, a) && At(s, a, Waiting)
    requires s.inFlight.Some? && s.inFlight.value.action == a
    requires Reaches(s0, env, s0) && s0 == s.(actions := s0.actions) && At(s0, a, Waiting)
    ensures Reaches(s0, env, t)
    ensures t.queue == [] && t.inFlight == None && t.wire == []
    ensures t.actions == s0.actions[a := Action(s0.actions[a].seals, Replied)]
  {
    InFlightMatches(s);
    NothingBehind(s);
    if s.answered {
      t := Go(s0, env, s0, Settle(true));
    } else {
      t := LoseLines(s0, env, s0, 1);
      t := AnswerFlying(s0, env, t, a);
    }
  }

  lemma {:induction false} BringChained(s: State, s0: State, env: Env, a: nat, b: nat) returns (t: State)
    requires Inv(s) && HostKeysAccepted(env) && Live(s, a) && At(s, a, Waiting) && b !in s.actions
    requires !(s.inFlight.Some? && s.inFlight.value.action == a)
    requires Reaches(s0, env, s0) && s0 == s.(actions := s0.actions)
    requires At(s0, b, Preparing) && s0.actions == s.actions[b := s0.actions[b]]
    ensures Reaches(s0, env, t)
    ensures t.queue == [] && t.inFlight == None && t.wire == []
    ensures At(t, a, Replied) && At(t, b, Preparing)
  {
    var k := ChainedAt(s, a);
    LiveIsLast(s, a, k);
    PendingKnown(s);
    NotPending(s, b);
    NotCalled(s, b);
    t := GiveUp(s0, env, s0);
    t := GiveUpCalls(s0, env, t, k);
    assert t.queue == [s.queue[k]];
    t := Answer(s0, env, t, a);
  }

  lemma {:induction false} ChainedAt(s: State, a: nat) returns (k: nat)
    requires Inv(s) && At(s, a, Waiting) && !(s.inFlight.Some? && s.inFlight.value.action == a)
    ensures k < |s.queue| && s.queue[k].action == a
  {
    var i :| 0 <= i < |Pending(s)| && Pending(s)[i].action == a;
    k := i - (|Pending(s)| - |s.queue|);
    assert Pending(s)[i] == s.queue[k];
  }

  /** A second handshake begun while another may still succeed. */
  lemma {:induction false} OverlappingHandshakesReuse(s: State, env: Env, b: nat, seals: bool) returns (t: State)
    requires Inv(s) && Enabled(s, Begin(b, seals)) && Hazard(s, Begin(b, seals))
    requires HostKeysAccepted(env) && env.idleMs > 0
    ensures Reaches(Next(s, env, Begin(b, seals)), env, t) && !NoReuse(t.handled)
  {
    var s0 := Next(s, env, Begin(b, seals));
    var a :| a in s.actions && Live(s, a);
    t := BringReply(s, env, a, b, seals);
    t := CallOut(s0, env, t, b, 0);
    t := InstallAndNumber(s0, env, t, a);
    t := Endgame(s0, env, t, a, b);
  }

  /**
   * After a run without hazards, a step is a hazard iff a reused nonce can follow it without any
   * further hazard.
   */
  lemma {:induction false} HazardsExactly(env: Env, steps: seq<Step>, trace: seq<State>, step: Step)
    requires HostKeysAccepted(env) && env.idleMs > 0
    requires IsRun(env, steps, trace) && forall i :: 0 <= i < |steps| ==> !Hazard(trace[i], steps[i])
    requires Enabled(trace[|steps|], step)
    ensures Hazard(trace[|steps|], step)
       <==> exists t :: Reaches(Next(trace[|steps|], env, step), env, t) && !NoReuse(t.handled)
  {
    var s := trace[|steps|];
    NoncesArriveInOrder(env, steps, trace, |steps|);
    if Hazard(s, step) {
      if step.Reset? {
        var t := ResetReuses(s, env);
      } else {
        var t := OverlappingHandshakesReuse(s, env, step.action, step.seals);
      }
    } else {
      StepKeeps(s, env, step);
      forall t | Reaches(Next(s, env, step), env, t) ensures NoReuse(t.handled) {
        var more: seq<Step> :| Leads(Next(s, env, step), env, more, t);
        StaysInOrder(Next(s, env, step), env, more, t);
      }
    }
  }

  lemma {:induction false} StaysInOrder(s: State, env: Env, steps: seq<Step>, t: State)
    requires Inv(s) && NoReuse(s.handled) && Leads(s, env, steps, t)
    ensures Inv(t) && NoReuse(t.handled)
    decreases |steps|
  {
    if steps != [] {
      StepKeeps(s, env, steps[0]);
      StaysInOrder(Next(s, env, steps[0]), env, steps[1..], t);
    }
  }
}
