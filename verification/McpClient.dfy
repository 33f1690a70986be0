/**
 The client of one tool server: calls share a session slot behind a lock, start the server again when
 it dropped, re-send at most once, and end for good at shutdown. Any interleaving of the steps below,
 with a drop, a cancel or a shutdown at any moment, is a run.
 */
module McpClient {
  import opened Prelude

  /** A tool call, or one page of a listing, which is safe to repeat. */
  datatype Kind = Tool | Page

  /**
   `Asking` has no permit yet; `Seeking` wants the slot's lock; `Starting` holds the lock while the
   server starts; `Ready` has a peer; `Sent` awaits the response of an accepted request; `Resetting`
   saw its session fail and, if `again`, will try once more.
   */
  datatype Stage =
    | Asking
    | Seeking
    | Starting
    | Ready(generation: nat)
    | Sent(generation: nat)
    | Resetting(generation: nat, again: bool)
    | Over

  datatype Call = Call(kind: Kind, stage: Stage, retried: bool, attempts: nat, accepted: nat)

  /** `sessions` lists the generation of every session the slot ever held. */
  datatype State = State(
    calls: seq<Call>,
    slot: Option<nat>,
    dead: set<nat>,
    next: nat,
    sessions: seq<nat>,
    closed: bool,
    taken: bool)

  datatype Client = Client(kinds: seq<Kind>, maxInFlight: nat)

  /** How many permits there are. */
  function Permits(c: Client): nat
  {
    if c.maxInFlight < 1 then 1 else c.maxInFlight
  }

  function Initial(c: Client): State
  {
    State(seq(|c.kinds|, i requires 0 <= i < |c.kinds| => Call(c.kinds[i], Asking, false, 0, 0)),
          Some(0), {}, 1, [0], false, false)
  }

  /**
   Steps of call `i`: it gets a permit; looks at the slot; its start of the server succeeds or fails;
   its request is accepted, finds the connection closed, or fails otherwise; it gets its response or
   loses the connection; it resets the slot, or gives up waiting for the lock; a deadline or cancel cuts
   it short, in the middle of sending possibly after the request was accepted. The rest comes from
   outside: a session drops; a shutdown sets its flag; a shutdown takes the slot.
   */
  datatype Action =
    | Permit(i: nat)
    | Look(i: nat)
    | StartOk(i: nat)
    | StartFail(i: nat)
    | Accept(i: nat)
    | SendClosed(i: nat)
    | SendFail(i: nat)
    | Respond(i: nat)
    | Lose(i: nat)
    | Reset(i: nat)
    | ResetTimeout(i: nat)
    | Cut(i: nat, accepted: bool)
    | Drop(generation: nat)
    | Close
    | Take

  predicate FromOutside(a: Action)
  {
    a.Drop? || a.Close? || a.Take?
  }

  /** The call has a permit. */
  predicate Running(stage: Stage)
  {
    !stage.Asking? && !stage.Over?
  }

  ghost function InFlight(calls: seq<Call>): nat
  {
    Sum(calls, (c: Call) => if Running(c.stage) then 1 else 0)
  }

  predicate LockFree(calls: seq<Call>)
  {
    forall i :: 0 <= i < |calls| ==> !calls[i].stage.Starting?
  }

  ghost predicate Enabled(c: Client, s: State, a: Action)
  {
    match a
    case Permit(i) => i < |s.calls| && s.calls[i].stage.Asking? && InFlight(s.calls) < Permits(c)
    case Look(i) => i < |s.calls| && s.calls[i].stage.Seeking? && LockFree(s.calls)
    case StartOk(i) => i < |s.calls| && s.calls[i].stage.Starting?
    case StartFail(i) => i < |s.calls| && s.calls[i].stage.Starting?
    case Accept(i) => i < |s.calls| && s.calls[i].stage.Ready?
    case SendClosed(i) => i < |s.calls| && s.calls[i].stage.Ready?
    case SendFail(i) => i < |s.calls| && s.calls[i].stage.Ready?
    case Respond(i) => i < |s.calls| && s.calls[i].stage.Sent?
    case Lose(i) => i < |s.calls| && s.calls[i].stage.Sent?
    case Reset(i) => i < |s.calls| && s.calls[i].stage.Resetting? && LockFree(s.calls)
    case ResetTimeout(i) => i < |s.calls| && s.calls[i].stage.Resetting?
    case Cut(i, accepted) =>
      && i < |s.calls| && !s.calls[i].stage.Over? && !s.calls[i].stage.Resetting?
      && (accepted ==> s.calls[i].stage.Ready?)
    case Drop(_) => true
    case Close => true
    case Take => s.closed && LockFree(s.calls)
  }

  function At(s: State, i: nat, stage: Stage): State
    requires i < |s.calls|
  {
    s.(calls := s.calls[i := s.calls[i].(stage := stage)])
  }

  /** One more attempt at sending. */
  function Tried(s: State, i: nat, accepted: bool, stage: Stage): State
    requires i < |s.calls|
  {
    var call := s.calls[i];
    s.(calls := s.calls[i := call.(stage := stage, attempts := call.attempts + 1,
                                   accepted := call.accepted + if accepted then 1 else 0)])
  }

  /** The session failed under the call: it resets it and, the first time, may try again. */
  function Failed(s: State, i: nat, generation: nat, repeatable: bool): State
    requires i < |s.calls|
  {
    var again := repeatable && !s.calls[i].retried;
    var call := s.calls[i].(stage := Resetting(generation, again), retried := s.calls[i].retried || again);
    s.(calls := s.calls[i := call])
  }

  function Empty(s: State): State
  {
    s.(slot := None, dead := if s.slot.Some? then s.dead + {s.slot.value} else s.dead)
  }

  ghost function Apply(c: Client, s: State, a: Action): State
    requires Enabled(c, s, a)
  {
    match a
    case Permit(i) => At(s, i, Seeking)
    case Look(i) =>
      if s.closed then At(s, i, Over)
      else if s.slot.Some? && s.slot.value !in s.dead then At(s, i, Ready(s.slot.value))
      else At(Empty(s), i, Starting)
    case StartOk(i) =>
      At(s.(slot := Some(s.next), next := s.next + 1, sessions := s.sessions + [s.next]), i, Ready(s.next))
    case StartFail(i) => At(s, i, Over)
    case Accept(i) => Tried(s, i, true, Sent(s.calls[i].stage.generation))
    case SendClosed(i) => Failed(Tried(s, i, false, s.calls[i].stage), i, s.calls[i].stage.generation, true)
    case SendFail(i) => Tried(s, i, false, Over)
    case Respond(i) => At(s, i, Over)
    case Lose(i) => Failed(s, i, s.calls[i].stage.generation, s.calls[i].kind.Page?)
    case Reset(i) =>
      var stage := s.calls[i].stage;
      At(if s.slot == Some(stage.generation) then Empty(s) else s, i, if stage.again then Seeking else Over)
    case ResetTimeout(i) => At(s, i, if s.calls[i].stage.again then Seeking else Over)
    case Cut(i, accepted) => if s.calls[i].stage.Ready? then Tried(s, i, accepted, Over) else At(s, i, Over)
    case Drop(generation) => s.(dead := s.dead + {generation})
    case Close => s.(closed := true)
    case Take => Empty(s).(taken := true)
  }

  /** Where a run leads; `None` when some step of it is not possible. */
  ghost function After(c: Client, run: seq<Action>): Option<State>
  {
    if run == [] then Some(Initial(c))
    else
      var before := After(c, run[..|run| - 1]);
      if before.Some? && Enabled(c, before.value, run[|run| - 1])
      then Some(Apply(c, before.value, run[|run| - 1]))
      else None
  }

  // ---------------------------------------------------------------------------------------------
  // Invariants
  // ---------------------------------------------------------------------------------------------

  predicate Increasing(s: seq<nat>)
  {
    forall i, j :: 0 <= i < j < |s| ==> s[i] < s[j]
  }

  predicate UsesOlder(stage: Stage, slot: Option<nat>, next: nat)
  {
    stage.Ready? || stage.Sent? || stage.Resetting? ==>
      stage.generation < next && (slot.Some? ==> stage.generation <= slot.value)
  }

  /** Generations only go up, and no call uses one newer than the slot's. */
  predicate Generations(s: State)
  {
    && Increasing(s.sessions)
    && (forall k :: 0 <= k < |s.sessions| ==> s.sessions[k] < s.next)
    && (s.slot.Some? ==> s.sessions != [] && s.slot.value == s.sessions[|s.sessions| - 1])
    && forall i :: 0 <= i < |s.calls| ==> UsesOlder(s.calls[i].stage, s.slot, s.next)
  }

  /** What a call has sent so far. */
  predicate Sends(call: Call)
  {
    && call.accepted <= call.attempts <= (if call.retried then 2 else 1)
    && (call.stage.Asking? || call.stage.Seeking? || call.stage.Starting? || call.stage.Ready? ==>
          call.attempts == if call.retried then 1 else 0)
    && (call.stage.Sent? ==> call.attempts == if call.retried then 2 else 1)
    && (call.stage.Resetting? && call.stage.again ==> call.retried && call.attempts == 1)
    && (call.kind.Tool? ==>
          call.accepted <= 1 &&
          (call.accepted == 1 ==> call.stage.Over? || call.stage.Sent? || (call.stage.Resetting? && !call.stage.again)))
  }

  /** Only one call at a time starts the server, with the slot empty; never once a shutdown took it. */
  predicate Exclusive(s: State)
  {
    && (forall i, j :: 0 <= i < j < |s.calls| ==> !s.calls[i].stage.Starting? || !s.calls[j].stage.Starting?)
    && (forall i :: 0 <= i < |s.calls| && s.calls[i].stage.Starting? ==> s.slot.None? && !s.taken)
    && (s.taken ==> s.closed && s.slot.None?)
  }

  ghost predicate AllSend(c: Client, calls: seq<Call>)
  {
    |calls| == |c.kinds| && forall i :: 0 <= i < |calls| ==> Sends(calls[i]) && calls[i].kind == c.kinds[i]
  }

  ghost predicate Inv(c: Client, s: State)
  {
    && Generations(s)
    && AllSend(c, s.calls)
    && Exclusive(s)
    && InFlight(s.calls) <= Permits(c)
  }

  lemma {:induction false} GenerationsKept(c: Client, s: State, a: Action)
    requires Generations(s) && Exclusive(s) && Enabled(c, s, a)
    ensures Generations(Apply(c, s, a))
  {
    HistoryKept(c, s, a);
    OlderKept(c, s, a);
    hide Apply, Enabled, Exclusive;
  }

  lemma {:induction false} HistoryKept(c: Client, s: State, a: Action)
    requires Generations(s) && Exclusive(s) && Enabled(c, s, a)
    ensures var t := Apply(c, s, a);
            && Increasing(t.sessions) && (forall k :: 0 <= k < |t.sessions| ==> t.sessions[k] < t.next)
            && (t.slot.Some? ==> t.sessions != [] && t.slot.value == t.sessions[|t.sessions| - 1])
  {
    hide InFlight, LockFree, Permits, UsesOlder;
  }

  lemma {:induction false} OlderKept(c: Client, s: State, a: Action)
    requires Generations(s) && Exclusive(s) && Enabled(c, s, a)
    ensures var t := Apply(c, s, a);
            forall i :: 0 <= i < |t.calls| ==> UsesOlder(t.calls[i].stage, t.slot, t.next)
  {
    hide InFlight, LockFree, Permits, Increasing;
  }

  /** A call's step changes that call only, and only a permit lets it in. */
  lemma {:induction false} OneMoves(c: Client, s: State, a: Action)
    requires Enabled(c, s, a) && !FromOutside(a)
    ensures a.i < |s.calls| && |Apply(c, s, a).calls| == |s.calls|
    ensures Apply(c, s, a).calls == s.calls[a.i := Apply(c, s, a).calls[a.i]]
    ensures Running(Apply(c, s, a).calls[a.i].stage) && !Running(s.calls[a.i].stage) ==> a.Permit?
  {
    hide InFlight, LockFree, Permits;
  }

  lemma {:induction false} OneSends(c: Client, s: State, a: Action)
    requires Enabled(c, s, a) && !FromOutside(a) && Sends(s.calls[a.i])
    ensures Sends(Apply(c, s, a).calls[a.i]) && Apply(c, s, a).calls[a.i].kind == s.calls[a.i].kind
  {
    hide Apply, Enabled, Sends;
    if a.Permit? || a.Look? || a.StartOk? || a.StartFail? {
      OneSeeks(c, s, a);
    } else if a.Accept? || a.SendClosed? || a.SendFail? {
      OneTries(c, s, a);
    } else {
      OneEnds(c, s, a);
    }
  }

  lemma OneSeeks(c: Client, s: State, a: Action)
    requires Enabled(c, s, a) && (a.Permit? || a.Look? || a.StartOk? || a.StartFail?) && Sends(s.calls[a.i])
    ensures Sends(Apply(c, s, a).calls[a.i]) && Apply(c, s, a).calls[a.i].kind == s.calls[a.i].kind
  {
    hide InFlight, LockFree, Permits;
  }

  lemma OneTries(c: Client, s: State, a: Action)
    requires Enabled(c, s, a) && (a.Accept? || a.SendClosed? || a.SendFail?) && Sends(s.calls[a.i])
    ensures Sends(Apply(c, s, a).calls[a.i]) && Apply(c, s, a).calls[a.i].kind == s.calls[a.i].kind
  {
    hide InFlight, LockFree, Permits;
  }

  lemma OneEnds(c: Client, s: State, a: Action)
    requires Enabled(c, s, a) && (a.Respond? || a.Lose? || a.Reset? || a.ResetTimeout? || a.Cut?) && Sends(s.calls[a.i])
    ensures Sends(Apply(c, s, a).calls[a.i]) && Apply(c, s, a).calls[a.i].kind == s.calls[a.i].kind
  {
    hide InFlight, LockFree, Permits;
  }

  lemma {:induction false} SendsKept(c: Client, s: State, a: Action)
    requires Enabled(c, s, a) && AllSend(c, s.calls)
    ensures AllSend(c, Apply(c, s, a).calls)
  {
    hide Apply, Enabled, Sends;
    if FromOutside(a) {
      CallsUntouched(c, s, a);
    } else {
      OneMoves(c, s, a);
      OneSends(c, s, a);
    }
  }

  /** What a step can do to the slot and to the lock. */
  lemma {:induction false} SlotMoves(c: Client, s: State, a: Action)
    requires Enabled(c, s, a)
    ensures var t := Apply(c, s, a);
            && (t.slot.Some? && t.slot != s.slot ==> a.StartOk?)
            && (t.taken != s.taken ==> a.Take?)
            && (a.Take? ==> t.taken && t.slot.None? && t.closed && t.calls == s.calls)
            && (s.closed ==> t.closed)
            && (!FromOutside(a) && t.calls[a.i].stage.Starting? ==> a.Look? && t.slot.None? && !s.closed)
            && (FromOutside(a) ==> t.calls == s.calls)
  {
    hide InFlight, LockFree, Permits;
  }

  lemma {:induction false} ExclusiveKept(c: Client, s: State, a: Action)
    requires Exclusive(s) && Enabled(c, s, a)
    ensures Exclusive(Apply(c, s, a))
  {
    hide InFlight, Permits;
    SlotMoves(c, s, a);
    if !FromOutside(a) {
      OneMoves(c, s, a);
      hide Apply;
    }
  }

  lemma {:induction false} InFlightKept(c: Client, s: State, a: Action)
    requires InFlight(s.calls) <= Permits(c) && Enabled(c, s, a)
    ensures InFlight(Apply(c, s, a).calls) <= Permits(c)
  {
    var t := Apply(c, s, a);
    if !FromOutside(a) {
      OneMoves(c, s, a);
      hide Apply, LockFree, Permits, Running;
      SumUpdate(s.calls, (c: Call) => if Running(c.stage) then 1 else 0, a.i, t.calls[a.i]);
    }
  }

  lemma {:induction false} NoneInFlight(calls: seq<Call>)
    requires forall i :: 0 <= i < |calls| ==> !Running(calls[i].stage)
    ensures InFlight(calls) == 0
  {
    if calls != [] {
      NoneInFlight(calls[1..]);
    }
  }

  lemma {:induction false} RunsKeepInv(c: Client, run: seq<Action>)
    requires After(c, run).Some?
    ensures Inv(c, After(c, run).value)
  {
    if run == [] {
      NoneInFlight(Initial(c).calls);
    } else {
      var before, a := run[..|run| - 1], run[|run| - 1];
      RunsKeepInv(c, before);
      var s := After(c, before).value;
      GenerationsKept(c, s, a);
      SendsKept(c, s, a);
      ExclusiveKept(c, s, a);
      InFlightKept(c, s, a);
    }
  }

  // ---------------------------------------------------------------------------------------------
  // Main results
  // ---------------------------------------------------------------------------------------------

  /** The generations of the sessions in the slot strictly increase; the slot holds the newest or nothing. */
  lemma {:induction false} GenerationsIncrease(c: Client, run: seq<Action>)
    requires After(c, run).Some?
    ensures var s := After(c, run).value;
            && Increasing(s.sessions)
            && (s.slot.Some? ==> s.sessions != [] && s.slot.value == s.sessions[|s.sessions| - 1])
  {
    hide InFlight;
    RunsKeepInv(c, run);
  }

  /**
   A look at the slot: after the shutdown flag the call is over; a session that lives is shared; otherwise
   the call holds the lock and starts one, with the slot empty.
   */
  lemma LookFindsLive(c: Client, s: State, i: nat)
    requires Enabled(c, s, Look(i))
    ensures var t := Apply(c, s, Look(i)); var stage := t.calls[i].stage;
            && (s.closed ==> stage.Over? && t.slot == s.slot)
            && (!s.closed && s.slot.Some? && s.slot.value !in s.dead ==> stage == Ready(s.slot.value) && t.slot == s.slot)
            && (!s.closed && (s.slot.None? || s.slot.value in s.dead) ==> stage.Starting? && t.slot.None?)
  {
  }

  /** A reset discards the session its caller saw fail, if it is still there, and never a newer one. */
  lemma {:induction false} ResetSparesNewer(c: Client, run: seq<Action>, i: nat)
    requires After(c, run).Some? && Enabled(c, After(c, run).value, Reset(i))
    ensures var s := After(c, run).value;
            var failed := s.calls[i].stage.generation;
            && (s.slot.Some? ==> failed <= s.slot.value)
            && Apply(c, s, Reset(i)).slot == (if s.slot.Some? && s.slot.value > failed then s.slot else None)
  {
    hide InFlight;
    RunsKeepInv(c, run);
  }

  /**
   A tool request is accepted at most once and tried at most twice; it is tried again only when the
   first try was not accepted. A page of a listing may be accepted twice, never more.
   */
  lemma {:induction false} AcceptedAtMostOnce(c: Client, run: seq<Action>, i: nat)
    requires After(c, run).Some? && i < |After(c, run).value.calls|
    ensures var call := After(c, run).value.calls[i];
            && call.attempts <= 2
            && (call.kind.Tool? ==> call.accepted <= 1)
            && call.accepted <= call.attempts
            && (call.kind.Tool? && call.accepted == 1 ==>
                  !call.stage.Ready? && !call.stage.Seeking? && !call.stage.Starting?)
  {
    hide InFlight;
    RunsKeepInv(c, run);
  }

  // ---------------------------------------------------------------------------------------------
  // When a call gives up
  // ---------------------------------------------------------------------------------------------

  /** No deadline, cancel, shutdown, failed start or other error ends the call. */
  predicate Undisturbed(run: seq<Action>, i: nat)
  {
    forall a :: a in run ==> a != Close && a != StartFail(i) && a != SendFail(i) && !(a.Cut? && a.i == i)
  }

  /** Both tries are used up, or a tool's request has been accepted and must not be sent again. */
  predicate NoTryLeft(call: Call)
  {
    call.attempts == 2 || (call.kind.Tool? && call.accepted == 1)
  }

  predicate KeepsTrying(call: Call, answered: bool)
  {
    && Sends(call)
    && (call.stage.Sent? ==> call.accepted >= 1)
    && (call.stage.Resetting? && !call.stage.again ==> NoTryLeft(call))
    && (call.stage.Over? ==> answered || NoTryLeft(call))
  }

  lemma OpenUntilClosed(c: Client, s: State, a: Action)
    requires Enabled(c, s, a)
    ensures Apply(c, s, a).closed == (s.closed || a.Close?)
  {
    hide InFlight, LockFree, Permits;
  }

  /** The call's own step, when nothing from outside ends it. */
  lemma OneKeepsTrying(c: Client, s: State, a: Action, answered: bool)
    requires Enabled(c, s, a) && !FromOutside(a) && !s.closed
    requires !a.StartFail? && !a.SendFail? && !a.Cut?
    requires KeepsTrying(s.calls[a.i], answered)
    ensures KeepsTrying(Apply(c, s, a).calls[a.i], answered || a.Respond?)
  {
    OneSends(c, s, a);
    hide InFlight, LockFree, Permits;
  }

  /**
   A call is not given up early: if nothing from outside ends it, it is over only when it was answered, or
   no try is left. So a request that never left the client is sent again, and so is a page.
   */
  lemma {:induction false} NoTryWasted(c: Client, run: seq<Action>, i: nat)
    requires After(c, run).Some? && Undisturbed(run, i) && i < |After(c, run).value.calls|
    ensures !After(c, run).value.closed
    ensures KeepsTrying(After(c, run).value.calls[i], Respond(i) in run)
  {
    hide Apply, Enabled, Sends, KeepsTrying;
    if run == [] {
      FirstTry(c, i);
    } else {
      var init, a := run[..|run| - 1], run[|run| - 1];
      var s := After(c, init).value;
      assert a in run && forall x :: x in run <==> x in init || x == a;
      SlotMoves(c, s, a);
      OpenUntilClosed(c, s, a);
      if FromOutside(a) {
        CallsUntouched(c, s, a);
        NoTryWasted(c, init, i);
      } else {
        OneMoves(c, s, a);
        NoTryWasted(c, init, i);
        if a.i == i {
          OneKeepsTrying(c, s, a, Respond(i) in init);
        }
      }
    }
  }

  lemma CallsUntouched(c: Client, s: State, a: Action)
    requires Enabled(c, s, a) && FromOutside(a)
    ensures Apply(c, s, a).calls == s.calls
  {
  }

  lemma FirstTry(c: Client, i: nat)
    requires i < |Initial(c).calls|
    ensures KeepsTrying(Initial(c).calls[i], false) && !Initial(c).closed
  {
  }

  lemma {:induction false} InFlightWithinPermits(c: Client, run: seq<Action>)
    requires After(c, run).Some?
    ensures InFlight(After(c, run).value.calls) <= Permits(c)
  {
    RunsKeepInv(c, run);
  }

  /** Once a shutdown has taken the slot it stays empty, and no server is being started, for good. */
  lemma {:induction false} ShutdownIsFinal(c: Client, run: seq<Action>, more: seq<Action>)
    requires After(c, run).Some? && After(c, run).value.taken && After(c, run + more).Some?
    ensures var s := After(c, run + more).value;
            s.taken && s.closed && s.slot.None? && LockFree(s.calls) && s.sessions == After(c, run).value.sessions
    decreases |more|
  {
    hide Inv, Apply, Enabled, Exclusive, LockFree;
    if more == [] {
      assert run + more == run;
      ShutState(c, run);
    } else {
      var m := |more| - 1;
      var before := run + more[..m];
      assert (run + more)[..|run + more| - 1] == before;
      ShutdownIsFinal(c, run, more[..m]);
      RunsKeepInv(c, before);
      StaysShut(c, After(c, before).value, more[m]);
      ShutState(c, run + more);
    }
  }

  lemma StaysShut(c: Client, s: State, a: Action)
    requires Inv(c, s) && s.taken && Enabled(c, s, a)
    ensures Apply(c, s, a).taken && Apply(c, s, a).sessions == s.sessions
  {
    hide InFlight, Permits, Generations, AllSend;
  }

  lemma ShutState(c: Client, run: seq<Action>)
    requires After(c, run).Some? && After(c, run).value.taken
    ensures After(c, run).value.closed && After(c, run).value.slot.None? && LockFree(After(c, run).value.calls)
  {
    RunsKeepInv(c, run);
    hide InFlight, Permits, Generations, AllSend, After;
  }

  /** The lock and the permits never block each other: some unfinished call can always take a step. */
  lemma {:induction false} NeverStuck(c: Client, run: seq<Action>, i: nat) returns (a: Action)
    requires After(c, run).Some? && i < |After(c, run).value.calls| && !After(c, run).value.calls[i].stage.Over?
    ensures Enabled(c, After(c, run).value, a)
    ensures !a.Drop? && !a.Close? && !a.Take? && !a.Cut? && !a.ResetTimeout?
  {
    RunsKeepInv(c, run);
    hide Inv;
    var s := After(c, run).value;
    if j: nat :| j < |s.calls| && s.calls[j].stage.Starting? {
      a := StartOk(j);
    } else if j: nat :| j < |s.calls| && Running(s.calls[j].stage) {
      var stage := s.calls[j].stage;
      a := if stage.Seeking? then Look(j) else if stage.Ready? then Accept(j)
           else if stage.Sent? then Respond(j) else Reset(j);
    } else {
      NoneInFlight(s.calls);
      a := Permit(i);
    }
  }

  /** The steps a call has left. */
  function Rank(call: Call): nat
  {
    var first := if call.retried then 0 else 5;
    match call.stage
    case Asking => 11
    case Seeking => 5 + first
    case Starting => 4 + first
    case Ready(_) => 3 + first
    case Sent(_) => 2 + first
    case Resetting(_, again) => if again then 6 else 1
    case Over => 0
  }

  predicate StepOf(a: Action, i: nat)
  {
    !FromOutside(a) && a.i == i
  }

  /** How many steps of the run are call `i`'s. */
  function StepsOf(run: seq<Action>, i: nat): nat
  {
    if run == [] then 0
    else StepsOf(run[..|run| - 1], i) + if StepOf(run[|run| - 1], i) then 1 else 0
  }

  lemma {:induction false} OneRankFalls(c: Client, s: State, a: Action)
    requires Enabled(c, s, a) && !FromOutside(a) && Sends(s.calls[a.i])
    ensures a.i < |s.calls| && Apply(c, s, a).calls == s.calls[a.i := Apply(c, s, a).calls[a.i]]
    ensures Rank(Apply(c, s, a).calls[a.i]) < Rank(s.calls[a.i])
  {
    hide Apply, Enabled, Sends, Rank;
    OneMoves(c, s, a);
    if a.Permit? || a.Look? || a.StartOk? || a.StartFail? {
      SeekingRankFalls(c, s, a);
    } else if a.Accept? || a.SendClosed? || a.SendFail? {
      TryingRankFalls(c, s, a);
    } else {
      EndingRankFalls(c, s, a);
    }
  }

  lemma SeekingRankFalls(c: Client, s: State, a: Action)
    requires Enabled(c, s, a) && (a.Permit? || a.Look? || a.StartOk? || a.StartFail?) && Sends(s.calls[a.i])
    ensures |Apply(c, s, a).calls| == |s.calls| && Rank(Apply(c, s, a).calls[a.i]) < Rank(s.calls[a.i])
  {
    hide InFlight, LockFree, Permits;
  }

  lemma TryingRankFalls(c: Client, s: State, a: Action)
    requires Enabled(c, s, a) && (a.Accept? || a.SendClosed? || a.SendFail?) && Sends(s.calls[a.i])
    ensures |Apply(c, s, a).calls| == |s.calls| && Rank(Apply(c, s, a).calls[a.i]) < Rank(s.calls[a.i])
  {
    hide InFlight, LockFree, Permits;
  }

  lemma EndingRankFalls(c: Client, s: State, a: Action)
    requires Enabled(c, s, a) && (a.Respond? || a.Lose? || a.Reset? || a.ResetTimeout? || a.Cut?) && Sends(s.calls[a.i])
    ensures |Apply(c, s, a).calls| == |s.calls| && Rank(Apply(c, s, a).calls[a.i]) < Rank(s.calls[a.i])
  {
    hide InFlight, LockFree, Permits;
  }

  lemma {:induction false} RankFalls(c: Client, s: State, a: Action, i: nat)
    requires Inv(c, s) && Enabled(c, s, a) && i < |s.calls|
    ensures |Apply(c, s, a).calls| == |s.calls|
    ensures Rank(Apply(c, s, a).calls[i]) + (if StepOf(a, i) then 1 else 0) <= Rank(s.calls[i])
  {
    hide InFlight, Generations, Exclusive, LockFree, Permits, Sends, Rank;
    SlotMoves(c, s, a);
    if !FromOutside(a) {
      OneRankFalls(c, s, a);
      hide Apply;
    }
  }

  /**
   Whatever drops and whoever cancels, each call takes at most eleven steps: nothing is retried forever.
   The rank of a call is what it has left.
   */
  lemma {:induction false} CallsAreShort(c: Client, run: seq<Action>, i: nat)
    requires After(c, run).Some? && i < |c.kinds|
    ensures |After(c, run).value.calls| == |c.kinds|
    ensures StepsOf(run, i) + Rank(After(c, run).value.calls[i]) <= 11
  {
    hide Rank, Inv, InFlight, Apply, Enabled;
    if run == [] {
      FirstRank(c, i);
    } else {
      var before := run[..|run| - 1];
      CallsAreShort(c, before, i);
      RunsKeepInv(c, before);
      RankFalls(c, After(c, before).value, run[|run| - 1], i);
    }
  }

  lemma FirstRank(c: Client, i: nat)
    requires i < |c.kinds|
    ensures |Initial(c).calls| == |c.kinds| && Rank(Initial(c).calls[i]) == 11
  {
  }
}
