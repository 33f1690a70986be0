/**
 The parallel tool batch of the agent loop, as a protocol over explicit atomic steps: the loop
 prepares the calls, hands slots to them in call order, polls them, and answers what an abort cut
 short; the blocking threads take their turn at the turnstile, pass their dispatch point and return.
 Any interleaving of these steps, with an abort at any moment, is a run.
 */
module ToolBatch {
  import opened Prelude

  const MIN_PARALLEL_TOOLS: nat := 1
  const MAX_PARALLEL_TOOLS: nat := 32

  datatype Output = Output(text: string, isError: bool, terminate: bool)

  /** What preparing a call decides: it may run (in turn, if `ordered`), or it is answered at once. */
  datatype Preparation = Ready(ordered: bool) | Refused(output: Output)

  /** `Detached` is the placeholder of a call that was handed to the background. */
  datatype Outcome = Ran(output: Output) | Immediate(output: Output) | NotRun | Unfinished | Detached

  datatype Event =
    | Started(call: nat)
    | Ended(call: nat, outcome: Outcome)
    | Reported(call: nat, outcome: Outcome)

  datatype Batch = Batch(calls: seq<Preparation>, cap: nat)

  /** Where a call's own execution is. `Queued` has a slot but no thread yet. */
  datatype Stage =
    | Idle
    | Queued(order: Option<nat>)
    | Parked(turn: nat)
    | Active(hook: Option<nat>)
    | Returned(output: Output)

  /** Where the loop's own code is. */
  datatype Phase =
    | Preparing(k: nat)
    | Deciding
    | Filling
    | Collecting
    | Answering(k: nat)
    | Reporting(k: nat)
    | Finished

  /**
   `turns[q]` is the call that got start number `q`, so `|turns|` is the launcher's `ordered_starts`;
   `next` is the turnstile; `passed` lists the ordered calls as they reached their dispatch point.
   */
  datatype State = State(
    phase: Phase,
    aborted: bool,
    prepared: set<nat>,
    waiting: seq<nat>,
    running: set<nat>,
    gate: Option<nat>,
    stage: seq<Stage>,
    finalized: seq<Option<Outcome>>,
    turns: seq<nat>,
    next: nat,
    passed: seq<nat>,
    log: seq<Event>)

  datatype Action =
    | Abort
    | Prepare
    | Decide
    | Launch(shedding: bool)
    | FillDone(shedding: bool)
    | Spawn(i: nat)
    | TakeTurn(i: nat)
    | Dispatch(i: nat)
    | Return(i: nat, output: Output)
    | Settle(i: nat)
    | Leave
    | GraceOver
    | Answer
    | Report

  function Limit(cap: nat): (limit: nat)
    ensures MIN_PARALLEL_TOOLS <= limit <= MAX_PARALLEL_TOOLS
    ensures MIN_PARALLEL_TOOLS <= cap <= MAX_PARALLEL_TOOLS ==> limit == cap
  {
    if cap < MIN_PARALLEL_TOOLS then MIN_PARALLEL_TOOLS
    else if MAX_PARALLEL_TOOLS < cap then MAX_PARALLEL_TOOLS
    else cap
  }

  function Init(b: Batch): State
  {
    State(Preparing(0), false, {}, [], {}, None,
          seq(|b.calls|, _ => Idle), seq(|b.calls|, _ => None), [], 0, [], [])
  }

  /** A slot can be taken; while the process sheds load the one-slot gate must be free too. */
  predicate SlotFree(b: Batch, s: State, shedding: bool)
  {
    |s.running| < Limit(b.cap) && (shedding ==> s.gate.None?)
  }

  predicate InBatch(b: Batch, s: State, i: nat)
  {
    i < |b.calls| && i < |s.stage| && i < |s.finalized|
  }

  predicate Enabled(b: Batch, s: State, a: Action)
  {
    match a
    case Abort => !s.aborted
    case Prepare => s.phase.Preparing? && (s.phase.k == |b.calls| || InBatch(b, s, s.phase.k))
    case Decide => s.phase.Deciding?
    case Launch(shedding) =>
      s.phase.Filling? && s.waiting != [] && InBatch(b, s, s.waiting[0]) &&
      b.calls[s.waiting[0]].Ready? && SlotFree(b, s, shedding)
    case FillDone(shedding) => s.phase.Filling? && (s.waiting == [] || !SlotFree(b, s, shedding))
    case Spawn(i) => s.phase.Collecting? && i in s.running && InBatch(b, s, i) && s.stage[i].Queued?
    case TakeTurn(i) => InBatch(b, s, i) && s.stage[i] == Parked(s.next)
    case Dispatch(i) => InBatch(b, s, i) && s.stage[i].Active? && s.stage[i].hook.Some?
    case Return(i, _) => InBatch(b, s, i) && s.stage[i] == Active(None)
    case Settle(i) => s.phase.Collecting? && i in s.running && InBatch(b, s, i) && s.stage[i].Returned?
    case Leave => s.phase.Collecting? && s.running == {}
    // The loop polls its running calls before the grace timer, so when the timer wins every
    // running call has its thread and none has a result ready.
    case GraceOver =>
      s.phase.Collecting? && s.aborted && s.running != {} &&
      forall i :: i in s.running ==> InBatch(b, s, i) && !s.stage[i].Queued? && !s.stage[i].Returned?
    case Answer => s.phase.Answering? && (s.phase.k == |b.calls| || InBatch(b, s, s.phase.k))
    case Report =>
      s.phase.Reporting? &&
      (s.phase.k == |b.calls| || (InBatch(b, s, s.phase.k) && s.finalized[s.phase.k].Some?))
  }

  function Finalize(s: State, i: nat, outcome: Outcome): State
    requires i < |s.finalized|
  {
    s.(finalized := s.finalized[i := Some(outcome)], log := s.log + [Ended(i, outcome)])
  }

  function PrepareStep(b: Batch, s: State): State
    requires Enabled(b, s, Prepare)
  {
    var k := s.phase.k;
    if k == |b.calls| then
      s.(phase := Deciding)
    else
      var started := s.(phase := Preparing(k + 1), log := s.log + [Started(k)]);
      if s.aborted then
        Finalize(started, k, NotRun)
      else
        match b.calls[k]
        case Refused(output) => Finalize(started, k, Immediate(output))
        case Ready(_) => started.(prepared := s.prepared + {k}, waiting := s.waiting + [k])
  }

  function LaunchStep(b: Batch, s: State, shedding: bool): State
    requires Enabled(b, s, Launch(shedding))
  {
    var i := s.waiting[0];
    var ordered := b.calls[i].ordered;
    s.(waiting := s.waiting[1..],
       running := s.running + {i},
       gate := if shedding then Some(i) else s.gate,
       stage := s.stage[i := Queued(if ordered then Some(|s.turns|) else None)],
       turns := if ordered then s.turns + [i] else s.turns)
  }

  function SettleStep(b: Batch, s: State, i: nat): State
    requires Enabled(b, s, Settle(i))
  {
    var settled := s.(phase := Deciding,
                      running := s.running - {i},
                      gate := if s.gate == Some(i) then None else s.gate);
    Finalize(settled, i, Ran(s.stage[i].output))
  }

  function AnswerStep(b: Batch, s: State): State
    requires Enabled(b, s, Answer)
  {
    var k := s.phase.k;
    if k == |b.calls| then
      s.(phase := Reporting(0))
    else if s.finalized[k].Some? then
      s.(phase := Answering(k + 1))
    else
      Finalize(s.(phase := Answering(k + 1)), k, if k in s.waiting then NotRun else Unfinished)
  }

  function ReportStep(b: Batch, s: State): State
    requires Enabled(b, s, Report)
  {
    var k := s.phase.k;
    if k == |b.calls| then
      s.(phase := Finished)
    else
      s.(phase := Reporting(k + 1), log := s.log + [Reported(k, s.finalized[k].value)])
  }

  function Apply(b: Batch, s: State, a: Action): State
    requires Enabled(b, s, a)
  {
    match a
    case Abort => s.(aborted := true)
    case Prepare => PrepareStep(b, s)
    case Decide => s.(phase := if s.aborted then Collecting else Filling)
    case Launch(shedding) => LaunchStep(b, s, shedding)
    case FillDone(_) => s.(phase := Collecting)
    case Spawn(i) =>
      s.(stage := s.stage[i := if s.stage[i].order.Some? then Parked(s.stage[i].order.value) else Active(None)])
    case TakeTurn(i) => s.(stage := s.stage[i := Active(Some(s.next))])
    case Dispatch(i) =>
      s.(stage := s.stage[i := Active(None)], next := s.stage[i].hook.value + 1, passed := s.passed + [i])
    case Return(i, output) => s.(stage := s.stage[i := Returned(output)])
    case Settle(i) => SettleStep(b, s, i)
    case Leave => s.(phase := Answering(0))
    case GraceOver => s.(phase := Answering(0), running := {}, gate := None)
    case Answer => AnswerStep(b, s)
    case Report => ReportStep(b, s)
  }

  /** The state after the steps of `run`, or `None` when one of them could not be taken. */
  function After(b: Batch, run: seq<Action>): Option<State>
  {
    if run == [] then Some(Init(b))
    else
      var a := run[|run| - 1];
      match After(b, run[..|run| - 1])
      case None => None
      case Some(s) => if Enabled(b, s, a) then Some(Apply(b, s, a)) else None
  }

  // ---------------------------------------------------------------------------------------------
  // Invariants
  // ---------------------------------------------------------------------------------------------

  /** How many calls the preparation loop has reached. */
  function Seen(b: Batch, s: State): nat
  {
    if s.phase.Preparing? then s.phase.k else |b.calls|
  }

  predicate Late(s: State)
  {
    s.phase.Answering? || s.phase.Reporting? || s.phase.Finished?
  }

  ghost predicate Shape(b: Batch, s: State)
  {
    && |s.stage| == |s.finalized| == |b.calls|
    && (s.phase.Preparing? || s.phase.Answering? || s.phase.Reporting? ==> s.phase.k <= |b.calls|)
    && (s.phase.Preparing? ==> s.running == {} && s.gate == None && s.turns == [])
    && (s.phase.Preparing? ==> forall i :: 0 <= i < |b.calls| ==> s.stage[i].Idle?)
    && (Late(s) ==> s.running == {} && s.gate == None)
  }

  /** The waiting calls are the prepared calls not launched yet; launches went in call order. */
  ghost predicate Queue(b: Batch, s: State)
    requires Shape(b, s)
  {
    && (forall i :: i in s.prepared ==> i < Seen(b, s) && b.calls[i].Ready?)
    && (forall x, y :: 0 <= x < y < |s.waiting| ==> s.waiting[x] < s.waiting[y])
    && (forall i :: i in s.waiting ==> i in s.prepared && i < |b.calls| && s.stage[i].Idle?)
    && (forall i :: 0 <= i < |b.calls| && i in s.prepared && s.stage[i].Idle? ==> i in s.waiting)
    && (forall i :: 0 <= i < |b.calls| && !s.stage[i].Idle? ==> i in s.prepared)
    && (forall i, x :: 0 <= i < |b.calls| && 0 <= x < |s.waiting| && !s.stage[i].Idle? ==> i < s.waiting[x])
  }

  /** The outcome says what really happened to the call. */
  ghost predicate Truthful(call: Preparation, stage: Stage, outcome: Outcome, aborted: bool)
  {
    match outcome
    case Ran(output) => stage == Returned(output)
    case Immediate(output) => call == Refused(output)
    case NotRun => stage.Idle? && aborted
    case Unfinished => !stage.Idle? && aborted
    case Detached => false
  }

  ghost predicate Settlement(b: Batch, s: State)
    requires Shape(b, s)
  {
    && (forall i :: 0 <= i < |b.calls| && s.finalized[i].Some? ==>
          Truthful(b.calls[i], s.stage[i], s.finalized[i].value, s.aborted))
    && (forall i :: i in s.running ==> i < |b.calls| && !s.stage[i].Idle? && s.finalized[i].None?)
    && (forall i :: 0 <= i < |b.calls| && i !in s.prepared ==> (s.finalized[i].Some? <==> i < Seen(b, s)))
    && (!Late(s) ==> forall i :: 0 <= i < |b.calls| && i in s.prepared ==>
          (s.finalized[i].None? <==> s.stage[i].Idle? || i in s.running))
    && (!Late(s) ==> forall i :: 0 <= i < |b.calls| ==> s.finalized[i] != Some(Unfinished))
    && (s.phase.Answering? ==> forall i :: 0 <= i < s.phase.k ==> s.finalized[i].Some?)
    && (s.phase.Reporting? || s.phase.Finished? ==> forall i :: 0 <= i < |b.calls| ==> s.finalized[i].Some?)
    && (Late(s) && !s.aborted ==> forall i :: 0 <= i < |b.calls| ==> s.finalized[i].Some?)
    && (Late(s) ==> forall i :: 0 <= i < |b.calls| ==> !s.stage[i].Queued?)
  }

  ghost predicate Slots(b: Batch, s: State)
  {
    && |s.running| <= Limit(b.cap)
    && (s.gate.Some? ==> s.gate.value in s.running)
    && (s.phase.Collecting? && !s.aborted ==> s.waiting == [] || s.running != {})
  }

  /** A call that has its start number but has not passed its dispatch point. */
  ghost predicate Holding(stage: Stage, q: nat, next: nat)
  {
    stage == Queued(Some(q)) || stage == Parked(q) || (q == next && stage == Active(Some(q)))
  }

  ghost predicate Past(stage: Stage)
  {
    stage == Active(None) || stage.Returned?
  }

  /** Start numbers follow call order, and the turnstile never skips or repeats one. */
  ghost predicate InTurn(calls: seq<Preparation>, stage: seq<Stage>, turns: seq<nat>, next: nat)
    requires |stage| == |calls|
  {
    && next <= |turns|
    && (forall q :: 0 <= q < |turns| ==> turns[q] < |calls| && calls[turns[q]] == Ready(true))
    && (forall p, q :: 0 <= p < q < |turns| ==> turns[p] < turns[q])
    && (forall q :: 0 <= q < next ==> Past(stage[turns[q]]))
    && (forall q :: next <= q < |turns| ==> Holding(stage[turns[q]], q, next))
    && (forall i: nat :: i < |calls| && !stage[i].Idle? && calls[i] == Ready(true) ==> i in turns)
    && (forall i: nat :: i < |calls| && !stage[i].Idle? && calls[i] != Ready(true) ==>
          stage[i] == Queued(None) || Past(stage[i]))
  }

  ghost predicate Turnstile(b: Batch, s: State)
    requires Shape(b, s)
  {
    InTurn(b.calls, s.stage, s.turns, s.next) && s.passed == s.turns[..s.next]
  }

  /** The calls started but not ended, as the pending-call set of a listener would hold them. */
  function Open(log: seq<Event>): set<nat>
  {
    if log == [] then {}
    else
      var before := Open(log[..|log| - 1]);
      match log[|log| - 1]
      case Started(i) => before + {i}
      case Ended(i, _) => before - {i}
      case Reported(_, _) => before
  }

  /** The result messages, in the order they were emitted. */
  function Reports(log: seq<Event>): seq<(nat, Outcome)>
  {
    if log == [] then []
    else
      var before := Reports(log[..|log| - 1]);
      match log[|log| - 1]
      case Reported(i, outcome) => before + [(i, outcome)]
      case _ => before
  }

  function Count(log: seq<Event>, e: Event): nat
  {
    multiset(log)[e]
  }

  function ReportedCount(b: Batch, s: State): nat
  {
    if s.phase.Reporting? then s.phase.k else if s.phase.Finished? then |b.calls| else 0
  }

  /** Every call has been started once if seen, ended once if finalized, and reported in order. */
  ghost predicate Fits(log: seq<Event>, seen: nat, finalized: seq<Option<Outcome>>, reported: nat)
  {
    && reported <= |finalized|
    && (forall i: nat :: Count(log, Started(i)) == (if i < seen then 1 else 0))
    && (forall i: nat, outcome :: Count(log, Ended(i, outcome)) ==
                                  (if i < |finalized| && finalized[i] == Some(outcome) then 1 else 0))
    && (forall i: nat :: i < |finalized| ==> (i in Open(log) <==> i < seen && finalized[i].None?))
    && (forall i :: i in Open(log) ==> i < |finalized|)
    && |Reports(log)| == reported
    && (forall i :: 0 <= i < reported ==> finalized[i].Some? && Reports(log)[i] == (i, finalized[i].value))
  }

  ghost predicate Logged(b: Batch, s: State)
    requires Shape(b, s)
  {
    Fits(s.log, Seen(b, s), s.finalized, ReportedCount(b, s))
  }

  ghost predicate Inv(b: Batch, s: State)
  {
    Shape(b, s) && Queue(b, s) && Settlement(b, s) && Slots(b, s) && Turnstile(b, s) && Logged(b, s)
  }

  lemma {:induction false} LogSnoc(log: seq<Event>, e: Event)
    ensures Open(log + [e]) == (if e.Started? then Open(log) + {e.call}
                                else if e.Ended? then Open(log) - {e.call} else Open(log))
    ensures Reports(log + [e]) == (if e.Reported? then Reports(log) + [(e.call, e.outcome)] else Reports(log))
    ensures forall x :: Count(log + [e], x) == Count(log, x) + (if x == e then 1 else 0)
  {
    assert (log + [e])[..|log|] == log;
  }

  lemma FitsStarted(log: seq<Event>, seen: nat, finalized: seq<Option<Outcome>>, reported: nat)
    requires Fits(log, seen, finalized, reported)
    requires seen < |finalized| && finalized[seen].None?
    ensures Fits(log + [Started(seen)], seen + 1, finalized, reported)
  {
    LogSnoc(log, Started(seen));
  }

  lemma FitsEnded(log: seq<Event>, seen: nat, finalized: seq<Option<Outcome>>, reported: nat,
                  i: nat, outcome: Outcome)
    requires Fits(log, seen, finalized, reported)
    requires i < seen && i < |finalized| && finalized[i].None?
    ensures Fits(log + [Ended(i, outcome)], seen, finalized[i := Some(outcome)], reported)
  {
    LogSnoc(log, Ended(i, outcome));
  }

  lemma FitsReported(log: seq<Event>, seen: nat, finalized: seq<Option<Outcome>>, reported: nat)
    requires Fits(log, seen, finalized, reported)
    requires reported < |finalized| && finalized[reported].Some?
    ensures Fits(log + [Reported(reported, finalized[reported].value)], seen, finalized, reported + 1)
  {
    LogSnoc(log, Reported(reported, finalized[reported].value));
  }

  lemma InTurnLaunch(calls: seq<Preparation>, stage: seq<Stage>, turns: seq<nat>, next: nat, i: nat)
    requires |stage| == |calls| && InTurn(calls, stage, turns, next)
    requires i < |calls| && stage[i].Idle? && calls[i].Ready?
    requires forall j: nat :: j < |calls| && !stage[j].Idle? ==> j < i
    ensures calls[i].ordered ==> InTurn(calls, stage[i := Queued(Some(|turns|))], turns + [i], next)
    ensures !calls[i].ordered ==> InTurn(calls, stage[i := Queued(None)], turns, next)
  {
    assert forall q :: 0 <= q < |turns| ==> !stage[turns[q]].Idle?;
    var after := turns + [i];
    assert after[|turns|] == i;
    assert forall j :: j in turns ==> j in after;
  }

  /** Spawning a thread, taking a turn or returning moves one call and leaves the turnstile alone. */
  lemma InTurnMove(calls: seq<Preparation>, stage: seq<Stage>, turns: seq<nat>, next: nat, i: nat, to: Stage)
    requires |stage| == |calls| && InTurn(calls, stage, turns, next) && i < |calls|
    requires
      || (stage[i].Queued? && to == if stage[i].order.Some? then Parked(stage[i].order.value) else Active(None))
      || (stage[i] == Parked(next) && to == Active(Some(next)))
      || (stage[i] == Active(None) && to.Returned?)
    ensures InTurn(calls, stage[i := to], turns, next)
  {
  }

  lemma InTurnDispatch(calls: seq<Preparation>, stage: seq<Stage>, turns: seq<nat>, next: nat, i: nat)
    requires |stage| == |calls| && InTurn(calls, stage, turns, next) && i < |calls|
    requires stage[i].Active? && stage[i].hook.Some?
    ensures stage[i].hook.value == next < |turns| && turns[next] == i
    ensures InTurn(calls, stage[i := Active(None)], turns, next + 1)
  {
    assert calls[i] == Ready(true);
    var q :| 0 <= q < |turns| && turns[q] == i;
    assert q == next;
  }

  lemma InitHolds(b: Batch)
    ensures Inv(b, Init(b))
  {
    assert Reports([]) == [];
    forall e ensures Count([], e) == 0 {}
  }

  lemma ShapeKept(b: Batch, s: State, a: Action)
    requires Shape(b, s) && Slots(b, s) && Enabled(b, s, a)
    ensures Shape(b, Apply(b, s, a))
  {
    hide Shape, Enabled, Slots;
    if OfThread(a) {
      ThreadKeepsShape(b, s, a);
    } else if a.Prepare? {
      PrepareKeepsShape(b, s);
    } else if a.Launch? {
      LaunchKeepsShape(b, s, a.shedding);
    } else {
      LoopKeepsShape(b, s, a);
    }
  }

  lemma PrepareKeepsShape(b: Batch, s: State)
    requires Shape(b, s) && Enabled(b, s, Prepare)
    ensures Shape(b, PrepareStep(b, s))
  {
  }

  lemma LaunchKeepsShape(b: Batch, s: State, shedding: bool)
    requires Shape(b, s) && Enabled(b, s, Launch(shedding))
    ensures Shape(b, LaunchStep(b, s, shedding))
  {
    LaunchFields(b, s, shedding);
    hide LaunchStep, Enabled;
  }

  lemma LoopKeepsShape(b: Batch, s: State, a: Action)
    requires Shape(b, s) && Slots(b, s) && Enabled(b, s, a) && !OfThread(a) && !a.Prepare? && !a.Launch?
    ensures Shape(b, Apply(b, s, a))
  {
  }

  lemma ThreadKeepsShape(b: Batch, s: State, a: Action)
    requires Shape(b, s) && Enabled(b, s, a) && OfThread(a)
    ensures Shape(b, Apply(b, s, a))
  {
    hide Apply, Enabled;
    ThreadMoves(b, s, a);
  }

  lemma LaunchQueue(b: Batch, s: State, shedding: bool)
    requires Shape(b, s) && Queue(b, s) && Enabled(b, s, Launch(shedding))
    ensures Shape(b, LaunchStep(b, s, shedding)) && Queue(b, LaunchStep(b, s, shedding))
  {
    hide LaunchStep, Enabled;
    LaunchFields(b, s, shedding);
    TailOfSorted(s.waiting);
    assert s.waiting[0] in s.waiting;
  }

  lemma TailOfSorted(s: seq<nat>)
    requires s != [] && forall x, y :: 0 <= x < y < |s| ==> s[x] < s[y]
    ensures forall x, y :: 0 <= x < y < |s[1..]| ==> s[1..][x] < s[1..][y]
    ensures forall i :: i in s[1..] <==> i in s && i != s[0]
    ensures forall x :: 0 <= x < |s[1..]| ==> s[0] < s[1..][x]
  {
    forall i | i in s && i != s[0] ensures i in s[1..] {
      var x :| 0 <= x < |s| && s[x] == i;
      assert s[1..][x - 1] == i;
    }
    forall i | i in s[1..] ensures i in s && i != s[0] {
      var x :| 0 <= x < |s[1..]| && s[1..][x] == i;
      assert s[x + 1] == i;
    }
  }

  lemma PrepareQueue(b: Batch, s: State)
    requires Shape(b, s) && Queue(b, s) && Enabled(b, s, Prepare)
    ensures Shape(b, PrepareStep(b, s)) && Queue(b, PrepareStep(b, s))
  {
    if s.phase.k < |b.calls| && !s.aborted && b.calls[s.phase.k].Ready? {
      PrepareWaits(b, s);
    } else {
      PreparePasses(b, s);
    }
  }

  /** A call that can run joins the end of the queue. */
  lemma PrepareWaits(b: Batch, s: State)
    requires Shape(b, s) && Queue(b, s) && Enabled(b, s, Prepare)
    requires s.phase.k < |b.calls| && !s.aborted && b.calls[s.phase.k].Ready?
    ensures Shape(b, PrepareStep(b, s)) && Queue(b, PrepareStep(b, s))
  {
    var k, longer := s.phase.k, s.waiting + [s.phase.k];
    assert longer[|s.waiting|] == k;
    forall x | 0 <= x < |s.waiting| ensures longer[x] == s.waiting[x] < k {
      assert s.waiting[x] in s.waiting;
    }
    forall i | i in longer ensures i in s.prepared + {k} && i < |b.calls| && s.stage[i].Idle? {
      assert i in s.waiting || i == k;
    }
    forall i | 0 <= i < |b.calls| && i in s.prepared + {k} ensures i in longer {
      if i != k {
        assert i in s.waiting;
      }
    }
    assert forall i :: 0 <= i < |b.calls| ==> s.stage[i].Idle?;
    PrepareFields(b, s);
    hide PrepareStep, Enabled;
  }

  lemma PrepareFields(b: Batch, s: State)
    requires Shape(b, s) && Enabled(b, s, Prepare)
    requires s.phase.k < |b.calls| && !s.aborted && b.calls[s.phase.k].Ready?
    ensures var t, k := PrepareStep(b, s), s.phase.k;
            && t.phase == Preparing(k + 1) && t.prepared == s.prepared + {k} && t.waiting == s.waiting + [k]
            && t.stage == s.stage && t.finalized == s.finalized && t.running == s.running && t.gate == s.gate
            && t.turns == s.turns && Seen(b, s) == k && Seen(b, t) == k + 1
  {
  }

  /** A call that was refused or came after the abort leaves the queue as it is. */
  lemma PreparePasses(b: Batch, s: State)
    requires Shape(b, s) && Queue(b, s) && Enabled(b, s, Prepare)
    requires !(s.phase.k < |b.calls| && !s.aborted && b.calls[s.phase.k].Ready?)
    ensures Shape(b, PrepareStep(b, s)) && Queue(b, PrepareStep(b, s))
  {
  }

  lemma QueueKept(b: Batch, s: State, a: Action)
    requires Shape(b, s) && Queue(b, s) && Slots(b, s) && Enabled(b, s, a)
    ensures Shape(b, Apply(b, s, a)) && Queue(b, Apply(b, s, a))
  {
    ShapeKept(b, s, a);
    match a
    case Prepare => PrepareQueue(b, s);
    case Launch(shedding) => LaunchQueue(b, s, shedding);
    case _ =>
      if OfThread(a) {
        ThreadQueue(b, s, a);
      } else {
        OtherQueue(b, s, a);
      }
  }

  predicate OfThread(a: Action)
  {
    a.Spawn? || a.TakeTurn? || a.Dispatch? || a.Return?
  }

  lemma ThreadQueue(b: Batch, s: State, a: Action)
    requires Shape(b, s) && Queue(b, s) && Enabled(b, s, a) && OfThread(a) && Shape(b, Apply(b, s, a))
    ensures Queue(b, Apply(b, s, a))
  {
    ThreadMoves(b, s, a);
    hide Apply, Enabled;
  }

  lemma OtherQueue(b: Batch, s: State, a: Action)
    requires Shape(b, s) && Queue(b, s) && Slots(b, s) && Enabled(b, s, a) && Shape(b, Apply(b, s, a))
    requires !OfThread(a) && !a.Prepare? && !a.Launch?
    ensures Queue(b, Apply(b, s, a))
  {
    hide SlotFree, Truthful;
  }

  lemma SlotsKept(b: Batch, s: State, a: Action)
    requires Shape(b, s) && Slots(b, s) && Enabled(b, s, a)
    ensures Slots(b, Apply(b, s, a))
  {
    if a.Launch? {
      LaunchFields(b, s, a.shedding);
      hide LaunchStep, SlotFree, Shape;
      assert |s.running| < Limit(b.cap) && |s.running + {s.waiting[0]}| <= |s.running| + 1 by {
        LaunchHasSlot(b, s, a.shedding);
      }
    } else if OfThread(a) {
      ThreadMoves(b, s, a);
      hide Apply, Enabled, Shape;
    } else {
      hide Shape, LaunchStep;
    }
  }

  lemma LaunchHasSlot(b: Batch, s: State, shedding: bool)
    requires Enabled(b, s, Launch(shedding))
    ensures s.waiting != [] && |s.running| < Limit(b.cap)
    ensures |s.running + {s.waiting[0]}| <= |s.running| + 1
  {
  }

  lemma TurnstileKept(b: Batch, s: State, a: Action)
    requires Shape(b, s) && Queue(b, s) && Slots(b, s) && Turnstile(b, s) && Enabled(b, s, a)
    ensures Shape(b, Apply(b, s, a)) && Turnstile(b, Apply(b, s, a))
  {
    ShapeKept(b, s, a);
    if a.Launch? {
      LaunchTurns(b, s, a.shedding);
    } else if OfThread(a) {
      ThreadTurns(b, s, a);
    } else {
      OthersTurnNothing(b, s, a);
      hide Apply, Enabled, InTurn;
    }
  }

  lemma LaunchTurns(b: Batch, s: State, shedding: bool)
    requires Shape(b, s) && Queue(b, s) && Turnstile(b, s) && Enabled(b, s, Launch(shedding))
    requires Shape(b, LaunchStep(b, s, shedding))
    ensures Turnstile(b, LaunchStep(b, s, shedding))
  {
    hide Queue, Shape, InTurn, LaunchStep, Enabled;
    ShapeSizes(b, s);
    LaunchFields(b, s, shedding);
    FirstIsNext(b, s);
    InTurnLaunch(b.calls, s.stage, s.turns, s.next, s.waiting[0]);
    TurnsBound(b.calls, s.stage, s.turns, s.next);
    assert (s.turns + [s.waiting[0]])[..s.next] == s.turns[..s.next];
  }

  lemma LaunchFields(b: Batch, s: State, shedding: bool)
    requires Shape(b, s) && Enabled(b, s, Launch(shedding))
    ensures s.waiting != [] && s.waiting[0] < |b.calls| && b.calls[s.waiting[0]].Ready?
    ensures var t, i := LaunchStep(b, s, shedding), s.waiting[0];
            && t.aborted == s.aborted && t.running == s.running + {i} && (t.gate == s.gate || t.gate == Some(i))
            && t.next == s.next && t.passed == s.passed && t.phase == s.phase == Filling && t.prepared == s.prepared
            && t.waiting == s.waiting[1..] && t.finalized == s.finalized && Seen(b, t) == Seen(b, s)
            && (b.calls[i].ordered ==> t.turns == s.turns + [i] && t.stage == s.stage[i := Queued(Some(|s.turns|))])
            && (!b.calls[i].ordered ==> t.turns == s.turns && t.stage == s.stage[i := Queued(None)])
  {
  }

  /** Everything launched comes before the first call that waits. */
  lemma FirstIsNext(b: Batch, s: State)
    requires Shape(b, s) && Queue(b, s) && s.waiting != []
    ensures s.waiting[0] < |b.calls| && s.stage[s.waiting[0]].Idle?
    ensures forall j: nat :: j < |b.calls| && !s.stage[j].Idle? ==> j < s.waiting[0]
  {
    assert s.waiting[0] in s.waiting;
  }

  lemma TurnsBound(calls: seq<Preparation>, stage: seq<Stage>, turns: seq<nat>, next: nat)
    requires |stage| == |calls| && InTurn(calls, stage, turns, next)
    ensures next <= |turns|
  {
  }

  lemma ThreadTurns(b: Batch, s: State, a: Action)
    requires Shape(b, s) && Turnstile(b, s) && Enabled(b, s, a) && OfThread(a) && Shape(b, Apply(b, s, a))
    ensures Turnstile(b, Apply(b, s, a))
  {
    hide InTurn, Shape;
    assert |s.stage| == |b.calls| by {
      ShapeSizes(b, s);
    }
    if a.Dispatch? {
      InTurnDispatch(b.calls, s.stage, s.turns, s.next, a.i);
      assert s.turns[..s.next + 1] == s.turns[..s.next] + [s.turns[s.next]];
    } else {
      InTurnMove(b.calls, s.stage, s.turns, s.next, a.i, Apply(b, s, a).stage[a.i]);
    }
  }

  lemma ShapeSizes(b: Batch, s: State)
    requires Shape(b, s)
    ensures |s.stage| == |s.finalized| == |b.calls|
  {
  }

  lemma OthersTurnNothing(b: Batch, s: State, a: Action)
    requires Enabled(b, s, a) && !a.Launch? && !OfThread(a)
    ensures var t := Apply(b, s, a); t.stage == s.stage && t.turns == s.turns && t.next == s.next && t.passed == s.passed
  {
  }

  lemma LoggedKept(b: Batch, s: State, a: Action)
    requires Shape(b, s) && Settlement(b, s) && Slots(b, s) && Logged(b, s) && Enabled(b, s, a)
    ensures Shape(b, Apply(b, s, a)) && Logged(b, Apply(b, s, a))
  {
    ShapeKept(b, s, a);
    match a
    case Prepare => PrepareLogged(b, s);
    case Settle(i) => SettleLogged(b, s, i);
    case Answer => AnswerLogged(b, s);
    case Report => ReportLogged(b, s);
    case _ => OthersLogNothing(b, s, a);
  }

  lemma PrepareLogged(b: Batch, s: State)
    requires Shape(b, s) && Settlement(b, s) && Logged(b, s) && Enabled(b, s, Prepare) && Shape(b, PrepareStep(b, s))
    ensures Logged(b, PrepareStep(b, s))
  {
    hide Fits, Truthful;
    var s' := PrepareStep(b, s);
    var seen, reported := Seen(b, s), ReportedCount(b, s);
    if s.phase.k < |b.calls| {
      FitsStarted(s.log, seen, s.finalized, reported);
      if s'.finalized[s.phase.k].Some? {
        FitsEnded(s.log + [Started(seen)], seen + 1, s.finalized, reported, seen, s'.finalized[seen].value);
      }
    }
  }

  lemma SettleLogged(b: Batch, s: State, i: nat)
    requires Shape(b, s) && Settlement(b, s) && Logged(b, s) && Enabled(b, s, Settle(i)) && Shape(b, SettleStep(b, s, i))
    ensures Logged(b, SettleStep(b, s, i))
  {
    hide Fits, Truthful;
    FitsEnded(s.log, Seen(b, s), s.finalized, ReportedCount(b, s), i, Ran(s.stage[i].output));
  }

  lemma AnswerLogged(b: Batch, s: State)
    requires Shape(b, s) && Settlement(b, s) && Logged(b, s) && Enabled(b, s, Answer) && Shape(b, AnswerStep(b, s))
    ensures Logged(b, AnswerStep(b, s))
  {
    hide Fits, Truthful;
    if s.phase.k < |b.calls| && s.finalized[s.phase.k].None? {
      FitsEnded(s.log, Seen(b, s), s.finalized, ReportedCount(b, s), s.phase.k,
                AnswerStep(b, s).finalized[s.phase.k].value);
    }
  }

  lemma ReportLogged(b: Batch, s: State)
    requires Shape(b, s) && Settlement(b, s) && Logged(b, s) && Enabled(b, s, Report) && Shape(b, ReportStep(b, s))
    ensures Logged(b, ReportStep(b, s))
  {
    hide Fits, Truthful;
    if s.phase.k < |b.calls| {
      FitsReported(s.log, Seen(b, s), s.finalized, ReportedCount(b, s));
    }
  }

  lemma OthersLogNothing(b: Batch, s: State, a: Action)
    requires Shape(b, s) && Logged(b, s) && Enabled(b, s, a) && Shape(b, Apply(b, s, a))
    requires !a.Prepare? && !a.Settle? && !a.Answer? && !a.Report?
    ensures Logged(b, Apply(b, s, a))
  {
    hide Fits;
  }

  lemma PrepareSettles(b: Batch, s: State)
    requires Shape(b, s) && Queue(b, s) && Settlement(b, s) && Enabled(b, s, Prepare)
    ensures Shape(b, PrepareStep(b, s)) && Settlement(b, PrepareStep(b, s))
  {
    if s.phase.k < |b.calls| && !s.aborted && b.calls[s.phase.k].Ready? {
      PrepareFields(b, s);
      hide PrepareStep, Enabled;
    } else {
      AnsweredAtOnce(b, s);
      hide PrepareStep, Enabled;
    }
  }

  lemma AnsweredAtOnce(b: Batch, s: State)
    requires Shape(b, s) && Enabled(b, s, Prepare)
    requires !(s.phase.k < |b.calls| && !s.aborted && b.calls[s.phase.k].Ready?)
    ensures var t, k := PrepareStep(b, s), s.phase.k;
            && t.aborted == s.aborted && t.prepared == s.prepared && t.stage == s.stage && t.running == s.running
            && t.gate == s.gate && t.turns == s.turns && t.waiting == s.waiting
            && (k == |b.calls| ==> t.phase == Deciding && t.finalized == s.finalized)
            && (k < |b.calls| ==>
                  t.phase == Preparing(k + 1) &&
                  t.finalized == s.finalized[k := Some(if s.aborted then NotRun else Immediate(b.calls[k].output))])
  {
  }

  lemma LaunchSettles(b: Batch, s: State, shedding: bool)
    requires Shape(b, s) && Queue(b, s) && Settlement(b, s) && Enabled(b, s, Launch(shedding))
    ensures Shape(b, LaunchStep(b, s, shedding)) && Settlement(b, LaunchStep(b, s, shedding))
  {
    assert s.waiting[0] in s.waiting;
    assert s.waiting[0] in s.prepared;
    LaunchFields(b, s, shedding);
    hide LaunchStep, Enabled;
  }

  lemma SettleSettles(b: Batch, s: State, i: nat)
    requires Shape(b, s) && Queue(b, s) && Settlement(b, s) && Enabled(b, s, Settle(i))
    ensures Shape(b, SettleStep(b, s, i)) && Settlement(b, SettleStep(b, s, i))
  {
  }

  lemma AnswerSettles(b: Batch, s: State)
    requires Shape(b, s) && Queue(b, s) && Settlement(b, s) && Enabled(b, s, Answer)
    ensures Shape(b, AnswerStep(b, s)) && Settlement(b, AnswerStep(b, s))
  {
  }

  lemma ThreadSettles(b: Batch, s: State, a: Action)
    requires Shape(b, s) && Queue(b, s) && Settlement(b, s) && Enabled(b, s, a)
    requires OfThread(a)
    ensures Shape(b, Apply(b, s, a)) && Settlement(b, Apply(b, s, a))
  {
    var stage := Apply(b, s, a).stage[a.i];
    hide Apply;
    StageSettles(b, s, a.i, stage);
    var moved := s.(stage := s.stage[a.i := stage]);
    assert Apply(b, s, a) == moved.(next := Apply(b, s, a).next, passed := Apply(b, s, a).passed) by {
      ThreadMoves(b, s, a);
    }
  }

  /** A thread's step changes its own stage, the turnstile and the dispatch list. */
  lemma ThreadMoves(b: Batch, s: State, a: Action)
    requires Shape(b, s) && Enabled(b, s, a) && OfThread(a)
    ensures |s.stage| == |Apply(b, s, a).stage| && a.i < |s.stage| && !s.stage[a.i].Idle?
    ensures !Apply(b, s, a).stage[a.i].Idle? && !Apply(b, s, a).stage[a.i].Queued? && !s.stage[a.i].Returned?
    ensures Apply(b, s, a) == s.(stage := s.stage[a.i := Apply(b, s, a).stage[a.i]], next := Apply(b, s, a).next,
                                 passed := Apply(b, s, a).passed)
  {
  }

  lemma StageSettles(b: Batch, s: State, i: nat, stage: Stage)
    requires Shape(b, s) && Settlement(b, s) && i < |b.calls| && !s.stage[i].Idle? && !stage.Idle? && !stage.Queued?
    requires s.finalized[i].Some? ==> Truthful(b.calls[i], stage, s.finalized[i].value, s.aborted)
    requires !s.phase.Preparing?
    ensures var moved := s.(stage := s.stage[i := stage]); Shape(b, moved) && Settlement(b, moved)
  {
  }

  lemma LeaveSettles(b: Batch, s: State, a: Action)
    requires Shape(b, s) && Queue(b, s) && Settlement(b, s) && Slots(b, s) && Enabled(b, s, a)
    requires a.Leave? || a.GraceOver?
    ensures Shape(b, Apply(b, s, a)) && Settlement(b, Apply(b, s, a))
  {
    forall i: nat | i < |b.calls| ensures !s.stage[i].Queued? && (!s.aborted ==> s.finalized[i].Some?) {
      if i in s.prepared {
        assert s.finalized[i].None? <==> s.stage[i].Idle? || i in s.running;
        assert s.stage[i].Idle? ==> i in s.waiting;
      }
    }
  }

  lemma PhaseSettles(b: Batch, s: State, a: Action)
    requires Shape(b, s) && Queue(b, s) && Settlement(b, s) && Enabled(b, s, a)
    requires a.Abort? || a.Decide? || a.FillDone? || a.Report?
    ensures Shape(b, Apply(b, s, a)) && Settlement(b, Apply(b, s, a))
  {
  }

  lemma SettlementKept(b: Batch, s: State, a: Action)
    requires Shape(b, s) && Queue(b, s) && Settlement(b, s) && Slots(b, s) && Enabled(b, s, a)
    ensures Shape(b, Apply(b, s, a)) && Settlement(b, Apply(b, s, a))
  {
    match a
    case Prepare => PrepareSettles(b, s);
    case Launch(shedding) => LaunchSettles(b, s, shedding);
    case Settle(i) => SettleSettles(b, s, i);
    case Answer => AnswerSettles(b, s);
    case Spawn(_) => ThreadSettles(b, s, a);
    case TakeTurn(_) => ThreadSettles(b, s, a);
    case Dispatch(_) => ThreadSettles(b, s, a);
    case Return(_, _) => ThreadSettles(b, s, a);
    case Leave => LeaveSettles(b, s, a);
    case GraceOver => LeaveSettles(b, s, a);
    case _ => PhaseSettles(b, s, a);
  }

  lemma Step(b: Batch, s: State, a: Action)
    requires Inv(b, s) && Enabled(b, s, a)
    ensures Inv(b, Apply(b, s, a))
  {
    QueueKept(b, s, a);
    SettlementKept(b, s, a);
    SlotsKept(b, s, a);
    TurnstileKept(b, s, a);
    LoggedKept(b, s, a);
  }

  lemma {:induction false} Reachable(b: Batch, run: seq<Action>)
    requires After(b, run).Some?
    ensures Inv(b, After(b, run).value)
  {
    if run == [] {
      InitHolds(b);
    } else {
      Reachable(b, run[..|run| - 1]);
      Step(b, After(b, run[..|run| - 1]).value, run[|run| - 1]);
    }
  }

  // ---------------------------------------------------------------------------------------------
  // What every run of a batch guarantees
  // ---------------------------------------------------------------------------------------------

  /** The log of a batch of `n` calls whose results are `outcomes`: one start, one end and one result each. */
  ghost predicate Complete(log: seq<Event>, outcomes: seq<Outcome>)
  {
    && Open(log) == {}
    && |Reports(log)| == |outcomes|
    && (forall i :: 0 <= i < |outcomes| ==> Reports(log)[i] == (i, outcomes[i]))
    && (forall i: nat :: Count(log, Started(i)) == (if i < |outcomes| then 1 else 0))
    && (forall i: nat, o :: Count(log, Ended(i, o)) == (if i < |outcomes| && outcomes[i] == o then 1 else 0))
  }

  function Outcomes(s: State): seq<Outcome>
    requires forall i :: 0 <= i < |s.finalized| ==> s.finalized[i].Some?
  {
    seq(|s.finalized|, i requires 0 <= i < |s.finalized| => s.finalized[i].value)
  }

  /**
   Every schedule, cap and abort moment: a finished batch started, ended and reported each call
   exactly once, results in call order, and no outcome misreports what the call did.
   */
  lemma {:induction false} EveryCallAnswered(b: Batch, run: seq<Action>, s: State)
    requires After(b, run) == Some(s) && s.phase.Finished?
    ensures |s.finalized| == |s.stage| == |b.calls|
    ensures forall i :: 0 <= i < |b.calls| ==> s.finalized[i].Some?
    ensures Complete(s.log, Outcomes(s))
    ensures forall i :: 0 <= i < |b.calls| ==> Truthful(b.calls[i], s.stage[i], Outcomes(s)[i], s.aborted)
    ensures !s.aborted ==> forall i :: 0 <= i < |b.calls| ==>
              (b.calls[i].Refused? <==> Outcomes(s)[i].Immediate?) && (b.calls[i].Ready? <==> Outcomes(s)[i].Ran?)
  {
    Reachable(b, run);
    assert forall i :: i in Open(s.log) ==> false;
  }

  /** Slots are never oversubscribed and are given out in call order, without skipping a prepared call. */
  lemma {:induction false} LaunchesArePrefix(b: Batch, run: seq<Action>, s: State)
    requires After(b, run) == Some(s)
    ensures |s.running| <= Limit(b.cap)
    ensures |s.stage| == |b.calls|
    ensures forall i, j :: 0 <= i < j < |b.calls| && i in s.prepared && !s.stage[j].Idle? ==> !s.stage[i].Idle?
  {
    Reachable(b, run);
    forall i, j | 0 <= i < j < |b.calls| && i in s.prepared && !s.stage[j].Idle? ensures !s.stage[i].Idle? {
      assert s.stage[i].Idle? ==> i in s.waiting;
    }
  }

  /** The call has taken its turn and not yet reached its dispatch point. */
  predicate HasTurn(stage: Stage)
  {
    stage.Active? && stage.hook.Some?
  }

  /**
   Ordered calls reach their dispatch points in call order, one at a time: between taking its turn
   and its dispatch point a call is alone, and everything before it has passed.
   */
  lemma {:induction false} DispatchesInCallOrder(b: Batch, run: seq<Action>, s: State)
    requires After(b, run) == Some(s)
    ensures |s.stage| == |b.calls|
    ensures forall p, q :: 0 <= p < q < |s.passed| ==> s.passed[p] < s.passed[q]
    ensures forall i, j :: 0 <= i < |b.calls| && 0 <= j < |b.calls| && HasTurn(s.stage[i]) && HasTurn(s.stage[j]) ==> i == j
    ensures forall i, j :: 0 <= i < j < |b.calls| && i in s.prepared && b.calls[i] == b.calls[j] == Ready(true) ==>
              (j in s.passed || HasTurn(s.stage[j]) ==> i in s.passed)
  {
    hide Settlement, Logged, Slots, Apply, Enabled, InTurn;
    Reachable(b, run);
    LaunchesArePrefix(b, run, s);
    hide After, Queue;
    PassedInOrder(b.calls, s.stage, s.turns, s.next);
    OneHasTurn(b.calls, s.stage, s.turns, s.next);
    forall i, j | 0 <= i < j < |b.calls| && i in s.prepared && b.calls[i] == b.calls[j] == Ready(true) &&
                  (j in s.passed || HasTurn(s.stage[j]))
      ensures i in s.passed
    {
      LaterHasTurn(b.calls, s.stage, s.turns, s.next, i, j);
    }
  }

  lemma PassedInOrder(calls: seq<Preparation>, stage: seq<Stage>, turns: seq<nat>, next: nat)
    requires |stage| == |calls| && InTurn(calls, stage, turns, next)
    ensures next <= |turns| && forall p, q :: 0 <= p < q < next ==> turns[p] < turns[q]
  {
  }

  lemma OneHasTurn(calls: seq<Preparation>, stage: seq<Stage>, turns: seq<nat>, next: nat)
    requires |stage| == |calls| && InTurn(calls, stage, turns, next)
    ensures forall i, j :: 0 <= i < |calls| && 0 <= j < |calls| && HasTurn(stage[i]) && HasTurn(stage[j]) ==> i == j
  {
    forall i: nat | i < |calls| && HasTurn(stage[i])
      ensures next < |turns| && turns[next] == i
    {
      InTurnDispatch(calls, stage, turns, next, i);
    }
  }

  /** Whoever has its turn or has passed leaves no earlier launched call behind. */
  lemma LaterHasTurn(calls: seq<Preparation>, stage: seq<Stage>, turns: seq<nat>, next: nat, i: nat, j: nat)
    requires |stage| == |calls| && InTurn(calls, stage, turns, next) && i < j < |calls|
    requires calls[i] == calls[j] == Ready(true) && (!stage[j].Idle? ==> !stage[i].Idle?)
    requires j in turns[..next] || HasTurn(stage[j])
    ensures i in turns[..next]
  {
    assert !stage[j].Idle?;
    var q :| 0 <= q < |turns| && turns[q] == j && q <= next;
    var p :| 0 <= p < |turns| && turns[p] == i;
    assert turns[..next][p] == i;
  }

  /** The turnstile only ever moves on by one, and only at the dispatch point of the call whose turn it is. */
  lemma {:induction false} TurnstileMovesByOne(b: Batch, run: seq<Action>, s: State, a: Action)
    requires After(b, run) == Some(s) && Enabled(b, s, a)
    ensures Apply(b, s, a).next == if a.Dispatch? then s.next + 1 else s.next
    ensures a.Dispatch? ==> s.next < |s.turns| && s.turns[s.next] == a.i
  {
    Reachable(b, run);
    if a.Dispatch? {
      InTurnDispatch(b.calls, s.stage, s.turns, s.next, a.i);
    }
  }

  /** The calls that have a thread, or a slot to get one; the grace period abandons threads, it does not end them. */
  function Live(stage: seq<Stage>): set<nat>
  {
    set i: nat | i < |stage| && (stage[i].Queued? || stage[i].Parked? || stage[i].Active?)
  }

  lemma {:induction false} Within(a: set<nat>, b: set<nat>)
    requires a <= b
    ensures |a| <= |b|
  {
    if a != {} {
      var x :| x in a;
      Within(a - {x}, b - {x});
    }
  }

  /** Until the batch is given up, whoever is live has a slot. */
  lemma LiveHaveSlots(b: Batch, s: State)
    requires Shape(b, s) && Queue(b, s) && Settlement(b, s) && !Late(s)
    ensures Live(s.stage) <= s.running
  {
    forall i | i in Live(s.stage) ensures i in s.running {
      assert i in s.prepared;
      if s.finalized[i].Some? {
        assert Truthful(b.calls[i], s.stage[i], s.finalized[i].value, s.aborted);
      }
    }
  }

  /** Afterwards nobody comes to life. */
  lemma LiveShrink(b: Batch, s: State, a: Action)
    requires Shape(b, s) && Enabled(b, s, a) && Late(Apply(b, s, a))
    ensures Live(Apply(b, s, a).stage) <= Live(s.stage)
  {
    if OfThread(a) {
      ThreadMoves(b, s, a);
      hide Apply;
    }
  }

  /** Threads never outnumber the slots: not while the batch runs, nor when the grace period has abandoned some. */
  lemma {:induction false} ThreadsWithinLimit(b: Batch, run: seq<Action>, s: State)
    requires After(b, run) == Some(s)
    ensures |Live(s.stage)| <= Limit(b.cap)
  {
    hide Logged, Turnstile, Queue, Settlement, Apply, Enabled, Live;
    Reachable(b, run);
    if !Late(s) {
      LiveHaveSlots(b, s);
      Within(Live(s.stage), s.running);
    } else if run != [] {
      var before := After(b, run[..|run| - 1]).value;
      ThreadsWithinLimit(b, run[..|run| - 1], before);
      Reachable(b, run[..|run| - 1]);
      LiveShrink(b, before, run[|run| - 1]);
      Within(Live(s.stage), Live(before.stage));
    }
  }

  // ---------------------------------------------------------------------------------------------
  // After an abort
  // ---------------------------------------------------------------------------------------------

  /** A step after the abort and outside a fill starts no call, prepares none, and leads into no fill. */
  lemma StepAfterAbort(b: Batch, s: State, a: Action)
    requires Shape(b, s) && s.aborted && !s.phase.Filling? && Enabled(b, s, a)
    ensures var t := Apply(b, s, a);
            && t.aborted && !t.phase.Filling? && |t.stage| == |s.stage| && t.prepared == s.prepared
            && forall i :: 0 <= i < |b.calls| && s.stage[i].Idle? ==> t.stage[i].Idle?
  {
    if OfThread(a) {
      ThreadMoves(b, s, a);
      hide Apply, Enabled;
    }
  }

  /** What was answered stays answered the same way; a call that has no stage is answered "not run". */
  lemma AnsweredAfterAbort(b: Batch, s: State, a: Action, i: nat)
    requires Shape(b, s) && Queue(b, s) && Settlement(b, s) && s.aborted && Enabled(b, s, a)
    requires i < |b.calls| && s.stage[i].Idle?
    ensures var t := Apply(b, s, a);
            |t.finalized| == |b.calls| &&
            (if s.finalized[i].Some? then t.finalized[i] == s.finalized[i]
             else t.finalized[i].None? || t.finalized[i] == Some(NotRun))
  {
    if OfThread(a) {
      ThreadMoves(b, s, a);
      hide Apply, Enabled;
    }
  }

  /**
   An abort stops the batch: from any state after it, outside a fill, whatever happens next prepares no
   further call and starts none. In the end each call that has not been started is answered as it was by
   then or with "not run"; so a call that could have run was not.
   */
  lemma {:induction false} AbortStopsStarts(b: Batch, run: seq<Action>, more: seq<Action>, s: State, t: State)
    requires After(b, run) == Some(s) && s.aborted && !s.phase.Filling? && After(b, run + more) == Some(t)
    ensures |s.stage| == |t.stage| == |s.finalized| == |t.finalized| == |b.calls|
    ensures t.aborted && !t.phase.Filling? && t.prepared == s.prepared
    ensures forall i :: 0 <= i < |b.calls| && s.stage[i].Idle? ==>
              && t.stage[i].Idle?
              && (if s.finalized[i].Some? then t.finalized[i] == s.finalized[i]
                  else t.finalized[i].None? || t.finalized[i] == Some(NotRun))
              && (t.phase.Finished? ==> t.finalized[i].Some? && (b.calls[i].Ready? ==> t.finalized[i] == Some(NotRun)))
    decreases |more|
  {
    hide Apply, Enabled, Slots, Turnstile, Logged;
    Reachable(b, run);
    Reachable(b, run + more);
    if more == [] {
      assert run + more == run;
    } else {
      var k := |more| - 1;
      var before := run + more[..k];
      assert (run + more)[..|run + more| - 1] == before;
      var u := After(b, before).value;
      AbortStopsStarts(b, run, more[..k], s, u);
      Reachable(b, before);
      StepAfterAbort(b, u, more[k]);
      hide After;
      forall i: nat | i < |b.calls| && s.stage[i].Idle?
        ensures if s.finalized[i].Some? then t.finalized[i] == s.finalized[i]
                else t.finalized[i].None? || t.finalized[i] == Some(NotRun)
      {
        AnsweredAfterAbort(b, u, more[k], i);
      }
    }
    hide Queue;
    FinishedAnswers(b, t);
  }

  lemma FinishedAnswers(b: Batch, t: State)
    requires Shape(b, t) && Settlement(b, t)
    ensures t.phase.Finished? ==>
              forall i :: 0 <= i < |b.calls| && t.stage[i].Idle? ==>
                t.finalized[i].Some? && (b.calls[i].Ready? ==> t.finalized[i] == Some(NotRun))
  {
  }

  /** Only a fill that the abort meets half way goes on: its next call is started although the abort came first. */
  lemma {:induction false} FillGoesOn(b: Batch, run: seq<Action>, s: State, shedding: bool)
    requires After(b, run) == Some(s) && Enabled(b, s, Launch(shedding)) && !s.aborted
    ensures var t := After(b, run + [Abort] + [Launch(shedding)]);
            && t.Some? && t.value.aborted && |s.stage| == |t.value.stage| == |b.calls| && s.waiting[0] < |b.calls|
            && s.stage[s.waiting[0]].Idle? && t.value.stage[s.waiting[0]].Queued?
  {
    hide After;
    Reachable(b, run);
    hide Slots, Turnstile, Logged, Settlement;
    assert s.waiting[0] in s.waiting;
    AfterSnoc(b, run, Abort);
    AfterSnoc(b, run + [Abort], Launch(shedding));
  }

  /**
   A call is answered as unfinished only if its result was not in when the loop stopped waiting: at that
   step of the run it had a slot and its thread had not returned.
   */
  lemma {:induction false} UnfinishedHadNotReturned(b: Batch, run: seq<Action>, s: State, i: nat)
    requires After(b, run) == Some(s) && i < |b.calls|
    ensures |s.finalized| == |s.stage| == |b.calls|
    ensures s.finalized[i] == Some(Unfinished) ==> exists k: nat :: GaveUpAt(b, run, k, i)
    ensures Late(s) && s.finalized[i].None? && !s.stage[i].Idle? ==> exists k: nat :: GaveUpAt(b, run, k, i)
  {
    hide Apply, Enabled, Turnstile, Logged, Queue, Slots;
    Reachable(b, run);
    if run != [] {
      var init, a := run[..|run| - 1], run[|run| - 1];
      var before := After(b, init).value;
      Reachable(b, init);
      UnfinishedHadNotReturned(b, init, before, i);
      if k: nat :| GaveUpAt(b, init, k, i) {
        assert run[..k] == init[..k];
        assert GaveUpAt(b, run, k, i);
      } else {
        UnfinishedArises(b, before, a, i);
        if a == GraceOver && i in before.running && !before.stage[i].Returned? {
          assert GaveUpAt(b, run, |init|, i);
        }
      }
    }
  }

  /** At step `k` the loop gave up waiting for call `i`, whose thread had not returned. */
  ghost predicate GaveUpAt(b: Batch, run: seq<Action>, k: nat, i: nat)
  {
    && k < |run| && run[k] == GraceOver && After(b, run[..k]).Some?
    && var s := After(b, run[..k]).value;
       i in s.running && i < |s.stage| && !s.stage[i].Idle? && !s.stage[i].Returned?
  }

  /** A call that was not answered late, and is not given up in this step, is not answered late by it. */
  lemma UnfinishedArises(b: Batch, s: State, a: Action, i: nat)
    requires Shape(b, s) && Queue(b, s) && Settlement(b, s) && Enabled(b, s, a) && i < |b.calls|
    requires s.finalized[i] != Some(Unfinished) && !(Late(s) && s.finalized[i].None? && !s.stage[i].Idle?)
    requires Shape(b, Apply(b, s, a))
    ensures Apply(b, s, a).finalized[i] == Some(Unfinished) ||
            (Late(Apply(b, s, a)) && Apply(b, s, a).finalized[i].None? && !Apply(b, s, a).stage[i].Idle?) ==>
              a == GraceOver && i in s.running && !s.stage[i].Idle? && !s.stage[i].Returned?
  {
    if OfThread(a) {
      ThreadMoves(b, s, a);
      hide Apply, Enabled;
    } else {
      hide SlotFree, LaunchStep;
    }
  }

  // ---------------------------------------------------------------------------------------------
  // How the slots are used
  // ---------------------------------------------------------------------------------------------

  predicate NeverSheds(run: seq<Action>)
  {
    Launch(true) !in run && FillDone(true) !in run
  }

  /** While the loop waits, a call waits only because every slot is taken; unless load is shed, or after an abort. */
  lemma {:induction false} SlotsAreUsed(b: Batch, run: seq<Action>, s: State)
    requires After(b, run) == Some(s) && NeverSheds(run) && s.phase.Collecting? && !s.aborted
    ensures s.waiting == [] || |s.running| == Limit(b.cap)
  {
    hide Queue, Settlement, Turnstile, Logged;
    Reachable(b, run);
    assert run != [];
    var init, a := run[..|run| - 1], run[|run| - 1];
    var before := After(b, init).value;
    Reachable(b, init);
    if before.phase.Collecting? {
      SlotsAreUsed(b, init, before);
      StaysCollecting(b, before, a);
    } else {
      assert a in run;
      EntersCollecting(b, before, a);
    }
  }

  lemma StaysCollecting(b: Batch, s: State, a: Action)
    requires Shape(b, s) && Enabled(b, s, a) && s.phase.Collecting? && Apply(b, s, a).phase.Collecting?
    ensures Apply(b, s, a).waiting == s.waiting && Apply(b, s, a).running == s.running
    ensures s.aborted ==> Apply(b, s, a).aborted
  {
    if OfThread(a) {
      ThreadMoves(b, s, a);
      hide Apply, Enabled;
    }
  }

  lemma EntersCollecting(b: Batch, s: State, a: Action)
    requires Shape(b, s) && Enabled(b, s, a) && !s.phase.Collecting? && Apply(b, s, a).phase.Collecting?
    ensures Apply(b, s, a).waiting == s.waiting && Apply(b, s, a).running == s.running
    ensures Apply(b, s, a).aborted || (a.FillDone? && (!a.shedding ==> s.waiting == [] || |s.running| >= Limit(b.cap)))
  {
    if OfThread(a) {
      ThreadMoves(b, s, a);
      hide Apply, Enabled;
    }
  }

  /** The calls that were started while load was being shed. */
  function StartedShedding(b: Batch, run: seq<Action>): set<nat>
    requires After(b, run).Some?
  {
    if run == [] then {}
    else
      var init, a := run[..|run| - 1], run[|run| - 1];
      StartedShedding(b, init) + (if a == Launch(true) then {After(b, init).value.waiting[0]} else {})
  }

  lemma StartedStays(b: Batch, s: State, a: Action)
    requires Shape(b, s) && Enabled(b, s, a)
    ensures |Apply(b, s, a).stage| == |s.stage|
    ensures forall i :: 0 <= i < |s.stage| && !s.stage[i].Idle? ==> !Apply(b, s, a).stage[i].Idle?
    ensures a.Launch? ==> s.waiting != [] && s.waiting[0] < |s.stage| && !Apply(b, s, a).stage[s.waiting[0]].Idle?
  {
    if OfThread(a) {
      ThreadMoves(b, s, a);
      hide Apply, Enabled;
    }
  }

  lemma SheddingMoves(b: Batch, s: State, a: Action)
    requires Shape(b, s) && Enabled(b, s, a)
    ensures a == Launch(true) ==>
              s.waiting != [] && s.gate.None? && Apply(b, s, a).gate == Some(s.waiting[0]) &&
              Apply(b, s, a).running == s.running + {s.waiting[0]}
    ensures a == Launch(false) ==>
              s.waiting != [] && Apply(b, s, a).gate == s.gate && Apply(b, s, a).running == s.running + {s.waiting[0]}
    ensures !a.Launch? ==> forall i :: i in Apply(b, s, a).running ==>
              i in s.running && (s.gate == Some(i) ==> Apply(b, s, a).gate == Some(i))
  {
    if OfThread(a) {
      ThreadMoves(b, s, a);
      hide Apply, Enabled;
    }
  }

  /** The calls of `shed` have been started, and those of them that hold a slot hold the gate. */
  ghost predicate HoldGate(shed: set<nat>, s: State)
  {
    forall i :: i in shed ==> i < |s.stage| && !s.stage[i].Idle? && (i in s.running ==> s.gate == Some(i))
  }

  lemma GateKept(b: Batch, s: State, a: Action, shed: set<nat>)
    requires Inv(b, s) && Enabled(b, s, a) && HoldGate(shed, s)
    ensures a == Launch(true) ==> s.waiting != []
    ensures HoldGate(shed + (if a == Launch(true) then {s.waiting[0]} else {}), Apply(b, s, a))
  {
    hide Apply, Enabled, Inv, Shape;
    HasShape(b, s);
    SheddingMoves(b, s, a);
    StartedStays(b, s, a);
    if a.Launch? {
      LaunchIsNew(b, s, a.shedding);
    }
  }

  /** Calls started while load is shed run one at a time: whoever of them holds a slot holds the gate. */
  lemma {:induction false} OneShedCall(b: Batch, run: seq<Action>, s: State)
    requires After(b, run) == Some(s)
    ensures HoldGate(StartedShedding(b, run), s) && |StartedShedding(b, run) * s.running| <= 1
  {
    hide Apply, Enabled, Inv, HoldGate;
    if run == [] {
      NoneShed(StartedShedding(b, run), s);
    } else {
      var init, a := run[..|run| - 1], run[|run| - 1];
      var before := After(b, init).value;
      OneShedCall(b, init, before);
      Reachable(b, init);
      GateKept(b, before, a, StartedShedding(b, init));
    }
    OneHoldsGate(StartedShedding(b, run), s);
  }

  lemma NoneShed(shed: set<nat>, s: State)
    requires shed == {}
    ensures HoldGate(shed, s)
  {
  }

  lemma OneHoldsGate(shed: set<nat>, s: State)
    requires HoldGate(shed, s)
    ensures |shed * s.running| <= 1
  {
    if s.gate.Some? {
      Within(shed * s.running, {s.gate.value});
    } else {
      assert shed * s.running == {};
    }
  }

  lemma HasShape(b: Batch, s: State)
    requires Inv(b, s)
    ensures Shape(b, s)
  {
  }

  lemma LaunchIsNew(b: Batch, s: State, shedding: bool)
    requires Inv(b, s) && Enabled(b, s, Launch(shedding))
    ensures s.waiting[0] !in s.running && s.waiting[0] < |s.stage| && s.stage[s.waiting[0]].Idle?
  {
    hide Turnstile, Logged, Slots;
    assert s.waiting[0] in s.waiting;
  }

  // ---------------------------------------------------------------------------------------------
  // Deadlock freedom and termination
  // ---------------------------------------------------------------------------------------------

  /** The batch has been answered and no thread of it, abandoned or not, is still on its way. */
  predicate Quiet(s: State)
  {
    s.phase.Finished? && forall i :: 0 <= i < |s.stage| ==> s.stage[i].Idle? || s.stage[i].Returned?
  }

  /** Whoever waits at the turnstile, the call whose turn it is has a thread that can move. */
  lemma ThreadCanMove(b: Batch, s: State, i: nat) returns (a: Action)
    requires Inv(b, s) && i < |b.calls|
    requires s.stage[i].Parked? || s.stage[i].Active?
    requires forall j :: 0 <= j < |b.calls| ==> !s.stage[j].Queued?
    ensures Enabled(b, s, a) && !a.Abort?
  {
    match s.stage[i]
    case Active(None) => a := Return(i, Output("", false, false));
    case Active(Some(_)) => a := Dispatch(i);
    case Parked(_) =>
      var q :| 0 <= q < |s.turns| && s.turns[q] == i;
      var j := s.turns[s.next];
      assert Holding(s.stage[j], s.next, s.next);
      a := if s.stage[j].Parked? then TakeTurn(j) else Dispatch(j);
  }

  lemma CollectingCanMove(b: Batch, s: State) returns (a: Action)
    requires Inv(b, s) && s.phase.Collecting?
    ensures Enabled(b, s, a) && !a.Abort?
  {
    if s.running == {} {
      a := Leave;
    } else if i :| i in s.running && s.stage[i].Queued? {
      a := Spawn(i);
    } else if i :| i in s.running && s.stage[i].Returned? {
      a := Settle(i);
    } else {
      var i :| i in s.running;
      forall j: nat | j < |b.calls| ensures !s.stage[j].Queued? {
        assert !s.stage[j].Idle? && s.finalized[j].None? ==> j in s.prepared;
      }
      a := ThreadCanMove(b, s, i);
    }
  }

  lemma FillingCanMove(b: Batch, s: State) returns (a: Action)
    requires Shape(b, s) && Queue(b, s) && s.phase.Filling?
    ensures Enabled(b, s, a) && !a.Abort?
  {
    if s.waiting == [] || !SlotFree(b, s, false) {
      a := FillDone(false);
    } else {
      assert s.waiting[0] in s.waiting;
      a := Launch(false);
    }
  }

  lemma FinishedCanMove(b: Batch, s: State) returns (a: Action)
    requires Inv(b, s) && s.phase.Finished? && !Quiet(s)
    ensures Enabled(b, s, a) && !a.Abort?
  {
    var i: nat :| i < |s.stage| && !s.stage[i].Idle? && !s.stage[i].Returned?;
    a := ThreadCanMove(b, s, i);
  }

  /** No reachable state is stuck: until the batch is answered and its threads are gone, some step is possible. */
  lemma {:induction false} NeverStuck(b: Batch, run: seq<Action>, s: State) returns (a: Action)
    requires After(b, run) == Some(s) && !Quiet(s)
    ensures Enabled(b, s, a) && !a.Abort?
  {
    Reachable(b, run);
    match s.phase
    case Preparing(_) => a := Prepare;
    case Deciding => a := Decide;
    case Filling => a := FillingCanMove(b, s);
    case Collecting => a := CollectingCanMove(b, s);
    case Answering(_) => a := Answer;
    case Reporting(_) => a := Report;
    case Finished => a := FinishedCanMove(b, s);
  }

  function StageWeight(stage: Stage): nat
  {
    match stage
    case Idle => 5
    case Queued(_) => 4
    case Parked(_) => 3
    case Active(hook) => if hook.Some? then 2 else 1
    case Returned(_) => 0
  }

  function OpenWeight(outcome: Option<Outcome>): nat
  {
    if outcome.None? then 3 else 0
  }

  function PhaseWeight(b: Batch, phase: Phase): int
  {
    var n := |b.calls|;
    match phase
    case Preparing(k) => 3 * n + 6 - k
    case Deciding => 2 * n + 5
    case Filling => 2 * n + 4
    case Collecting => 2 * n + 3
    case Answering(k) => 2 * n + 2 - k
    case Reporting(k) => n + 1 - k
    case Finished => 0
  }

  ghost function Measure(b: Batch, s: State): int
  {
    Sum(s.stage, StageWeight) + Sum(s.finalized, OpenWeight) + PhaseWeight(b, s.phase) + (if s.aborted then 0 else 1)
  }

  /** Steps of the loop that end a call, or leave every call as it was. */
  lemma LoopDescends(b: Batch, s: State, a: Action)
    requires Shape(b, s) && Settlement(b, s) && Enabled(b, s, a)
    requires !(a.Launch? || a.Spawn? || a.TakeTurn? || a.Dispatch? || a.Return?)
    ensures Measure(b, Apply(b, s, a)) < Measure(b, s)
  {
    var s' := Apply(b, s, a);
    if a.Settle? {
      SumUpdate(s.finalized, OpenWeight, a.i, s'.finalized[a.i]);
    } else if (a.Prepare? || a.Answer?) && s.phase.k < |b.calls| {
      SumUpdate(s.finalized, OpenWeight, s.phase.k, s'.finalized[s.phase.k]);
    }
  }

  /** Steps that move one call on. */
  lemma CallDescends(b: Batch, s: State, a: Action)
    requires Shape(b, s) && Queue(b, s) && Enabled(b, s, a)
    requires a.Launch? || a.Spawn? || a.TakeTurn? || a.Dispatch? || a.Return?
    ensures Measure(b, Apply(b, s, a)) < Measure(b, s)
  {
    var i := if a.Launch? then s.waiting[0] else a.i;
    assert a.Launch? ==> s.waiting[0] in s.waiting;
    SumUpdate(s.stage, StageWeight, i, Apply(b, s, a).stage[i]);
  }

  lemma StepDescends(b: Batch, s: State, a: Action)
    requires Inv(b, s) && Enabled(b, s, a)
    ensures Measure(b, Apply(b, s, a)) < Measure(b, s)
  {
    if a.Launch? || a.Spawn? || a.TakeTurn? || a.Dispatch? || a.Return? {
      CallDescends(b, s, a);
    } else {
      LoopDescends(b, s, a);
    }
  }

  lemma {:induction false} MeasureAlong(b: Batch, run: seq<Action>, s: State)
    requires After(b, run) == Some(s)
    ensures |run| + Measure(b, s) <= Measure(b, Init(b))
    ensures Measure(b, s) >= 0
  {
    hide Apply, Enabled, Settlement, Logged, Slots, Queue, Turnstile;
    Reachable(b, run);
    if run != [] {
      var before := After(b, run[..|run| - 1]).value;
      MeasureAlong(b, run[..|run| - 1], before);
      Reachable(b, run[..|run| - 1]);
      StepDescends(b, before, run[|run| - 1]);
    }
  }

  lemma {:induction false} SumConstant<T>(n: nat, w: T -> nat, x: T)
    ensures Sum(seq(n, _ => x), w) == n * w(x)
  {
    if n > 0 {
      assert seq(n, _ => x)[1..] == seq(n - 1, _ => x);
      SumConstant(n - 1, w, x);
    }
  }

  lemma InitialMeasure(b: Batch)
    ensures Measure(b, Init(b)) == 11 * |b.calls| + 7
  {
    var n := |b.calls|;
    SumConstant(n, StageWeight, Idle);
    SumConstant<Option<Outcome>>(n, OpenWeight, None);
    assert n * 5 + n * 3 == 8 * n;
  }

  /** However it is scheduled, a batch of `n` calls is over after at most `11 * n + 7` steps. */
  lemma {:induction false} RunsAreShort(b: Batch, run: seq<Action>)
    requires After(b, run).Some?
    ensures |run| <= 11 * |b.calls| + 7
  {
    MeasureAlong(b, run, After(b, run).value);
    InitialMeasure(b);
  }

  lemma AfterSnoc(b: Batch, run: seq<Action>, a: Action)
    requires After(b, run).Some? && Enabled(b, After(b, run).value, a)
    ensures After(b, run + [a]).Some?
    ensures After(b, run + [a]).value == Apply(b, After(b, run).value, a)
  {
    assert (run + [a])[..|run|] == run;
  }

  /** From wherever a run has got to, it can be carried on to the end without any further abort. */
  lemma {:induction false} EveryRunCanFinish(b: Batch, run: seq<Action>) returns (rest: seq<Action>)
    requires After(b, run).Some?
    ensures After(b, run + rest).Some? && Quiet(After(b, run + rest).value)
    ensures forall a :: a in rest ==> !a.Abort?
    decreases 11 * |b.calls| + 7 - |run|
  {
    hide After, Apply, Enabled, Quiet;
    var s := After(b, run).value;
    if Quiet(s) {
      rest := [];
      assert run + rest == run;
    } else {
      var a := NeverStuck(b, run, s);
      AfterSnoc(b, run, a);
      RunsAreShort(b, run + [a]);
      var more := EveryRunCanFinish(b, run + [a]);
      rest := [a] + more;
      assert run + rest == run + [a] + more;
    }
  }
}
