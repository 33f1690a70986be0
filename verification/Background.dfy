/**
 Detached background tasks and the loop that waits for them, over single atomic actions: a task
 pushes its outcome, then lowers the counter, then notifies; a caller pushes a message, then notifies,
 and may take messages back; the loop drains, reads the counter, reads the results and sleeps. The
 manager outlives a run, so any number of runs of one session, one after the other, is one run of this
 machine.
 */
module Background {
  import opened Prelude

  /** How far a task has got with settling. */
  datatype Task = Busy | Pushed | Counted | Notified

  /** What is put in front of the model: a task's outcome, or a message somebody queued, numbered as it came. */
  datatype Item = Outcome(task: nat) | Typed(id: nat, followUp: bool)

  /** How a message queue is drained. */
  datatype Mode = All | OneAtATime

  /** The steering queue and the follow-up queue are drained each in its own mode. */
  datatype Modes = Modes(steering: Mode, followUps: Mode)

  /** Where the loop's code is; `more` is `has_more_tool_calls`, `first` marks a run's first poll. */
  datatype Pc =
    | Draining(more: bool, first: bool)
    | Steering(more: bool, first: bool, drained: seq<Item>)
    | Checking(more: bool)
    | CheckingResults
    | Registering
    | Enabling
    | WaitResults
    | WaitCount
    | Asleep
    | Woken
    | Refilling(drained: seq<Item>)
    | RefillingFollowUp
    | Turning
    | Ending
    | Ended(byItself: bool)

  /** How the `message_queued` waiter was reached: by the stored permit, or by a later notification. */
  datatype Beckon = Not | Took | Handed

  /**
   `enabled`/`woken` are the waiter of `wait_for_next`; `registered`/`beckon` the waiter of
   `message_queued`, and `permit` its one stored permit. `unsent` counts the callers that have queued a
   message and not yet notified; `queued` counts the messages ever queued, and `takenBack` lists those
   taken back.
   */
  datatype State = State(
    pc: Pc,
    tasks: seq<Task>,
    inflight: nat,
    results: seq<Item>,
    pending: seq<Item>,
    delivered: seq<Item>,
    lost: seq<Item>,
    enabled: bool,
    woken: bool,
    steering: seq<nat>,
    followUps: seq<nat>,
    permit: bool,
    registered: bool,
    beckon: Beckon,
    unsent: nat,
    queued: nat,
    takenBack: seq<nat>)

  datatype Action =
    | Push(t: nat) | Count(t: nat) | Notify(t: nat)
    | Steer | FollowUp | Ring | TakeBack(followUp: bool, n: nat)
    | Drain | PollSteering(skip: bool) | FailSteering
    | ReadCount | ReadResults
    | Register | Enable | CheckResults | CheckCount | Wake(byMessage: bool)
    | PollFollowUp | LastPoll
    | Deliver | Spawn | EndTurn(more: bool) | StopEarly
    | NextRun

  /** What one `drain` takes from the front of a queue. */
  function Taken(mode: Mode, queue: seq<nat>): (taken: seq<nat>)
    ensures taken <= queue && (taken == [] <==> queue == [])
  {
    if mode.All? || queue == [] then queue else [queue[0]]
  }

  function TypedItems(ids: seq<nat>, followUp: bool): (items: seq<Item>)
    ensures |items| == |ids| && (ids == [] ==> items == [])
    ensures forall i :: 0 <= i < |ids| ==> items[i] == Typed(ids[i], followUp)
  {
    seq(|ids|, i requires 0 <= i < |ids| => Typed(ids[i], followUp))
  }

  function Start(): State
  {
    State(Draining(true, true), [], 0, [], [], [], [], false, false, [], [], false, false, Not, 0, 0, [])
  }

  predicate Enabled(s: State, a: Action)
  {
    match a
    case Push(t) => t < |s.tasks| && s.tasks[t].Busy?
    case Count(t) => t < |s.tasks| && s.tasks[t].Pushed? && s.inflight > 0
    case Notify(t) => t < |s.tasks| && s.tasks[t].Counted?
    case Steer => true
    case FollowUp => true
    case Ring => s.unsent > 0
    case TakeBack(followUp, n) => n <= if followUp then |s.followUps| else |s.steering|
    case Drain => s.pc.Draining? || s.pc.Woken?
    case PollSteering(skip) => (s.pc.Steering? && (skip ==> s.pc.first)) || (s.pc.Refilling? && !skip)
    case FailSteering => s.pc.Steering? || s.pc.Refilling?
    case ReadCount => s.pc.Checking?
    case ReadResults => s.pc.CheckingResults?
    case Register => s.pc.Registering?
    case Enable => s.pc.Enabling?
    case CheckResults => s.pc.WaitResults?
    case CheckCount => s.pc.WaitCount?
    case Wake(byMessage) =>
      if byMessage then (s.pc.Enabling? || s.pc.Asleep?) && s.beckon != Not else s.pc.Asleep? && s.woken
    case PollFollowUp => s.pc.RefillingFollowUp?
    case LastPoll => s.pc.Ending?
    case Deliver => s.pc.Turning? && s.pending != []
    case Spawn => s.pc.Turning? && s.pending == []
    case EndTurn(_) => s.pc.Turning? && s.pending == []
    case StopEarly => (s.pc.Turning? && s.pending == []) || s.pc.RefillingFollowUp? || s.pc.Ending?
    case NextRun => s.pc.Ended?
  }

  /** `notify_one`: reaches the registered waiter, or is stored as the one permit. */
  function NotifyOne(s: State): State
  {
    if s.registered && s.beckon == Not then s.(beckon := Handed) else s.(permit := true)
  }

  /**
   The wait is over and both waiters are dropped. A notification handed to the `message_queued`
   waiter but not the reason for waking is passed back; a permit it took at once is gone.
   */
  function StopWaiting(s: State, byMessage: bool): State
  {
    s.(pc := Woken, enabled := false, registered := false, beckon := Not,
       permit := s.permit || (!byMessage && s.beckon == Handed))
  }

  function Apply(mode: Modes, s: State, a: Action): State
    requires Enabled(s, a)
  {
    match a
    case Push(t) => s.(tasks := s.tasks[t := Pushed], results := s.results + [Outcome(t)])
    case Count(t) => s.(tasks := s.tasks[t := Counted], inflight := s.inflight - 1)
    case Notify(t) => s.(tasks := s.tasks[t := Notified], woken := s.woken || s.enabled)
    // steer and follow_up: the message is pushed first, and the notification is a step of its own
    case Steer => s.(steering := s.steering + [s.queued], unsent := s.unsent + 1, queued := s.queued + 1)
    case FollowUp => s.(followUps := s.followUps + [s.queued], unsent := s.unsent + 1, queued := s.queued + 1)
    case Ring => NotifyOne(s.(unsent := s.unsent - 1))
    // a caller takes the newest queued messages back, and notifies nobody
    case TakeBack(followUp, n) =>
      if followUp then
        var k := |s.followUps| - n;
        s.(followUps := s.followUps[..k], takenBack := s.takenBack + s.followUps[k..])
      else
        var k := |s.steering| - n;
        s.(steering := s.steering[..k], takenBack := s.takenBack + s.steering[k..])
    // collect_pending_messages: at a turn boundary, and after a wait
    case Drain =>
      s.(pc := if s.pc.Woken? then Refilling(s.results) else Steering(s.pc.more, s.pc.first, s.results), results := [])
    case PollSteering(skip) =>
      var taken := if skip then [] else Taken(mode.steering, s.steering);
      var items := s.pc.drained + TypedItems(taken, false);
      var next := if s.pc.Steering? then Checking(s.pc.more) else if items == [] then RefillingFollowUp else Turning;
      s.(pc := next, steering := s.steering[|taken|..], pending := items)
    case FailSteering => s.(pc := Ended(false), lost := s.lost + s.pc.drained)
    // the inner while condition: has_work reads the counter first, the results second
    case ReadCount =>
      s.(pc := if s.pc.more || s.pending != [] then Turning
               else if s.inflight > 0 then Registering else CheckingResults)
    case ReadResults => s.(pc := if s.results != [] then Registering else Ending)
    // wait_for_background_or_message and wait_for_next
    case Register =>
      s.(pc := Enabling, registered := true, beckon := if s.permit then Took else Not, permit := false)
    case Enable => s.(pc := WaitResults, enabled := true, woken := false)
    case CheckResults => if s.results != [] then StopWaiting(s, false) else s.(pc := WaitCount)
    case CheckCount => if s.inflight == 0 then StopWaiting(s, false) else s.(pc := Asleep)
    case Wake(byMessage) => StopWaiting(s, byMessage)
    case PollFollowUp =>
      var taken := Taken(mode.followUps, s.followUps);
      s.(pc := if taken == [] then Checking(false) else Turning,
         followUps := s.followUps[|taken|..], pending := TypedItems(taken, true))
    case LastPoll =>
      var taken := Taken(mode.followUps, s.followUps);
      s.(pc := if taken == [] then Ended(true) else Checking(true),
         followUps := s.followUps[|taken|..], pending := TypedItems(taken, true))
    case Deliver => s.(pending := [], delivered := s.delivered + s.pending)
    case Spawn => s.(tasks := s.tasks + [Busy], inflight := s.inflight + 1)
    case EndTurn(more) => s.(pc := Draining(more, false))
    case StopEarly => s.(pc := Ended(false))
    case NextRun => s.(pc := Draining(true, true))
  }

  function After(mode: Modes, run: seq<Action>): Option<State>
  {
    if run == [] then Some(Start())
    else
      var a := run[|run| - 1];
      match After(mode, run[..|run| - 1])
      case None => None
      case Some(s) => if Enabled(s, a) then Some(Apply(mode, s, a)) else None
  }

  // ---------------------------------------------------------------------------------------------
  // Invariants
  // ---------------------------------------------------------------------------------------------

  predicate InFlight(task: Task)
  {
    task.Busy? || task.Pushed?
  }

  function FlightWeight(task: Task): nat
  {
    if InFlight(task) then 1 else 0
  }

  /** Outcomes drained by a collection that has not finished. */
  function Transit(pc: Pc): seq<Item>
  {
    if pc.Steering? || pc.Refilling? then pc.drained else []
  }

  /** Everything that has been pushed, wherever it is now. */
  function Everywhere(s: State): multiset<Item>
  {
    multiset(s.results) + multiset(Transit(s.pc)) + multiset(s.pending) + multiset(s.delivered) + multiset(s.lost)
  }

  function Copies(s: State, t: nat): nat
  {
    Everywhere(s)[Outcome(t)]
  }

  /** Each settled outcome is in exactly one place. */
  ghost predicate Conserved(s: State)
  {
    forall t: nat :: Copies(s, t) == (if t < |s.tasks| && !s.tasks[t].Busy? then 1 else 0)
  }

  ghost predicate Counting(s: State)
  {
    s.inflight == Sum(s.tasks, FlightWeight)
  }

  ghost predicate NoneInFlight(tasks: seq<Task>)
  {
    forall t :: 0 <= t < |tasks| ==> !InFlight(tasks[t])
  }

  ghost predicate SomeoneLeft(tasks: seq<Task>)
  {
    exists t :: 0 <= t < |tasks| && !tasks[t].Notified?
  }

  /** Collected messages are held only between the collection and the turn that delivers them. */
  ghost predicate Tidy(s: State)
  {
    !s.pc.Checking? && !s.pc.Turning? ==> s.pending == []
  }

  /** What a false `has_work` established still holds. */
  ghost predicate Watching(s: State)
  {
    && (s.pc.CheckingResults? ==> NoneInFlight(s.tasks))
    && (s.pc.Ending? || s.pc == Ended(true) ==> NoneInFlight(s.tasks) && s.results == [])
  }

  /** A sleeper that has not been woken has somebody left to wake it. */
  ghost predicate Sleeping(s: State)
  {
    && (s.pc.WaitResults? || s.pc.WaitCount? || s.pc.Asleep? ==> s.enabled)
    && (s.pc.Asleep? && !s.woken ==> SomeoneLeft(s.tasks))
  }

  /** From a poll that found nothing until the wait is over. */
  predicate Idling(s: State)
  {
    (s.pc == Checking(false) && s.pending == []) || s.pc.CheckingResults? || s.pc.Registering? || s.pc.Enabling? ||
    s.pc.WaitResults? || s.pc.WaitCount? || s.pc.Asleep? || s.pc.RefillingFollowUp?
  }

  ghost predicate Beckoning(s: State)
  {
    && (s.registered <==> s.pc.Enabling? || s.pc.WaitResults? || s.pc.WaitCount? || s.pc.Asleep?)
    && (s.beckon != Not ==> s.registered)
    && (s.registered && s.beckon == Not ==> !s.permit)
    && (Idling(s) && s.steering != [] ==> s.permit || s.beckon != Not || s.unsent > 0)
    && (s.pc.Draining? && s.pc.first ==> s.pc.more)
    && (s.pc.Steering? && s.pc.first ==> s.pc.more)
  }

  ghost predicate Inv(s: State)
  {
    Conserved(s) && Counting(s) && Tidy(s) && Watching(s) && Sleeping(s) && Beckoning(s)
  }

  lemma {:induction false} FlightPositive(tasks: seq<Task>)
    requires Sum(tasks, FlightWeight) > 0
    ensures SomeoneLeft(tasks) && exists t :: 0 <= t < |tasks| && InFlight(tasks[t])
  {
    if FlightWeight(tasks[0]) == 0 {
      FlightPositive(tasks[1..]);
      var t :| 0 <= t < |tasks[1..]| && InFlight(tasks[1..][t]);
      assert InFlight(tasks[t + 1]);
    }
  }

  lemma {:induction false} FlightZero(tasks: seq<Task>)
    requires Sum(tasks, FlightWeight) == 0
    ensures NoneInFlight(tasks)
  {
    if tasks != [] {
      FlightZero(tasks[1..]);
      assert forall t :: 0 < t < |tasks| ==> tasks[t] == tasks[1..][t - 1];
    }
  }

  lemma {:induction false} SumSnoc(tasks: seq<Task>, task: Task)
    ensures Sum(tasks + [task], FlightWeight) == Sum(tasks, FlightWeight) + FlightWeight(task)
  {
    if tasks == [] {
      assert tasks + [task] == [task];
      assert [task][1..] == [];
    } else {
      assert (tasks + [task])[1..] == tasks[1..] + [task];
      SumSnoc(tasks[1..], task);
    }
  }

  lemma Weights()
    ensures FlightWeight(Busy) == FlightWeight(Pushed) == 1 && FlightWeight(Counted) == FlightWeight(Notified) == 0
  {
  }

  lemma CountingKept(mode: Modes, s: State, a: Action)
    requires Counting(s) && Enabled(s, a)
    ensures Counting(Apply(mode, s, a))
  {
    hide Sum, FlightWeight, TypedItems, Taken;
    assert FlightWeight(Busy) == FlightWeight(Pushed) == 1 && FlightWeight(Counted) == FlightWeight(Notified) == 0 by {
      Weights();
    }
    match a
    case Push(t) => SumUpdate(s.tasks, FlightWeight, t, Pushed);
    case Count(t) => SumUpdate(s.tasks, FlightWeight, t, Counted);
    case Notify(t) => SumUpdate(s.tasks, FlightWeight, t, Notified);
    case Spawn => SumSnoc(s.tasks, Busy);
    case _ =>
  }

  lemma TypedIsNoOutcome(ids: seq<nat>, followUp: bool, t: nat)
    ensures multiset(TypedItems(ids, followUp))[Outcome(t)] == 0
  {
    assert forall x :: x in TypedItems(ids, followUp) ==> x.Typed?;
  }

  lemma TidyKept(mode: Modes, s: State, a: Action)
    requires Tidy(s) && Enabled(s, a)
    ensures Tidy(Apply(mode, s, a))
  {
  }

  lemma PolledCopies(s: State, s': State, taken: seq<nat>, followUp: bool, t: nat)
    requires s'.results == s.results && s'.delivered == s.delivered && s'.lost == s.lost
    requires s.pending == [] && s'.pending == Transit(s.pc) + TypedItems(taken, followUp) && Transit(s'.pc) == []
    ensures Copies(s', t) == Copies(s, t)
  {
    TypedIsNoOutcome(taken, followUp, t);
    hide TypedItems;
  }

  lemma SameCopies(s: State, s': State, t: nat)
    requires s'.results == s.results && s'.delivered == s.delivered && s'.lost == s.lost
    requires s'.pending == s.pending && Transit(s'.pc) == Transit(s.pc)
    ensures Copies(s', t) == Copies(s, t)
  {
  }

  /** A poll adds typed messages only. */
  lemma PollCopies(mode: Modes, s: State, a: Action, t: nat)
    requires Tidy(s) && Enabled(s, a) && (a.PollSteering? || a.PollFollowUp? || a.LastPoll?)
    ensures Copies(Apply(mode, s, a), t) == Copies(s, t)
  {
    hide TypedItems, Taken, Copies;
    var s' := Apply(mode, s, a);
    match a
    case PollSteering(skip) =>
      PolledCopies(s, s', if skip then [] else Taken(mode.steering, s.steering), false, t);
    case PollFollowUp =>
      var items := TypedItems(Taken(mode.followUps, s.followUps), true);
      assert [] + items == items;
      PolledCopies(s, s', Taken(mode.followUps, s.followUps), true, t);
    case LastPoll =>
      var items := TypedItems(Taken(mode.followUps, s.followUps), true);
      assert [] + items == items;
      PolledCopies(s, s', Taken(mode.followUps, s.followUps), true, t);
  }

  /** The other steps move items from one place to the next. */
  lemma MoveCopies(mode: Modes, s: State, a: Action, t: nat)
    requires Tidy(s) && Enabled(s, a) && (a.Push? || a.Drain? || a.FailSteering? || a.Deliver?)
    ensures Copies(Apply(mode, s, a), t) == Copies(s, t) + (if a == Push(t) then 1 else 0)
  {
    hide Copies, TypedItems, Taken;
    var s' := Apply(mode, s, a);
    match a
    case Push(x) =>
      Moved(s, s', t, [Outcome(x)], [], [], [], []);
    case Drain =>
      Moved(s, s', t, [], s.results, [], [], []);
    case FailSteering =>
      Moved(s, s', t, [], [], [], [], Transit(s.pc));
    case Deliver =>
      Moved(s, s', t, [], [], [], s.pending, []);
  }

  /** What came to each place; what was taken from a place is gone from it. */
  lemma Moved(s: State, s': State, t: nat, r: seq<Item>, d: seq<Item>, p: seq<Item>, v: seq<Item>, l: seq<Item>)
    requires s'.results == (if d != [] then [] else s.results + r)
    requires d != [] ==> d == s.results && r == []
    requires Transit(s'.pc) == (if l != [] then [] else Transit(s.pc) + d)
    requires l != [] ==> l == Transit(s.pc) && d == []
    requires s'.pending == (if v != [] then [] else s.pending + p)
    requires v != [] ==> v == s.pending && p == []
    requires s'.delivered == s.delivered + v && s'.lost == s.lost + l
    ensures Copies(s', t) == Copies(s, t) + multiset(r)[Outcome(t)] + multiset(p)[Outcome(t)]
  {
  }

  lemma CopiesKept(mode: Modes, s: State, a: Action, t: nat)
    requires Tidy(s) && Enabled(s, a)
    ensures Copies(Apply(mode, s, a), t) == Copies(s, t) + (if a == Push(t) then 1 else 0)
  {
    hide Apply, Enabled, Copies, Transit, Tidy;
    if a.PollSteering? || a.PollFollowUp? || a.LastPoll? {
      PollCopies(mode, s, a, t);
    } else if a.Push? || a.Drain? || a.FailSteering? || a.Deliver? {
      MoveCopies(mode, s, a, t);
    } else {
      LostMoves(mode, s, a);
      if a.Steer? || a.FollowUp? || a.TakeBack? {
        CallerLeavesOutcomes(mode, s, a);
      } else {
        OtherLeavesQueues(mode, s, a);
        OtherOutcomes(mode, s, a);
      }
      SameCopies(s, Apply(mode, s, a), t);
    }
  }

  lemma ConservedKept(mode: Modes, s: State, a: Action)
    requires Conserved(s) && Tidy(s) && Enabled(s, a)
    ensures Conserved(Apply(mode, s, a))
  {
    hide Copies, Tidy;
    var s' := Apply(mode, s, a);
    forall t: nat ensures Copies(s', t) == (if t < |s'.tasks| && !s'.tasks[t].Busy? then 1 else 0) {
      CopiesKept(mode, s, a, t);
    }
  }

  lemma TaskMoves(tasks: seq<Task>, t: nat, to: Task)
    requires t < |tasks|
    ensures NoneInFlight(tasks) && !InFlight(to) ==> NoneInFlight(tasks[t := to])
    ensures !to.Notified? ==> SomeoneLeft(tasks[t := to])
    ensures InFlight(tasks[t]) ==> !NoneInFlight(tasks)
  {
    assert tasks[t := to][t] == to;
  }

  predicate OfTask(a: Action)
  {
    a.Push? || a.Count? || a.Notify?
  }

  predicate OfQueue(a: Action)
  {
    a.Steer? || a.FollowUp? || a.Ring? || a.TakeBack?
  }

  lemma TaskWatched(mode: Modes, s: State, a: Action)
    requires Watching(s) && Sleeping(s) && Enabled(s, a) && OfTask(a)
    ensures Watching(Apply(mode, s, a)) && Sleeping(Apply(mode, s, a))
  {
    TaskMoves(s.tasks, a.t, if a.Push? then Pushed else if a.Count? then Counted else Notified);
    hide NoneInFlight, SomeoneLeft;
  }

  lemma QueueWatched(mode: Modes, s: State, a: Action)
    requires Watching(s) && Sleeping(s) && Enabled(s, a) && OfQueue(a)
    ensures Watching(Apply(mode, s, a)) && Sleeping(Apply(mode, s, a))
  {
  }

  lemma ReadWatched(mode: Modes, s: State, a: Action)
    requires Counting(s) && Watching(s) && Enabled(s, a) && (a.ReadCount? || a.ReadResults? || a.LastPoll?)
    ensures Watching(Apply(mode, s, a))
  {
    if s.inflight == 0 {
      FlightZero(s.tasks);
    }
    hide Counting, NoneInFlight, TypedItems, Taken;
  }

  lemma OtherWatched(mode: Modes, s: State, a: Action)
    requires Enabled(s, a) && !OfTask(a) && !OfQueue(a)
    requires !a.ReadCount? && !a.ReadResults? && !a.LastPoll?
    ensures Watching(Apply(mode, s, a))
  {
    hide NoneInFlight, TypedItems, Taken;
  }

  lemma LoopSleeps(mode: Modes, s: State, a: Action)
    requires Counting(s) && Sleeping(s) && Enabled(s, a) && !OfTask(a)
    ensures Sleeping(Apply(mode, s, a))
  {
    if a.CheckCount? {
      FallsAsleep(mode, s);
    } else {
      StaysAwake(mode, s, a);
    }
  }

  lemma FallsAsleep(mode: Modes, s: State)
    requires Counting(s) && Sleeping(s) && Enabled(s, CheckCount)
    ensures Sleeping(Apply(mode, s, CheckCount))
  {
    if s.inflight > 0 {
      FlightPositive(s.tasks);
    }
    hide Counting, SomeoneLeft, TypedItems, Taken;
  }

  lemma StaysAwake(mode: Modes, s: State, a: Action)
    requires Sleeping(s) && Enabled(s, a) && !OfTask(a) && !a.CheckCount?
    ensures Sleeping(Apply(mode, s, a))
  {
    hide SomeoneLeft, TypedItems, Taken;
  }

  lemma WatchingKept(mode: Modes, s: State, a: Action)
    requires Counting(s) && Watching(s) && Sleeping(s) && Enabled(s, a)
    ensures Watching(Apply(mode, s, a)) && Sleeping(Apply(mode, s, a))
  {
    hide Watching, Sleeping, Apply;
    if OfTask(a) {
      TaskWatched(mode, s, a);
    } else if OfQueue(a) {
      QueueWatched(mode, s, a);
    } else {
      LoopSleeps(mode, s, a);
      if a.ReadCount? || a.ReadResults? || a.LastPoll? {
        ReadWatched(mode, s, a);
      } else {
        OtherWatched(mode, s, a);
      }
    }
  }

  lemma BeckoningKept(mode: Modes, s: State, a: Action)
    requires Beckoning(s) && Enabled(s, a)
    ensures Beckoning(Apply(mode, s, a))
  {
    if OfTask(a) || OfQueue(a) {
      OutsideBeckons(mode, s, a);
    } else if a.Drain? || a.PollSteering? || a.FailSteering? || a.ReadCount? || a.ReadResults? {
      CollectingBeckons(mode, s, a);
    } else {
      LoopBeckons(mode, s, a);
    }
  }

  lemma OutsideBeckons(mode: Modes, s: State, a: Action)
    requires Beckoning(s) && Enabled(s, a) && (OfTask(a) || OfQueue(a))
    ensures Beckoning(Apply(mode, s, a))
  {
    if OfTask(a) {
      TaskBeckons(mode, s, a);
    } else {
      QueueBeckons(mode, s, a);
    }
  }

  lemma TaskBeckons(mode: Modes, s: State, a: Action)
    requires Beckoning(s) && Enabled(s, a) && OfTask(a)
    ensures Beckoning(Apply(mode, s, a))
  {
  }

  lemma QueueBeckons(mode: Modes, s: State, a: Action)
    requires Beckoning(s) && Enabled(s, a) && OfQueue(a)
    ensures Beckoning(Apply(mode, s, a))
  {
  }

  lemma CollectingBeckons(mode: Modes, s: State, a: Action)
    requires Beckoning(s) && Enabled(s, a)
    requires a.Drain? || a.PollSteering? || a.FailSteering? || a.ReadCount? || a.ReadResults?
    ensures Beckoning(Apply(mode, s, a))
  {
  }

  lemma LoopBeckons(mode: Modes, s: State, a: Action)
    requires Beckoning(s) && Enabled(s, a) && !OfTask(a) && !OfQueue(a)
    requires !a.Drain? && !a.PollSteering? && !a.FailSteering? && !a.ReadCount? && !a.ReadResults?
    ensures Beckoning(Apply(mode, s, a))
  {
    hide TypedItems, Taken;
  }

  lemma StartHolds()
    ensures Inv(Start())
  {
    forall t: nat ensures Copies(Start(), t) == 0 {}
  }

  lemma {:induction false} Reachable(mode: Modes, run: seq<Action>)
    requires After(mode, run).Some?
    ensures Inv(After(mode, run).value)
  {
    if run == [] {
      StartHolds();
    } else {
      Reachable(mode, run[..|run| - 1]);
      var s, a := After(mode, run[..|run| - 1]).value, run[|run| - 1];
      hide Conserved, Counting, Tidy, Watching, Sleeping, Beckoning, Apply, Enabled;
      ConservedKept(mode, s, a);
      CountingKept(mode, s, a);
      TidyKept(mode, s, a);
      WatchingKept(mode, s, a);
      BeckoningKept(mode, s, a);
    }
  }

  // ---------------------------------------------------------------------------------------------
  // What every run of a session guarantees
  // ---------------------------------------------------------------------------------------------

  /** No outcome is ever duplicated, and a settled one is waiting, collected, delivered or lost. */
  lemma {:induction false} EachOutcomeInOnePlace(mode: Modes, run: seq<Action>, s: State)
    requires After(mode, run) == Some(s)
    ensures forall t: nat :: Copies(s, t) == (if t < |s.tasks| && !s.tasks[t].Busy? then 1 else 0)
    ensures s.inflight == Sum(s.tasks, FlightWeight)
  {
    Reachable(mode, run);
  }

  lemma LostStep(mode: Modes, s: State, a: Action)
    requires Enabled(s, a) && !a.FailSteering?
    ensures Apply(mode, s, a).lost == s.lost
  {
    hide TypedItems, Taken;
    if OfTask(a) || OfQueue(a) {
      OutsideLosesNothing(mode, s, a);
    }
  }

  lemma OutsideLosesNothing(mode: Modes, s: State, a: Action)
    requires Enabled(s, a) && (OfTask(a) || OfQueue(a))
    ensures Apply(mode, s, a).lost == s.lost
  {
  }

  lemma {:induction false} LostOnlyByFailing(mode: Modes, run: seq<Action>, s: State)
    requires After(mode, run) == Some(s) && FailSteering !in run
    ensures s.lost == []
  {
    if run != [] {
      var before, a := After(mode, run[..|run| - 1]).value, run[|run| - 1];
      assert a in run;
      LostOnlyByFailing(mode, run[..|run| - 1], before);
      LostStep(mode, before, a);
      hide Apply, Enabled;
    }
  }

  /** A false `has_work`: every task ever spawned has settled and its outcome has been drained. */
  lemma {:induction false} FalseHasWorkMeansDone(mode: Modes, run: seq<Action>, s: State)
    requires After(mode, run) == Some(s) && s.pc.Ending?
    ensures s.inflight == 0 && s.results == []
    ensures forall t :: 0 <= t < |s.tasks| ==> s.tasks[t].Counted? || s.tasks[t].Notified?
    ensures forall t: nat :: t < |s.tasks| ==> multiset(s.delivered)[Outcome(t)] + multiset(s.lost)[Outcome(t)] == 1
  {
    Reachable(mode, run);
    AllSettled(s.tasks);
    forall t: nat | t < |s.tasks| ensures multiset(s.delivered)[Outcome(t)] + multiset(s.lost)[Outcome(t)] == 1 {
      assert Copies(s, t) == 1;
    }
  }

  lemma {:induction false} AllSettled(tasks: seq<Task>)
    requires NoneInFlight(tasks)
    ensures Sum(tasks, FlightWeight) == 0
  {
    if tasks != [] {
      assert !InFlight(tasks[0]);
      AllSettled(tasks[1..]);
    }
  }

  /**
   A run that ends by itself, in a session whose steering hook never failed, has put the outcome of
   every task ever spawned in that session into the transcript exactly once, and nothing else of them.
   */
  lemma {:induction false} OutcomesDeliveredOnce(mode: Modes, run: seq<Action>, s: State)
    requires After(mode, run) == Some(s) && s.pc == Ended(true) && FailSteering !in run
    ensures forall t: nat :: multiset(s.delivered)[Outcome(t)] == (if t < |s.tasks| then 1 else 0)
    ensures s.inflight == 0 && s.results == [] && s.pending == []
  {
    Reachable(mode, run);
    LostOnlyByFailing(mode, run, s);
    AllSettled(s.tasks);
    forall t: nat ensures multiset(s.delivered)[Outcome(t)] == (if t < |s.tasks| then 1 else 0) {
      assert Copies(s, t) == (if t < |s.tasks| then 1 else 0);
    }
  }

  /** Some steering hook failed while its collection held outcomes. */
  ghost predicate FailedHolding(mode: Modes, run: seq<Action>)
  {
    exists k :: 0 <= k < |run| && run[k] == FailSteering && After(mode, run[..k]).Some? &&
                Transit(After(mode, run[..k]).value.pc) != []
  }

  /** Outcomes are lost in a session if and only if a steering hook failed while its collection held some. */
  lemma {:induction false} LostIffFailedHolding(mode: Modes, run: seq<Action>, s: State)
    requires After(mode, run) == Some(s)
    ensures s.lost != [] <==> FailedHolding(mode, run)
  {
    if run != [] {
      var n := |run| - 1;
      var before, a := After(mode, run[..n]).value, run[n];
      LostIffFailedHolding(mode, run[..n], before);
      LostMoves(mode, before, a);
      FailedHoldingSnoc(mode, run);
      hide Apply, Enabled, After, FailedHolding;
    }
  }

  lemma LostMoves(mode: Modes, s: State, a: Action)
    requires Enabled(s, a)
    ensures Apply(mode, s, a).lost == s.lost + (if a.FailSteering? then Transit(s.pc) else [])
  {
    if !a.FailSteering? {
      LostStep(mode, s, a);
      hide Apply, Enabled;
    }
  }

  lemma FailedHoldingSnoc(mode: Modes, run: seq<Action>)
    requires run != [] && After(mode, run[..|run| - 1]).Some?
    ensures FailedHolding(mode, run) <==>
              FailedHolding(mode, run[..|run| - 1]) ||
              (run[|run| - 1] == FailSteering && Transit(After(mode, run[..|run| - 1]).value.pc) != [])
  {
    hide After;
    var n := |run| - 1;
    assert forall k :: 0 <= k < n ==> run[..n][..k] == run[..k];
    if FailedHolding(mode, run[..n]) {
      var k :| 0 <= k < n && run[..n][k] == FailSteering && After(mode, run[..n][..k]).Some? &&
               Transit(After(mode, run[..n][..k]).value.pc) != [];
      assert run[k] == FailSteering;
    }
  }

  /** A failed steering hook loses exactly the outcomes its collection had drained. */
  lemma {:induction false} FailingSteeringLosesDrained(mode: Modes, run: seq<Action>, s: State)
    requires After(mode, run) == Some(s) && Enabled(s, FailSteering)
    ensures Apply(mode, s, FailSteering).lost == s.lost + Transit(s.pc)
    ensures forall t: nat :: Outcome(t) in Transit(s.pc) ==>
              t < |s.tasks| && Outcome(t) !in s.delivered && Outcome(t) !in s.lost
  {
    Reachable(mode, run);
    forall t: nat | Outcome(t) in Transit(s.pc)
      ensures t < |s.tasks| && Outcome(t) !in s.delivered && Outcome(t) !in s.lost
    {
      assert Copies(s, t) == (if t < |s.tasks| && !s.tasks[t].Busy? then 1 else 0);
      assert multiset(Transit(s.pc))[Outcome(t)] > 0;
    }
  }

  /**
   `wait_for_next` never sleeps past the last settlement: a sleeper is woken, or some task has yet to
   notify, and that notification wakes it.
   */
  lemma {:induction false} SleeperIsWoken(mode: Modes, run: seq<Action>, s: State)
    requires After(mode, run) == Some(s) && s.pc.Asleep?
    ensures Enabled(s, Wake(false)) || SomeoneLeft(s.tasks)
    ensures forall t: nat :: Enabled(s, Notify(t)) ==> Enabled(Apply(mode, s, Notify(t)), Wake(false))
  {
    hide Conserved, Counting, Tidy, Watching, Beckoning, Sleeping, SomeoneLeft, Apply, Enabled;
    Reachable(mode, run);
    NotifyWakes(mode, s);
  }

  lemma NotifyWakes(mode: Modes, s: State)
    requires Sleeping(s) && s.pc.Asleep?
    ensures Enabled(s, Wake(false)) || SomeoneLeft(s.tasks)
    ensures forall t: nat :: Enabled(s, Notify(t)) ==> Enabled(Apply(mode, s, Notify(t)), Wake(false))
  {
    hide SomeoneLeft;
  }

  /** A notification while the loop sleeps wakes it, whatever was queued. */
  lemma {:induction false} RingingWakesSleeper(mode: Modes, run: seq<Action>, s: State)
    requires After(mode, run) == Some(s) && s.pc.Asleep? && Enabled(s, Ring)
    ensures Enabled(Apply(mode, s, Ring), Wake(true))
  {
    ReachableBeckons(mode, run);
  }

  /**
   The loop never sleeps on a queued steering message for good: it can wake by it, or a caller has yet
   to notify, and that notification wakes it.
   */
  lemma {:induction false} SteeringIsNeverLeft(mode: Modes, run: seq<Action>, s: State)
    requires After(mode, run) == Some(s) && s.pc.Asleep? && s.steering != []
    ensures Enabled(s, Wake(true)) || Enabled(s, Ring)
    ensures Enabled(s, Ring) ==> Enabled(Apply(mode, s, Ring), Wake(true))
  {
    ReachableBeckons(mode, run);
  }

  // ---------------------------------------------------------------------------------------------
  // Where queued messages go
  // ---------------------------------------------------------------------------------------------

  /** The messages of one queue among some items, in order. */
  function Ids(items: seq<Item>, followUp: bool): seq<nat>
  {
    if items == [] then []
    else
      var last := items[|items| - 1];
      Ids(items[..|items| - 1], followUp) + (if last.Typed? && last.followUp == followUp then [last.id] else [])
  }

  lemma {:induction false} IdsJoin(a: seq<Item>, b: seq<Item>, followUp: bool)
    ensures Ids(a + b, followUp) == Ids(a, followUp) + Ids(b, followUp)
  {
    if b == [] {
      assert a + b == a;
    } else {
      assert (a + b)[..|a + b| - 1] == a + b[..|b| - 1];
      IdsJoin(a, b[..|b| - 1], followUp);
    }
  }

  lemma {:induction false} IdsOfTyped(ids: seq<nat>, of: bool, followUp: bool)
    ensures Ids(TypedItems(ids, of), followUp) == if of == followUp then ids else []
  {
    if ids != [] {
      IdsOfTyped(ids[..|ids| - 1], of, followUp);
      assert TypedItems(ids, of)[..|ids| - 1] == TypedItems(ids[..|ids| - 1], of);
    }
  }

  predicate OutcomesOnly(items: seq<Item>)
  {
    forall i :: 0 <= i < |items| ==> items[i].Outcome?
  }

  lemma {:induction false} NoIdsOfOutcomes(items: seq<Item>, followUp: bool)
    requires OutcomesOnly(items)
    ensures Ids(items, followUp) == []
  {
    if items != [] {
      NoIdsOfOutcomes(items[..|items| - 1], followUp);
    }
  }

  function Queue(s: State, followUp: bool): seq<nat>
  {
    if followUp then s.followUps else s.steering
  }

  /** The messages of one queue from the first delivered to the last one waiting. */
  function Line(s: State, followUp: bool): seq<nat>
  {
    Ids(s.delivered, followUp) + Ids(s.pending, followUp) + Queue(s, followUp)
  }

  predicate Rising(ids: seq<nat>)
  {
    forall i, j :: 0 <= i < j < |ids| ==> ids[i] < ids[j]
  }

  /** Of the messages `0..n` each is in exactly one of two lines or taken back, and both lines are in order. */
  ghost predicate Placed(steering: seq<nat>, followUps: seq<nat>, takenBack: seq<nat>, n: nat)
  {
    && Rising(steering) && Rising(followUps)
    && forall id: nat :: multiset(steering)[id] + multiset(followUps)[id] + multiset(takenBack)[id] ==
                         if id < n then 1 else 0
  }

  lemma PlacedLater(line: seq<nat>, other: seq<nat>, takenBack: seq<nat>, n: nat)
    requires Placed(line, other, takenBack, n)
    ensures Placed(line + [n], other, takenBack, n + 1)
  {
    forall i | 0 <= i < |line| ensures line[i] < n {
      var id: nat := line[i];
      assert multiset(line)[id] > 0;
    }
    assert multiset(line + [n]) == multiset(line) + multiset{n};
  }

  lemma PlacedBack(line: seq<nat>, rest: seq<nat>, other: seq<nat>, takenBack: seq<nat>, n: nat)
    requires Placed(line + rest, other, takenBack, n)
    ensures Placed(line, other, takenBack + rest, n)
  {
    assert forall i :: 0 <= i < |line| ==> line[i] == (line + rest)[i];
    assert multiset(line + rest) == multiset(line) + multiset(rest);
    assert multiset(takenBack + rest) == multiset(takenBack) + multiset(rest);
  }

  lemma PlacedSwapped(a: seq<nat>, b: seq<nat>, takenBack: seq<nat>, n: nat)
    requires Placed(a, b, takenBack, n)
    ensures Placed(b, a, takenBack, n)
  {
  }

  ghost predicate InLine(s: State)
  {
    && OutcomesOnly(s.results) && OutcomesOnly(Transit(s.pc)) && OutcomesOnly(s.lost)
    && Placed(Line(s, false), Line(s, true), s.takenBack, s.queued)
  }

  predicate IsPoll(a: Action)
  {
    a.PollSteering? || a.PollFollowUp? || a.LastPoll?
  }

  function PolledIds(mode: Modes, s: State, a: Action): seq<nat>
    requires IsPoll(a)
  {
    if a.PollSteering? then (if a.skip then [] else Taken(mode.steering, s.steering))
    else Taken(mode.followUps, s.followUps)
  }

  lemma PollMoves(mode: Modes, s: State, a: Action)
    requires Tidy(s) && Enabled(s, a) && IsPoll(a)
    ensures var t, followUp, taken := Apply(mode, s, a), !a.PollSteering?, PolledIds(mode, s, a);
            && Queue(t, !followUp) == Queue(s, !followUp) && taken <= Queue(s, followUp)
            && Queue(t, followUp) == Queue(s, followUp)[|taken|..]
            && s.pending == [] && t.pending == Transit(s.pc) + TypedItems(taken, followUp)
            && t.delivered == s.delivered && t.takenBack == s.takenBack && t.queued == s.queued
            && t.results == s.results && t.lost == s.lost && Transit(t.pc) == []
  {
    hide TypedItems, Taken;
    if a.PollSteering? {
      assert Transit(s.pc) == s.pc.drained;
    } else {
      assert [] + TypedItems(PolledIds(mode, s, a), true) == TypedItems(PolledIds(mode, s, a), true);
    }
  }

  /** A poll hands a beginning of its queue to the next turn, and the lines stay as they are. */
  lemma PollKeepsLine(mode: Modes, s: State, a: Action, followUp: bool)
    requires Tidy(s) && OutcomesOnly(Transit(s.pc)) && Enabled(s, a) && IsPoll(a)
    ensures Line(Apply(mode, s, a), followUp) == Line(s, followUp)
  {
    hide Apply, Enabled, TypedItems, Ids, Tidy, PolledIds, Queue, Transit;
    PollMoves(mode, s, a);
    var t, of, taken := Apply(mode, s, a), !a.PollSteering?, PolledIds(mode, s, a);
    IdsOfTyped(taken, of, followUp);
    NoIds(followUp);
    NoIdsOfOutcomes(Transit(s.pc), followUp);
    IdsJoin(Transit(s.pc), TypedItems(taken, of), followUp);
    if of == followUp {
      FrontMoves(Ids(s.delivered, followUp), taken, Queue(s, followUp));
    } else {
      assert [] + [] == Ids(t.pending, followUp);
    }
  }

  lemma FrontMoves(before: seq<nat>, taken: seq<nat>, queue: seq<nat>)
    requires taken <= queue
    ensures before + ([] + taken) + queue[|taken|..] == before + [] + queue
  {
  }

  lemma NoIds(followUp: bool)
    ensures Ids([], followUp) == []
  {
  }

  lemma DeliverKeepsLine(mode: Modes, s: State, followUp: bool)
    requires Enabled(s, Deliver)
    ensures Line(Apply(mode, s, Deliver), followUp) == Line(s, followUp)
  {
    IdsJoin(s.delivered, s.pending, followUp);
    NoIds(followUp);
    hide Ids;
    assert Ids(s.delivered + s.pending, followUp) + [] == Ids(s.delivered, followUp) + Ids(s.pending, followUp);
  }

  /** Queueing puts a new message at the end of its line. */
  lemma QueueingMovesLine(mode: Modes, s: State, a: Action)
    requires Enabled(s, a) && (a.Steer? || a.FollowUp?)
    ensures var t := Apply(mode, s, a);
            && Line(t, a.FollowUp?) == Line(s, a.FollowUp?) + [s.queued] && Line(t, !a.FollowUp?) == Line(s, !a.FollowUp?)
            && t.takenBack == s.takenBack && t.queued == s.queued + 1
            && t.results == s.results && t.lost == s.lost && t.pc == s.pc
  {
    hide Ids;
    var before := Ids(s.delivered, a.FollowUp?) + Ids(s.pending, a.FollowUp?);
    assert before + (Queue(s, a.FollowUp?) + [s.queued]) == before + Queue(s, a.FollowUp?) + [s.queued];
  }

  /** Taking back shortens a line from its end. */
  lemma TakingBackMovesLine(mode: Modes, s: State, a: Action)
    requires Enabled(s, a) && a.TakeBack?
    ensures a.n <= |Queue(s, a.followUp)|
    ensures var t, rest := Apply(mode, s, a), Queue(s, a.followUp)[|Queue(s, a.followUp)| - a.n..];
            && Line(s, a.followUp) == Line(t, a.followUp) + rest && Line(t, !a.followUp) == Line(s, !a.followUp)
            && t.takenBack == s.takenBack + rest && t.queued == s.queued
            && t.results == s.results && t.lost == s.lost && t.pc == s.pc
  {
    hide Ids;
    var before, queue := Ids(s.delivered, a.followUp) + Ids(s.pending, a.followUp), Queue(s, a.followUp);
    var k := |queue| - a.n;
    assert queue == queue[..k] + queue[k..];
    assert before + (queue[..k] + queue[k..]) == before + queue[..k] + queue[k..];
  }

  predicate Elsewhere(a: Action)
  {
    !IsPoll(a) && !a.Deliver? && !a.Steer? && !a.FollowUp? && !a.TakeBack?
  }

  /** Steps that have nothing to do with queued messages. */
  lemma OtherLeavesQueues(mode: Modes, s: State, a: Action)
    requires Enabled(s, a) && Elsewhere(a)
    ensures var t := Apply(mode, s, a);
            && t.delivered == s.delivered && t.pending == s.pending && t.steering == s.steering
            && t.followUps == s.followUps && t.takenBack == s.takenBack && t.queued == s.queued
  {
    hide TypedItems, Taken;
    if OfTask(a) || OfQueue(a) {
      TaskLeavesQueues(mode, s, a);
    }
  }

  lemma TaskLeavesQueues(mode: Modes, s: State, a: Action)
    requires Enabled(s, a) && (OfTask(a) || a.Ring?)
    ensures var t := Apply(mode, s, a);
            && t.delivered == s.delivered && t.pending == s.pending && t.steering == s.steering
            && t.followUps == s.followUps && t.takenBack == s.takenBack && t.queued == s.queued
  {
  }

  /** What they do to outcomes. */
  lemma OtherOutcomes(mode: Modes, s: State, a: Action)
    requires Enabled(s, a) && Elsewhere(a)
    ensures var t := Apply(mode, s, a);
            && t.results == (if a.Push? then s.results + [Outcome(a.t)] else if a.Drain? then [] else s.results)
            && Transit(t.pc) == (if a.Drain? then s.results else if a.FailSteering? then [] else Transit(s.pc))
  {
    hide TypedItems, Taken, NotifyOne;
    if a.Ring? {
      RingKeepsOutcomes(mode, s);
    }
  }

  lemma RingKeepsOutcomes(mode: Modes, s: State)
    requires Enabled(s, Ring)
    ensures Apply(mode, s, Ring).results == s.results && Apply(mode, s, Ring).pc == s.pc
  {
  }

  lemma OtherKeepsLine(mode: Modes, s: State, a: Action)
    requires OutcomesOnly(s.results) && OutcomesOnly(Transit(s.pc)) && OutcomesOnly(s.lost)
    requires Enabled(s, a) && Elsewhere(a)
    ensures var t := Apply(mode, s, a);
            && Line(t, false) == Line(s, false) && Line(t, true) == Line(s, true)
            && t.takenBack == s.takenBack && t.queued == s.queued
            && OutcomesOnly(t.results) && OutcomesOnly(Transit(t.pc)) && OutcomesOnly(t.lost)
  {
    hide Apply, Enabled, Ids, Transit;
    OtherLeavesQueues(mode, s, a);
    OtherOutcomes(mode, s, a);
    LostMoves(mode, s, a);
  }

  lemma InLineKept(mode: Modes, s: State, a: Action)
    requires InLine(s) && Tidy(s) && Enabled(s, a)
    ensures InLine(Apply(mode, s, a))
  {
    hide Apply, Enabled, Tidy, Placed, Line;
    var t := Apply(mode, s, a);
    if IsPoll(a) {
      PollKeepsLine(mode, s, a, false);
      PollKeepsLine(mode, s, a, true);
      PollMoves(mode, s, a);
    } else if a.Deliver? {
      DeliverKeepsLine(mode, s, false);
      DeliverKeepsLine(mode, s, true);
      DeliverMoves(mode, s);
    } else if a.Steer? || a.FollowUp? {
      QueueingKeepsPlaces(mode, s, a);
    } else if a.TakeBack? {
      TakingBackKeepsPlaces(mode, s, a);
    } else {
      OtherKeepsLine(mode, s, a);
    }
  }

  lemma DeliverMoves(mode: Modes, s: State)
    requires Enabled(s, Deliver)
    ensures var t := Apply(mode, s, Deliver);
            && t.results == s.results && t.lost == s.lost && t.pc == s.pc && t.takenBack == s.takenBack
            && t.queued == s.queued
  {
  }

  lemma QueueingKeepsPlaces(mode: Modes, s: State, a: Action)
    requires InLine(s) && Enabled(s, a) && (a.Steer? || a.FollowUp?)
    ensures InLine(Apply(mode, s, a))
  {
    hide Apply, Enabled, Placed, Line, OutcomesOnly;
    QueueingMovesLine(mode, s, a);
    if a.Steer? {
      PlacedLater(Line(s, false), Line(s, true), s.takenBack, s.queued);
    } else {
      PlacedSwapped(Line(s, false), Line(s, true), s.takenBack, s.queued);
      PlacedLater(Line(s, true), Line(s, false), s.takenBack, s.queued);
      PlacedSwapped(Line(s, true) + [s.queued], Line(s, false), s.takenBack, s.queued + 1);
    }
  }

  lemma TakingBackKeepsPlaces(mode: Modes, s: State, a: Action)
    requires InLine(s) && Enabled(s, a) && a.TakeBack?
    ensures InLine(Apply(mode, s, a))
  {
    hide Apply, Enabled, Placed, Line, OutcomesOnly, Queue;
    TakingBackMovesLine(mode, s, a);
    var t, rest := Apply(mode, s, a), Queue(s, a.followUp)[|Queue(s, a.followUp)| - a.n..];
    if a.followUp {
      PlacedSwapped(Line(s, false), Line(s, true), s.takenBack, s.queued);
      PlacedBack(Line(t, true), rest, Line(s, false), s.takenBack, s.queued);
      PlacedSwapped(Line(t, true), Line(t, false), t.takenBack, t.queued);
    } else {
      PlacedBack(Line(t, false), rest, Line(s, true), s.takenBack, s.queued);
    }
  }

  lemma StartsInLine()
    ensures InLine(Start())
  {
  }

  lemma {:induction false} ReachableInLine(mode: Modes, run: seq<Action>)
    requires After(mode, run).Some?
    ensures InLine(After(mode, run).value)
  {
    hide InLine, Apply, Enabled, Conserved, Counting, Watching, Sleeping, Beckoning, Tidy;
    if run == [] {
      StartsInLine();
    } else {
      ReachableInLine(mode, run[..|run| - 1]);
      Reachable(mode, run[..|run| - 1]);
      InLineKept(mode, After(mode, run[..|run| - 1]).value, run[|run| - 1]);
    }
  }

  function Pushes(run: seq<Action>): nat
  {
    if run == [] then 0
    else Pushes(run[..|run| - 1]) + if run[|run| - 1].Steer? || run[|run| - 1].FollowUp? then 1 else 0
  }

  lemma {:induction false} PushesCounted(mode: Modes, run: seq<Action>)
    requires After(mode, run).Some?
    ensures After(mode, run).value.queued == Pushes(run)
  {
    if run != [] {
      PushesCounted(mode, run[..|run| - 1]);
      QueuedMoves(mode, After(mode, run[..|run| - 1]).value, run[|run| - 1]);
      hide Apply, Enabled;
    }
  }

  lemma QueuedMoves(mode: Modes, s: State, a: Action)
    requires Enabled(s, a)
    ensures Apply(mode, s, a).queued == s.queued + if a.Steer? || a.FollowUp? then 1 else 0
  {
    if Elsewhere(a) {
      OtherLeavesQueues(mode, s, a);
    } else {
      hide TypedItems, Taken, NotifyOne;
    }
  }

  /**
   Every message ever queued is in exactly one place: delivered, on its way to the next turn, still in its
   queue, or taken back; none is lost, repeated or made up. The messages of a queue are delivered in the
   order they were queued in, and before those that wait.
   */
  lemma {:induction false} EachMessageInOnePlace(mode: Modes, run: seq<Action>, s: State)
    requires After(mode, run) == Some(s)
    ensures Placed(Line(s, false), Line(s, true), s.takenBack, Pushes(run))
    ensures OutcomesOnly(s.results) && OutcomesOnly(s.lost)
  {
    hide Line, Placed, OutcomesOnly, After;
    ReachableInLine(mode, run);
    PushesCounted(mode, run);
  }

  /** When a run is over, nothing is on its way: each message was delivered, taken back, or is in its queue. */
  lemma {:induction false} MessagesWhenOver(mode: Modes, run: seq<Action>, s: State)
    requires After(mode, run) == Some(s) && s.pc.Ended?
    ensures Placed(Ids(s.delivered, false) + s.steering, Ids(s.delivered, true) + s.followUps, s.takenBack, Pushes(run))
  {
    hide After, Placed, Conserved, Counting, Watching, Sleeping, Beckoning;
    EachMessageInOnePlace(mode, run, s);
    Reachable(mode, run);
    NoIds(false);
    NoIds(true);
    hide Ids;
    assert Ids(s.delivered, false) + [] == Ids(s.delivered, false) && Ids(s.delivered, true) + [] == Ids(s.delivered, true);
  }

  /** A poll empties its queue, or takes the oldest message only; a skipped one leaves the queue alone. */
  lemma PollTakes(mode: Modes, s: State, a: Action)
    requires Enabled(s, a) && IsPoll(a)
    ensures var followUp := !a.PollSteering?;
            var queue, left := Queue(s, followUp), Queue(Apply(mode, s, a), followUp);
            && Queue(Apply(mode, s, a), !followUp) == Queue(s, !followUp)
            && (if (a.PollSteering? && a.skip) || queue == [] then left == queue
                else if (if followUp then mode.followUps else mode.steering).All? then left == []
                else left == queue[1..])
  {
    hide TypedItems;
  }

  /** A run ends by itself only where its last poll finds no follow-up; else the follow-ups start another round. */
  lemma EndsOnlyWithoutFollowUps(mode: Modes, s: State)
    requires Enabled(s, LastPoll)
    ensures Apply(mode, s, LastPoll).pc == Ended(true) <==> s.followUps == []
    ensures s.followUps != [] ==> Apply(mode, s, LastPoll).pc == Checking(true) && Apply(mode, s, LastPoll).pending != []
  {
  }

  /** The tasks whose outcomes are among some items, in order. */
  function Tasks(items: seq<Item>): seq<nat>
  {
    if items == [] then []
    else
      var last := items[|items| - 1];
      Tasks(items[..|items| - 1]) + (if last.Outcome? then [last.task] else [])
  }

  lemma {:induction false} TasksJoin(a: seq<Item>, b: seq<Item>)
    ensures Tasks(a + b) == Tasks(a) + Tasks(b)
  {
    if b == [] {
      assert a + b == a;
    } else {
      assert (a + b)[..|a + b| - 1] == a + b[..|b| - 1];
      TasksJoin(a, b[..|b| - 1]);
    }
  }

  lemma {:induction false} NoTasksTyped(ids: seq<nat>, followUp: bool)
    ensures Tasks(TypedItems(ids, followUp)) == []
  {
    if ids != [] {
      NoTasksTyped(ids[..|ids| - 1], followUp);
      assert TypedItems(ids, followUp)[..|ids| - 1] == TypedItems(ids[..|ids| - 1], followUp);
    }
  }

  /** The outcomes from the first delivered to the last one pushed. */
  function OutcomeLine(s: State): seq<nat>
  {
    Tasks(s.delivered) + Tasks(s.pending) + Tasks(Transit(s.pc)) + Tasks(s.results)
  }

  /** The tasks in the order in which they pushed their outcomes. */
  function Settled(run: seq<Action>): seq<nat>
  {
    if run == [] then []
    else Settled(run[..|run| - 1]) + if run[|run| - 1].Push? then [run[|run| - 1].t] else []
  }

  lemma NoTasks()
    ensures Tasks([]) == []
  {
  }

  lemma PollKeepsOutcomes(mode: Modes, s: State, a: Action)
    requires Tidy(s) && Enabled(s, a) && IsPoll(a)
    ensures OutcomeLine(Apply(mode, s, a)) == OutcomeLine(s)
  {
    hide Apply, Enabled, TypedItems, Tidy, PolledIds, Queue, Transit;
    PollMoves(mode, s, a);
    var of, taken := !a.PollSteering?, PolledIds(mode, s, a);
    NoTasksTyped(taken, of);
    TasksJoin(Transit(s.pc), TypedItems(taken, of));
    NoTasks();
    hide Tasks;
  }

  lemma StepKeepsOutcomes(mode: Modes, s: State, a: Action)
    requires Tidy(s) && Enabled(s, a) && !a.FailSteering?
    ensures OutcomeLine(Apply(mode, s, a)) == OutcomeLine(s) + if a.Push? then [a.t] else []
  {
    hide Apply, Enabled, Tidy, Transit;
    NoTasks();
    if IsPoll(a) {
      PollKeepsOutcomes(mode, s, a);
    } else if a.Deliver? {
      DeliverFields(mode, s);
      TasksJoin(s.delivered, s.pending);
    } else if a.Steer? || a.FollowUp? || a.TakeBack? {
      CallerLeavesOutcomes(mode, s, a);
    } else {
      OtherLeavesQueues(mode, s, a);
      OtherOutcomes(mode, s, a);
      if a.Push? {
        TasksJoin(s.results, [Outcome(a.t)]);
        OneTask(a.t);
      } else if a.Drain? {
        NothingInTransit(s);
      }
    }
    hide Tasks;
  }

  lemma OneTask(t: nat)
    ensures Tasks([Outcome(t)]) == [t]
  {
    assert [Outcome(t)][..0] == [];
  }

  lemma NothingInTransit(s: State)
    requires Enabled(s, Drain)
    ensures Transit(s.pc) == []
  {
  }

  lemma DeliverFields(mode: Modes, s: State)
    requires Enabled(s, Deliver)
    ensures var t := Apply(mode, s, Deliver);
            t.delivered == s.delivered + s.pending && t.pending == [] && t.results == s.results && t.pc == s.pc
  {
  }

  lemma CallerLeavesOutcomes(mode: Modes, s: State, a: Action)
    requires Enabled(s, a) && (a.Steer? || a.FollowUp? || a.TakeBack?)
    ensures var t := Apply(mode, s, a);
            t.delivered == s.delivered && t.pending == s.pending && t.results == s.results && t.pc == s.pc
  {
  }

  /** Outcomes are delivered in the order in which the tasks settled. */
  lemma {:induction false} OutcomesInOrder(mode: Modes, run: seq<Action>, s: State)
    requires After(mode, run) == Some(s) && FailSteering !in run
    ensures OutcomeLine(s) == Settled(run)
  {
    hide Apply, Enabled, OutcomeLine, Conserved, Counting, Watching, Sleeping, Beckoning, Tidy;
    if run == [] {
      NoOutcomesYet();
    } else {
      var before, a := After(mode, run[..|run| - 1]).value, run[|run| - 1];
      assert a in run;
      OutcomesInOrder(mode, run[..|run| - 1], before);
      Reachable(mode, run[..|run| - 1]);
      StepKeepsOutcomes(mode, before, a);
    }
  }

  lemma NoOutcomesYet()
    ensures OutcomeLine(Start()) == []
  {
  }

  /**
   A turn is only ever taken for a reason: the last one had more tool calls, or there is something to put
   in front of the model. After a wait the follow-up queue is polled if and only if nothing else was found.
   */
  lemma {:induction false} TurnsHaveReasons(mode: Modes, s: State, a: Action)
    requires Tidy(s) && Enabled(s, a)
    ensures !s.pc.Turning? && Apply(mode, s, a).pc.Turning? ==>
              s.pc == Checking(true) || Apply(mode, s, a).pending != []
    ensures s.pc.Refilling? && a.PollSteering? ==>
              (Apply(mode, s, a).pc.RefillingFollowUp? <==> s.pc.drained == [] && s.steering == [])
  {
    if OfTask(a) || OfQueue(a) {
      hide Apply, Enabled, Tidy;
      OutsideLeavesPc(mode, s, a);
    } else if IsPoll(a) {
      PollReasons(mode, s, a);
    } else {
      LoopReasons(mode, s, a);
    }
  }

  lemma OutsideLeavesPc(mode: Modes, s: State, a: Action)
    requires Enabled(s, a) && (OfTask(a) || OfQueue(a))
    ensures Apply(mode, s, a).pc == s.pc
  {
  }

  lemma PollReasons(mode: Modes, s: State, a: Action)
    requires Enabled(s, a) && IsPoll(a)
    ensures Apply(mode, s, a).pc.Turning? ==> Apply(mode, s, a).pending != []
    ensures s.pc.Refilling? ==>
              (Apply(mode, s, a).pc.RefillingFollowUp? <==> s.pc.drained == [] && s.steering == [])
  {
    hide TypedItems, Taken;
  }

  lemma LoopReasons(mode: Modes, s: State, a: Action)
    requires Tidy(s) && Enabled(s, a) && !OfTask(a) && !OfQueue(a) && !IsPoll(a)
    ensures !s.pc.Turning? && Apply(mode, s, a).pc.Turning? ==> s.pc == Checking(true) || Apply(mode, s, a).pending != []
  {
    if !a.ReadCount? {
      OtherTakesNoTurn(mode, s, a);
      hide Apply, Enabled;
    }
  }

  lemma OtherTakesNoTurn(mode: Modes, s: State, a: Action)
    requires Enabled(s, a) && !OfTask(a) && !OfQueue(a) && !IsPoll(a) && !a.ReadCount?
    ensures Apply(mode, s, a).pc.Turning? ==> s.pc.Turning?
  {
    hide TypedItems, Taken, NotifyOne;
  }

  // ---------------------------------------------------------------------------------------------
  // When a queued message is left waiting
  // ---------------------------------------------------------------------------------------------

  /** The last step of `run` ended a wait. */
  predicate EndsWait(mode: Modes, run: seq<Action>)
  {
    run != [] && After(mode, run).Some? && After(mode, run).value.pc.Woken? &&
    !After(mode, run[..|run| - 1]).value.pc.Woken?
  }

  /** How many notifications were sent since the last wait ended. */
  function RungSinceWait(mode: Modes, run: seq<Action>): nat
  {
    if run == [] || EndsWait(mode, run) then 0
    else RungSinceWait(mode, run[..|run| - 1]) + if run[|run| - 1].Ring? then 1 else 0
  }

  /** How many notifications were sent since the last wait began. */
  function RungInWait(run: seq<Action>): nat
  {
    if run == [] || run[|run| - 1].Register? then 0
    else RungInWait(run[..|run| - 1]) + if run[|run| - 1].Ring? then 1 else 0
  }

  /** When the last wait began, there was a notification that no wait had spent. */
  predicate CalledBefore(mode: Modes, run: seq<Action>)
    decreases |run|, 0
  {
    run != [] &&
    if run[|run| - 1].Register? then Called(mode, run[..|run| - 1]) else CalledBefore(mode, run[..|run| - 1])
  }

  /**
   What the last finished wait left behind: a notification came while it lasted, and either the wait
   ended for another reason than a message, or there was a second one, or one from before it. A
   notification from before a wait is spent by that wait, whatever ends it.
   */
  predicate LeftOver(mode: Modes, run: seq<Action>)
    decreases |run|, 0
  {
    run != [] &&
    var before := run[..|run| - 1];
    if EndsWait(mode, run) then
      RungInWait(before) > 0 &&
      (run[|run| - 1] != Wake(true) || RungInWait(before) > 1 || CalledBefore(mode, before))
    else LeftOver(mode, before)
  }

  /** A notification came since the last wait ended, or that wait left one. */
  predicate Called(mode: Modes, run: seq<Action>)
    decreases |run|, 1
  {
    RungSinceWait(mode, run) > 0 || LeftOver(mode, run)
  }

  /** How the history shows in the permit and in the waiter. */
  ghost predicate Remembered(mode: Modes, run: seq<Action>, s: State)
  {
    && (!s.registered ==> (s.permit <==> Called(mode, run)))
    && (s.registered ==>
          && (s.beckon == Took <==> CalledBefore(mode, run))
          && (s.beckon == Handed <==> !CalledBefore(mode, run) && RungInWait(run) > 0)
          && (s.permit <==> (CalledBefore(mode, run) && RungInWait(run) > 0) || RungInWait(run) > 1)
          && (Called(mode, run) <==> CalledBefore(mode, run) || RungInWait(run) > 0))
  }

  /** What a step does to the permit and the waiter. */
  lemma RegisterBeckons(mode: Modes, s: State)
    requires Beckoning(s) && Enabled(s, Register)
    ensures var t := Apply(mode, s, Register);
            !s.registered && t.registered && !t.permit && t.beckon == (if s.permit then Took else Not) && !t.pc.Woken?
  {
  }

  lemma RingBeckons(mode: Modes, s: State, a: Action)
    requires Beckoning(s) && Enabled(s, a) && a.Ring?
    ensures var t := Apply(mode, s, a);
            && t.pc == s.pc && t.registered == s.registered
            && (s.registered && s.beckon == Not ==> t.beckon == Handed && t.permit == s.permit)
            && (!(s.registered && s.beckon == Not) ==> t.beckon == s.beckon && t.permit)
  {
  }

  lemma OtherBeckons(mode: Modes, s: State, a: Action)
    requires Beckoning(s) && Enabled(s, a) && !a.Register? && !a.Ring?
    ensures var t := Apply(mode, s, a);
            && (t.pc.Woken? && !s.pc.Woken? ==>
                  s.registered && !t.registered && (a == Wake(true) ==> s.beckon != Not) &&
                  t.permit == (s.permit || (a != Wake(true) && s.beckon == Handed)))
            && (!(t.pc.Woken? && !s.pc.Woken?) ==>
                  t.registered == s.registered && t.beckon == s.beckon && t.permit == s.permit)
  {
    if OfTask(a) || OfQueue(a) {
      hide Apply, Enabled;
      OutsideLeavesWaiter(mode, s, a);
    } else if a.Wake? || a.CheckResults? || a.CheckCount? {
      WaitMovesWaiter(mode, s, a);
    } else {
      LoopLeavesWaiter(mode, s, a);
      hide Apply, Enabled;
    }
  }

  lemma WaitMovesWaiter(mode: Modes, s: State, a: Action)
    requires Beckoning(s) && Enabled(s, a) && (a.Wake? || a.CheckResults? || a.CheckCount?)
    ensures var t := Apply(mode, s, a);
            && (t.pc.Woken? && !s.pc.Woken? ==>
                  s.registered && !t.registered && (a == Wake(true) ==> s.beckon != Not) &&
                  t.permit == (s.permit || (a != Wake(true) && s.beckon == Handed)))
            && (!(t.pc.Woken? && !s.pc.Woken?) ==>
                  t.registered == s.registered && t.beckon == s.beckon && t.permit == s.permit)
  {
  }

  lemma LoopLeavesWaiter(mode: Modes, s: State, a: Action)
    requires Enabled(s, a) && !OfTask(a) && !OfQueue(a)
    requires !a.Register? && !a.Wake? && !a.CheckResults? && !a.CheckCount?
    ensures var t := Apply(mode, s, a);
            (t.pc.Woken? ==> s.pc.Woken?) && t.registered == s.registered && t.beckon == s.beckon && t.permit == s.permit
  {
    hide TypedItems, Taken, NotifyOne, StopWaiting;
  }

  lemma OutsideLeavesWaiter(mode: Modes, s: State, a: Action)
    requires Enabled(s, a) && (OfTask(a) || OfQueue(a)) && !a.Ring?
    ensures var t := Apply(mode, s, a);
            t.pc == s.pc && t.registered == s.registered && t.beckon == s.beckon && t.permit == s.permit
  {
  }

  lemma {:induction false} HistorySnoc(mode: Modes, run: seq<Action>)
    requires run != [] && After(mode, run).Some?
    ensures var before, a := run[..|run| - 1], run[|run| - 1];
            && After(mode, before).Some? && Enabled(After(mode, before).value, a)
            && After(mode, run).value == Apply(mode, After(mode, before).value, a)
            && RungSinceWait(mode, run) ==
                 (if EndsWait(mode, run) then 0 else RungSinceWait(mode, before) + if a.Ring? then 1 else 0)
            && RungInWait(run) == (if a.Register? then 0 else RungInWait(before) + if a.Ring? then 1 else 0)
            && CalledBefore(mode, run) == (if a.Register? then Called(mode, before) else CalledBefore(mode, before))
            && LeftOver(mode, run) ==
                 (if EndsWait(mode, run) then
                    RungInWait(before) > 0 &&
                    (a != Wake(true) || RungInWait(before) > 1 || CalledBefore(mode, before))
                  else LeftOver(mode, before))
            && (EndsWait(mode, run) <==>
                  After(mode, run).value.pc.Woken? && !After(mode, before).value.pc.Woken?)
  {
    hide Apply, Enabled;
  }

  lemma {:induction false} HistoryRemembered(mode: Modes, run: seq<Action>)
    requires After(mode, run).Some?
    ensures Remembered(mode, run, After(mode, run).value)
  {
    hide Inv, Apply, Enabled, After, Beckoning, EndsWait, RungSinceWait, RungInWait, CalledBefore, LeftOver;
    if run == [] {
      NothingRemembered(mode);
    } else {
      var before, a := run[..|run| - 1], run[|run| - 1];
      HistorySnoc(mode, run);
      var s, t := After(mode, before).value, After(mode, run).value;
      HistoryRemembered(mode, before);
      ReachableBeckons(mode, before);
      if a.Register? {
        RegisterBeckons(mode, s);
      } else if a.Ring? {
        RingBeckons(mode, s, a);
      } else {
        OtherBeckons(mode, s, a);
      }
    }
  }

  lemma NothingRemembered(mode: Modes)
    ensures After(mode, []) == Some(Start()) && Remembered(mode, [], Start())
  {
  }

  lemma ReachableBeckons(mode: Modes, run: seq<Action>)
    requires After(mode, run).Some?
    ensures Beckoning(After(mode, run).value)
  {
    Reachable(mode, run);
    hide After, Beckoning, Conserved, Counting, Tidy, Watching, Sleeping;
  }

  /**
   A sleeping loop can be woken by its queued messages if and only if a notification came since the last
   wait ended, or that wait left one over. So a follow-up that is still in its queue, with nobody left to
   notify, is left lying exactly when no notification came since and the last wait spent all it had.
   */
  lemma {:induction false} FollowUpLeftIffSpent(mode: Modes, run: seq<Action>, s: State)
    requires After(mode, run) == Some(s) && s.pc.Asleep?
    ensures !Enabled(s, Wake(true)) <==> RungSinceWait(mode, run) == 0 && !LeftOver(mode, run)
  {
    hide After, RungSinceWait, LeftOver, CalledBefore, RungInWait, Inv;
    HistoryRemembered(mode, run);
    ReachableBeckons(mode, run);
  }

  /** How many messages were pushed since the last wait ended. */
  function PushedSinceWait(mode: Modes, run: seq<Action>): nat
  {
    if run == [] || EndsWait(mode, run) then 0
    else PushedSinceWait(mode, run[..|run| - 1]) + if run[|run| - 1].Steer? || run[|run| - 1].FollowUp? then 1 else 0
  }

  /** Whoever pushed has notified after it, or has yet to. */
  lemma {:induction false} PushedAreRung(mode: Modes, run: seq<Action>)
    requires After(mode, run).Some?
    ensures PushedSinceWait(mode, run) <= After(mode, run).value.unsent + RungSinceWait(mode, run)
  {
    if run != [] {
      var before, a := run[..|run| - 1], run[|run| - 1];
      PushedAreRung(mode, before);
      UnsentMoves(mode, After(mode, before).value, a);
      hide Apply, Enabled;
    }
  }

  lemma UnsentMoves(mode: Modes, s: State, a: Action)
    requires Enabled(s, a)
    ensures Apply(mode, s, a).unsent ==
            (if a.Steer? || a.FollowUp? then s.unsent + 1 else if a.Ring? then s.unsent - 1 else s.unsent)
  {
    hide TypedItems, Taken;
  }

  /**
   What a caller can rely on: whatever is queued after a wait has ended is not slept on for good. The
   loop can wake by it, or a caller has yet to notify, and that notification wakes it.
   */
  lemma {:induction false} QueuedAfterWaitIsHeard(mode: Modes, run: seq<Action>, s: State)
    requires After(mode, run) == Some(s) && s.pc.Asleep? && PushedSinceWait(mode, run) > 0
    ensures Enabled(s, Wake(true)) || Enabled(s, Ring)
    ensures Enabled(s, Ring) ==> Enabled(Apply(mode, s, Ring), Wake(true))
  {
    PushedAreRung(mode, run);
    FollowUpLeftIffSpent(mode, run, s);
    ReachableBeckons(mode, run);
    hide After, RungSinceWait, LeftOver, PushedSinceWait;
  }

  lemma {:induction false} Extend(mode: Modes, run: seq<Action>, s: State, a: Action)
    returns (longer: seq<Action>, s': State)
    requires After(mode, run) == Some(s) && Enabled(s, a)
    ensures s' == Apply(mode, s, a) && After(mode, longer) == Some(s')
    ensures forall x :: x in longer ==> x in run || x == a
  {
    longer, s' := run + [a], Apply(mode, s, a);
    assert longer[..|run|] == run;
  }

  lemma AfterNothing(mode: Modes)
    ensures After(mode, []) == Some(Start())
  {
  }

  /** A turn boundary with nothing to collect, and a decision whether to wait. */
  lemma EmptyCollection(mode: Modes, r: seq<Action>, q: State) returns (run: seq<Action>, s: State)
    requires After(mode, r) == Some(q) && FailSteering !in r
    requires q.pc == Draining(false, false) && q.results == [] && q.steering == [] && q.inflight > 0
    ensures After(mode, run) == Some(s) && FailSteering !in run
    ensures s == q.(pc := Registering, pending := [])
  {
    hide After;
    run, s := Extend(mode, r, q, Drain);
    run, s := Extend(mode, run, s, PollSteering(false));
    assert s == q.(pc := Checking(false), pending := []);
    run, s := Extend(mode, run, s, ReadCount);
  }

  lemma FirstTurn(mode: Modes) returns (run: seq<Action>, s: State)
    ensures After(mode, run) == Some(s) && FailSteering !in run
    ensures s == Start().(pc := Turning)
  {
    hide After;
    AfterNothing(mode);
    run, s := Extend(mode, [], Start(), Drain);
    run, s := Extend(mode, run, s, PollSteering(false));
    assert s == Start().(pc := Checking(true));
    run, s := Extend(mode, run, s, ReadCount);
  }

  /** Two tasks are started and a follow-up is queued; the follow-up's permit is stored. */
  lemma TwoTasksAndAFollowUp(mode: Modes) returns (run: seq<Action>, s: State)
    ensures After(mode, run) == Some(s) && FailSteering !in run
    ensures s == State(Draining(false, false), [Busy, Busy], 2, [], [], [], [],
                  false, false, [], [0], true, false, Not, 0, 1, [])
  {
    hide After;
    run, s := FirstTurn(mode);
    run, s := Extend(mode, run, s, Spawn);
    run, s := Extend(mode, run, s, Spawn);
    run, s := Extend(mode, run, s, FollowUp);
    run, s := Extend(mode, run, s, Ring);
    run, s := Extend(mode, run, s, EndTurn(false));
  }

  /** The wait takes the permit while the first task settles. */
  lemma WaitTakesPermit(mode: Modes, r: seq<Action>, q: State) returns (run: seq<Action>, s: State)
    requires After(mode, r) == Some(q) && FailSteering !in r
    requires q == State(Registering, [Busy, Busy], 2, [], [], [], [],
                  false, false, [], [0], true, false, Not, 0, 1, [])
    ensures After(mode, run) == Some(s) && FailSteering !in run
    ensures s == State(Woken, [Counted, Busy], 1, [Outcome(0)], [], [], [],
                  false, false, [], [0], false, false, Not, 0, 1, [])
  {
    hide After;
    run, s := Extend(mode, r, q, Register);
    run, s := Extend(mode, run, s, Enable);
    run, s := Extend(mode, run, s, Push(0));
    run, s := Extend(mode, run, s, Count(0));
    run, s := Extend(mode, run, s, CheckResults);
  }

  /** The outcome is collected and delivered; the follow-up queue is not polled. */
  lemma DeliverOutcome(mode: Modes, r: seq<Action>, q: State) returns (run: seq<Action>, s: State)
    requires After(mode, r) == Some(q) && FailSteering !in r
    requires q == State(Woken, [Counted, Busy], 1, [Outcome(0)], [], [], [],
                  false, false, [], [0], false, false, Not, 0, 1, [])
    ensures After(mode, run) == Some(s) && FailSteering !in run
    ensures s == State(Draining(false, false), [Counted, Busy], 1, [], [], [Outcome(0)],
                  [], false, false, [], [0], false, false, Not, 0, 1, [])
  {
    hide After;
    run, s := Extend(mode, r, q, Drain);
    run, s := Extend(mode, run, s, PollSteering(false));
    assert s == q.(pc := Turning, results := [], pending := [Outcome(0)]);
    run, s := Extend(mode, run, s, Deliver);
    run, s := Extend(mode, run, s, EndTurn(false));
  }

  /** With nothing settled and no permit, the wait goes to sleep. */
  lemma FallAsleep(mode: Modes, r: seq<Action>, q: State) returns (run: seq<Action>, s: State)
    requires After(mode, r) == Some(q) && FailSteering !in r
    requires q.pc.Registering? && q.results == [] && q.inflight > 0 && !q.permit
    ensures After(mode, run) == Some(s) && FailSteering !in run
    ensures s == q.(pc := Asleep, enabled := true, woken := false, registered := true, beckon := Not)
  {
    hide After;
    run, s := Extend(mode, r, q, Register);
    run, s := Extend(mode, run, s, Enable);
    assert s == q.(pc := WaitResults, enabled := true, woken := false, registered := true, beckon := Not);
    run, s := Extend(mode, run, s, CheckResults);
    run, s := Extend(mode, run, s, CheckCount);
  }

  /**
   Unlike a steering message, a follow-up queued before the wait can be left lying while the loop
   sleeps, in either queue mode: the wait took the one stored permit but woke with an outcome, and the
   follow-up queue is polled only when a wait brings nothing else.
   */
  lemma FollowUpCanBeLeft(mode: Modes) returns (run: seq<Action>, s: State)
    ensures After(mode, run) == Some(s) && FailSteering !in run
    ensures s.pc.Asleep? && s.followUps != []
    ensures !Enabled(s, Wake(true)) && !Enabled(s, Wake(false)) && !Enabled(s, Ring)
  {
    hide After;
    run, s := TwoTasksAndAFollowUp(mode);
    run, s := EmptyCollection(mode, run, s);
    run, s := WaitTakesPermit(mode, run, s);
    run, s := DeliverOutcome(mode, run, s);
    run, s := EmptyCollection(mode, run, s);
    run, s := FallAsleep(mode, run, s);
  }

  /** A session that loses an outcome: a task settles, its outcome is drained, and the steering hook fails. */
  lemma OutcomeCanBeLost(mode: Modes) returns (run: seq<Action>, s: State)
    ensures After(mode, run) == Some(s) && s.lost == [Outcome(0)]
  {
    hide After;
    run, s := FirstTurn(mode);
    run, s := Extend(mode, run, s, Spawn);
    run, s := Extend(mode, run, s, Push(0));
    run, s := Extend(mode, run, s, EndTurn(false));
    run, s := Extend(mode, run, s, Drain);
    assert s.pc == Steering(false, false, [Outcome(0)]) && s.lost == [];
    run, s := Extend(mode, run, s, FailSteering);
  }

  /** A steering message is pushed after the results were checked, and its notification takes its time. */
  lemma FallAsleepUnrung(mode: Modes, r: seq<Action>, q: State) returns (run: seq<Action>, s: State)
    requires After(mode, r) == Some(q)
    requires q == State(Registering, [Busy], 1, [], [], [], [], false, false, [], [], false, false, Not, 0, 0, [])
    ensures After(mode, run) == Some(s)
    ensures s == State(Asleep, [Busy], 1, [], [], [], [], true, false, [0], [], false, true, Not, 1, 1, [])
  {
    hide After;
    run, s := Extend(mode, r, q, Register);
    run, s := Extend(mode, run, s, Enable);
    run, s := Extend(mode, run, s, CheckResults);
    run, s := Extend(mode, run, s, Steer);
    run, s := Extend(mode, run, s, CheckCount);
  }

  lemma OneTaskRunning(mode: Modes) returns (run: seq<Action>, s: State)
    ensures After(mode, run) == Some(s)
    ensures s == State(Registering, [Busy], 1, [], [], [], [], false, false, [], [], false, false, Not, 0, 0, [])
  {
    hide After;
    run, s := FirstTurn(mode);
    run, s := Extend(mode, run, s, Spawn);
    run, s := Extend(mode, run, s, EndTurn(false));
    assert s == State(Draining(false, false), [Busy], 1, [], [], [], [], false, false, [], [], false, false, Not, 0, 0, []);
    hide Apply, Enabled;
    run, s := EmptyCollection(mode, run, s);
  }

  /** Between a push and its notification the loop does fall asleep on a steering message. */
  lemma SleepsUntilRung(mode: Modes) returns (run: seq<Action>, s: State)
    ensures After(mode, run) == Some(s) && s.pc.Asleep? && s.steering != []
    ensures !Enabled(s, Wake(true)) && !Enabled(s, Wake(false)) && Enabled(s, Ring)
  {
    hide After;
    run, s := OneTaskRunning(mode);
    hide Apply;
    run, s := FallAsleepUnrung(mode, run, s);
  }
}
