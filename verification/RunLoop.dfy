/**
 The run loop of the agent and the transcript the agent keeps beside it. The loop appends to its own
 context and `newMessages`; the agent rebuilds its transcript from the emitted events alone. The two
 copies are maintained by different code, and the theorems here say how far they agree.
 */
module RunLoop {
  import opened Prelude
  import opened Conversation
  import TB = ToolBatch
  import TR = ToolRound
  import RunSlot

  datatype AgentEvent =
    | AgentStart
    | TurnStart
    | MessageStart(message: Message)
    | MessageUpdate(message: Message)
    | MessageEnd(message: Message)
    | ToolStart(callId: string)
    | ToolEnd(callId: string)
    | TurnEnd(message: Message, results: seq<Message>)
    | AgentEnd(messages: seq<Message>)

  // ---------------------------------------------------------------------------------------------
  // The event reducer
  // ---------------------------------------------------------------------------------------------

  datatype Transcript = Transcript(
    messages: seq<Message>,
    streaming: Option<Message>,
    pending: set<string>,
    error: Option<string>)

  function Reduce(t: Transcript, e: AgentEvent): Transcript
  {
    match e
    case MessageStart(m) => t.(streaming := Some(m))
    case MessageUpdate(m) => t.(streaming := Some(m))
    case MessageEnd(m) => t.(streaming := None, messages := t.messages + [m])
    case ToolStart(id) => t.(pending := t.pending + {id})
    case ToolEnd(id) => t.(pending := t.pending - {id})
    case TurnEnd(m, _) => if m.Assistant? && m.error.Some? then t.(error := m.error) else t
    case AgentEnd(_) => t.(streaming := None)
    case _ => t
  }

  function ReduceAll(t: Transcript, events: seq<AgentEvent>): Transcript
  {
    if events == [] then t
    else Reduce(ReduceAll(t, events[..|events| - 1]), events[|events| - 1])
  }

  lemma {:induction false} ReduceConcat(t: Transcript, first: seq<AgentEvent>, second: seq<AgentEvent>)
    ensures ReduceAll(t, first + second) == ReduceAll(ReduceAll(t, first), second)
  {
    if second == [] {
      assert first + second == first;
    } else {
      assert (first + second)[..|first + second| - 1] == first + second[..|second| - 1];
      ReduceConcat(t, first, second[..|second| - 1]);
    }
  }

  /** The agent's shared state. During a run it is changed by the run's events only. */
  class Shared {
    var messages: seq<Message>
    var streaming: Option<Message>
    var pending: set<string>
    var error: Option<string>
    var isStreaming: bool
    var active: bool

    constructor (history: seq<Message>)
      ensures View() == Transcript(history, None, {}, None) && !active && !isStreaming
    {
      messages, streaming, pending, error := history, None, {}, None;
      isStreaming, active := false, false;
    }

    ghost function View(): Transcript
      reads this
    {
      Transcript(messages, streaming, pending, error)
    }

    /** What an observer sees of the run slot. */
    ghost function SlotView(): RunSlot.Slot
      reads this
    {
      RunSlot.Slot(active, isStreaming)
    }

    method ProcessEvent(e: AgentEvent)
      modifies this
      ensures View() == Reduce(old(View()), e) && SlotView() == old(SlotView())
    {
      match e {
        case MessageStart(m) => streaming := Some(m);
        case MessageUpdate(m) => streaming := Some(m);
        case MessageEnd(m) =>
          streaming := None;
          messages := messages + [m];
        case ToolStart(id) => pending := pending + {id};
        case ToolEnd(id) => pending := pending - {id};
        case TurnEnd(m, _) =>
          if m.Assistant? && m.error.Some? {
            error := m.error;
          }
        case AgentEnd(_) => streaming := None;
        case _ =>
      }
    }

    /** A streaming flag is only ever set while a run holds the slot. */
    predicate FlagNeedsSlot()
      reads this
    {
      isStreaming ==> active
    }

    /** The first half of `begin_run`, under the slot's lock: from here on other runs are refused. */
    method Claim() returns (claimed: bool)
      modifies this`active
      ensures claimed == !old(active)
      ensures SlotView() == if claimed then RunSlot.Claimed(old(SlotView())) else old(SlotView())
    {
      claimed := !active;
      active := true;
    }

    /** The second half, under the state's lock: until here the slot is held and nothing is streaming yet. */
    method MarkStreaming()
      requires active
      modifies this`isStreaming, this`streaming, this`error
      ensures SlotView() == RunSlot.Marked(old(SlotView()))
      ensures View() == old(View()).(streaming := None, error := None)
    {
      isStreaming, streaming, error := true, None, None;
    }

    /** `begin_run`: only one run holds the slot. */
    method BeginRun() returns (claimed: bool)
      requires FlagNeedsSlot()
      modifies this
      ensures claimed == !old(active) && active && FlagNeedsSlot()
      ensures claimed ==> isStreaming && View() == old(View()).(streaming := None, error := None)
      ensures !claimed ==> isStreaming == old(isStreaming) && View() == old(View())
    {
      claimed := Claim();
      assert claimed ==> active && !isStreaming;
      if claimed {
        MarkStreaming();
      }
    }

    /**
     `finish`: whatever prefix of a run's events was reduced, a failed run adds one failure message,
     and nothing is left streaming, pending or claimed.
     */
    method Finish(failure: Option<Message>)
      requires failure.Some? ==> failure.value.Assistant? && failure.value.error.Some?
      modifies this
      ensures messages == old(messages) + (if failure.Some? then [failure.value] else [])
      ensures failure.Some? ==> error == failure.value.error
      ensures failure.None? ==> error == old(error)
      ensures streaming == None && pending == {} && SlotView() == RunSlot.Finished(old(SlotView()))
    {
      if failure.Some? {
        ProcessEvent(MessageStart(failure.value));
        ProcessEvent(MessageEnd(failure.value));
        ProcessEvent(TurnEnd(failure.value, []));
        ProcessEvent(AgentEnd([failure.value]));
      }
      isStreaming, streaming, pending := false, None, {};
      active := false;
    }
  }

  // ---------------------------------------------------------------------------------------------
  // One turn
  // ---------------------------------------------------------------------------------------------

  datatype StreamEvent = Start(partial: Message) | Delta(partial: Message)

  /**
   A round of tool calls as it happened: which calls were background, every call's outcome in call
   order, and the events of the foreground batch in the order they came.
   */
  datatype Round = Round(background: seq<bool>, outcomes: seq<TB.Outcome>, foreground: seq<TB.Event>)

  /**
   One turn as it happened: the messages delivered before it, the provider's stream and final
   message, the tool round, the context a `prepare_next_turn` hook put in place, if any, and whether a
   `should_stop_after_turn` hook stopped the run after it.
   */
  datatype Turn = Turn(pending: seq<Message>, stream: seq<StreamEvent>, final: Message, round: Round,
                       replacement: Option<seq<Message>>, stop: bool)

  function CallIds(m: Message): seq<string>
    requires m.Assistant?
  {
    seq(|m.calls|, i requires 0 <= i < |m.calls| => m.calls[i].id)
  }

  function OutcomeText(o: TB.Outcome): string
  {
    match o
    case Ran(output) => output.text
    case Immediate(output) => output.text
    case NotRun => "Not run: the turn was aborted"
    case Unfinished => "Aborted by the user before this call finished; it may still complete in the background"
    case Detached => "Started in the background"
  }

  function OutcomeFailed(o: TB.Outcome): bool
  {
    match o
    case Ran(output) => output.isError
    case Immediate(output) => output.isError
    case NotRun => true
    case Unfinished => true
    case Detached => false
  }

  function ResultMessage(id: string, o: TB.Outcome): Message
  {
    ToolResult(id, OutcomeText(o), 0, OutcomeFailed(o))
  }

  function ResultMessages(ids: seq<string>, outcomes: seq<TB.Outcome>): seq<Message>
    requires |ids| == |outcomes|
  {
    seq(|ids|, i requires 0 <= i < |ids| => ResultMessage(ids[i], outcomes[i]))
  }

  /** The turn ends in tool calls; a failed message's calls are never run. */
  predicate RunsTools(t: Turn)
  {
    t.final.Assistant? && !Failed(t.final) && t.final.calls != []
  }

  ghost predicate ValidTurn(t: Turn)
  {
    && t.final.Assistant?
    && |t.round.background| == |t.round.outcomes| == |t.final.calls|
    && TR.Distinct(CallIds(t.final))
    && TB.Complete(t.round.foreground, TR.Select(t.round.outcomes, t.round.background, false))
  }

  /** The turn's result messages in call order: what the loop keeps. */
  function KeptResults(t: Turn): seq<Message>
    requires t.final.Assistant? && |t.round.outcomes| == |t.final.calls|
  {
    if RunsTools(t) then ResultMessages(CallIds(t.final), t.round.outcomes) else []
  }

  /** The same messages in the order they are announced: background placeholders first. */
  function ShownResults(t: Turn): seq<Message>
    requires t.final.Assistant? && |t.round.background| == |t.round.outcomes| == |t.final.calls|
  {
    TR.Select(KeptResults(t), if RunsTools(t) then t.round.background else [], true) +
    TR.Select(KeptResults(t), if RunsTools(t) then t.round.background else [], false)
  }

  function TurnNew(t: Turn): seq<Message>
    requires t.final.Assistant? && |t.round.outcomes| == |t.final.calls|
  {
    t.pending + [t.final] + KeptResults(t)
  }

  function TurnShown(t: Turn): seq<Message>
    requires t.final.Assistant? && |t.round.background| == |t.round.outcomes| == |t.final.calls|
  {
    t.pending + [t.final] + ShownResults(t)
  }

  function Announce(messages: seq<Message>): seq<AgentEvent>
  {
    if messages == [] then []
    else
      var last := messages[|messages| - 1];
      Announce(messages[..|messages| - 1]) + [MessageStart(last), MessageEnd(last)]
  }

  lemma NothingAnnounced()
    ensures Announce([]) == []
  {
  }

  lemma NextAnnounced(messages: seq<Message>, i: nat)
    requires i < |messages|
    ensures Announce(messages[..i + 1]) ==
            Announce(messages[..i]) + ([MessageStart(messages[i])] + [MessageEnd(messages[i])])
  {
    assert messages[..i + 1][..i] == messages[..i];
  }

  /** The partial messages a stream adds to the context: one per `Start`. */
  function Partials(stream: seq<StreamEvent>): seq<Message>
  {
    if stream == [] then []
    else
      var before := Partials(stream[..|stream| - 1]);
      match stream[|stream| - 1]
      case Start(m) => before + [m]
      case Delta(_) => before
  }

  /** Whether a response may be streamed into the context without leaving a stray partial message. */
  predicate OneStart(t: Turn)
  {
    |Partials(t.stream)| <= 1
  }

  /** Deltas before the first `Start` are not announced. */
  function StreamEvents(stream: seq<StreamEvent>): seq<AgentEvent>
  {
    if stream == [] then []
    else
      var init := stream[..|stream| - 1];
      match stream[|stream| - 1]
      case Start(m) => StreamEvents(init) + [MessageStart(m)]
      case Delta(m) => StreamEvents(init) + (if Partials(init) == [] then [] else [MessageUpdate(m)])
  }

  lemma NothingStreamed()
    ensures StreamEvents([]) == [] && Partials([]) == []
  {
  }

  lemma StreamSnoc(stream: seq<StreamEvent>, i: nat)
    requires i < |stream|
    ensures var before, after := stream[..i], stream[..i + 1];
            && Partials(after) == Partials(before) + (if stream[i].Start? then [stream[i].partial] else [])
            && StreamEvents(after) == StreamEvents(before) +
                 (if stream[i].Start? then [MessageStart(stream[i].partial)]
                  else if Partials(before) == [] then [] else [MessageUpdate(stream[i].partial)])
  {
    assert stream[..i + 1][..i] == stream[..i];
  }

  function ResponseEvents(t: Turn): seq<AgentEvent>
  {
    StreamEvents(t.stream) + (if Partials(t.stream) == [] then [MessageStart(t.final)] else []) + [MessageEnd(t.final)]
  }

  /** The final message takes the place of the last partial one. */
  function AfterResponse(context: seq<Message>, stream: seq<StreamEvent>, final: Message): seq<Message>
  {
    var partials := Partials(stream);
    context + (if partials == [] then [] else partials[..|partials| - 1]) + [final]
  }

  function ToolEvents(ids: seq<string>, log: seq<TB.Event>): seq<AgentEvent>
    requires forall e :: e in log ==> e.call < |ids|
  {
    if log == [] then []
    else
      ToolEvents(ids, log[..|log| - 1]) + ToolEvent(ids, log[|log| - 1])
  }

  lemma NothingFromTools(ids: seq<string>)
    ensures ToolEvents(ids, []) == []
  {
  }

  lemma NextToolEvent(ids: seq<string>, log: seq<TB.Event>, i: nat)
    requires i < |log| && Within(ids, log)
    ensures log[i].call < |ids| && Within(ids, log[..i]) && Within(ids, log[..i + 1])
    ensures ToolEvents(ids, log[..i + 1]) == ToolEvents(ids, log[..i]) + ToolEvent(ids, log[i])
  {
    assert log[i] in log;
    assert log[..i + 1][..i] == log[..i];
  }

  function ToolEvent(ids: seq<string>, e: TB.Event): seq<AgentEvent>
    requires e.call < |ids|
  {
    match e
    case Started(i) => [ToolStart(ids[i])]
    case Ended(i, _) => [ToolEnd(ids[i])]
    case Reported(i, o) => [MessageStart(ResultMessage(ids[i], o)), MessageEnd(ResultMessage(ids[i], o))]
  }

  ghost predicate Within(ids: seq<string>, log: seq<TB.Event>)
  {
    forall e :: e in log ==> e.call < |ids|
  }

  function RoundEvents(t: Turn): seq<AgentEvent>
    requires ValidTurn(t)
  {
    var ids := CallIds(t.final);
    var placeholders := TR.Select(t.round.outcomes, t.round.background, true);
    CompleteWithin(t);
    ToolEvents(TR.Select(ids, t.round.background, true), TR.SequentialLog(placeholders)) +
    ToolEvents(TR.Select(ids, t.round.background, false), t.round.foreground)
  }

  function TurnEvents(t: Turn, first: bool): seq<AgentEvent>
    requires ValidTurn(t)
  {
    TurnOpening(t, first) + TurnClosing(t)
  }

  function TurnOpening(t: Turn, first: bool): seq<AgentEvent>
  {
    (if first then [] else [TurnStart]) + Announce(t.pending) + ResponseEvents(t)
  }

  function TurnClosing(t: Turn): seq<AgentEvent>
    requires ValidTurn(t)
  {
    (if RunsTools(t) then RoundEvents(t) else []) + [TurnEnd(t.final, KeptResults(t))]
  }

  /** `has_more_tool_calls` after the turn: only foreground results can ask for the run to end. */
  predicate HasMore(t: Turn)
    requires |t.round.background| == |t.round.outcomes|
  {
    RunsTools(t) && !TR.ShouldTerminate(TR.Select(t.round.outcomes, t.round.background, false))
  }

  /** The run is over right after the turn, whatever is still queued. */
  predicate Halts(t: Turn)
  {
    Failed(t.final) || t.stop
  }

  /**
   Whether turn `i` takes place, given what there is for it: `pending` is what the turn boundary, the
   wait or the follow-up queue brought.
   */
  predicate Continues(turns: seq<Turn>, i: nat)
    requires 0 < i < |turns| && |turns[i - 1].round.background| == |turns[i - 1].round.outcomes|
  {
    !Halts(turns[i - 1]) && (HasMore(turns[i - 1]) || turns[i].pending != [])
  }

  /** A run takes the first turn, and goes on until one halts it or there is nothing to go on for. */
  ghost predicate TurnsTaken(turns: seq<Turn>, n: nat)
    requires ValidTurns(turns)
  {
    && n <= |turns| && (turns != [] ==> n > 0)
    && (forall i :: 0 < i < n ==> Continues(turns, i))
    && (0 < n < |turns| ==> !Continues(turns, n))
  }

  ghost predicate ValidTurns(turns: seq<Turn>)
  {
    forall i :: 0 <= i < |turns| ==> ValidTurn(turns[i])
  }

  /** The events of a run so far: its prompts and the turns it has finished. */
  function RunEvents(prompts: seq<Message>, turns: seq<Turn>): seq<AgentEvent>
    requires ValidTurns(turns)
  {
    if turns == [] then [AgentStart, TurnStart] + Announce(prompts)
    else RunEvents(prompts, turns[..|turns| - 1]) + TurnEvents(turns[|turns| - 1], |turns| == 1)
  }

  function RunNew(prompts: seq<Message>, turns: seq<Turn>): seq<Message>
    requires ValidTurns(turns)
  {
    if turns == [] then prompts
    else RunNew(prompts, turns[..|turns| - 1]) + TurnNew(turns[|turns| - 1])
  }

  function RunShown(prompts: seq<Message>, turns: seq<Turn>): seq<Message>
    requires ValidTurns(turns)
  {
    if turns == [] then prompts
    else RunShown(prompts, turns[..|turns| - 1]) + TurnShown(turns[|turns| - 1])
  }

  function RunContext(context: seq<Message>, prompts: seq<Message>, turns: seq<Turn>): seq<Message>
    requires ValidTurns(turns)
  {
    if turns == [] then context + prompts
    else
      var t := turns[|turns| - 1];
      if t.replacement.Some? && !Failed(t.final) then t.replacement.value
      else AfterResponse(RunContext(context, prompts, turns[..|turns| - 1]) + t.pending, t.stream, t.final) +
           KeptResults(t)
  }

  lemma {:induction false} CountReported(log: seq<TB.Event>, e: TB.Event)
    requires e in log && e.Reported?
    ensures (e.call, e.outcome) in TB.Reports(log)
  {
    if log[|log| - 1] != e {
      CountReported(log[..|log| - 1], e);
    }
  }

  lemma CompleteCalls(log: seq<TB.Event>, outcomes: seq<TB.Outcome>)
    requires TB.Complete(log, outcomes)
    ensures forall e :: e in log ==> e.call < |outcomes|
  {
    forall e | e in log ensures e.call < |outcomes| {
      assert TB.Count(log, e) > 0;
      if e.Reported? {
        CountReported(log, e);
      }
    }
  }

  lemma {:induction false} SelectSizes<A, B>(a: seq<A>, b: seq<B>, flags: seq<bool>, flag: bool)
    requires |a| == |b| == |flags|
    ensures |TR.Select(a, flags, flag)| == |TR.Select(b, flags, flag)|
  {
    if a != [] {
      SelectSizes(a[1..], b[1..], flags[1..], flag);
    }
  }

  lemma CompleteWithin(t: Turn)
    requires ValidTurn(t)
    ensures Within(TR.Select(CallIds(t.final), t.round.background, true),
                   TR.SequentialLog(TR.Select(t.round.outcomes, t.round.background, true)))
    ensures Within(TR.Select(CallIds(t.final), t.round.background, false), t.round.foreground)
  {
    var ids, flags := CallIds(t.final), t.round.background;
    SelectSizes(ids, t.round.outcomes, flags, true);
    SelectSizes(ids, t.round.outcomes, flags, false);
    TR.SequentialComplete(TR.Select(t.round.outcomes, flags, true));
    CompleteCalls(TR.SequentialLog(TR.Select(t.round.outcomes, flags, true)), TR.Select(t.round.outcomes, flags, true));
    CompleteCalls(t.round.foreground, TR.Select(t.round.outcomes, flags, false));
  }

  /** What one more turn adds to a run. */
  lemma NextTurn(context: seq<Message>, prompts: seq<Message>, turns: seq<Turn>, n: nat)
    requires n < |turns| && ValidTurns(turns)
    ensures ValidTurns(turns[..n]) && ValidTurns(turns[..n + 1]) && ValidTurn(turns[n])
    ensures RunEvents(prompts, turns[..n + 1]) == RunEvents(prompts, turns[..n]) + TurnEvents(turns[n], n == 0)
    ensures RunNew(prompts, turns[..n + 1]) == RunNew(prompts, turns[..n]) + TurnNew(turns[n])
    ensures var t, before := turns[n], RunContext(context, prompts, turns[..n]);
            RunContext(context, prompts, turns[..n + 1]) ==
            (if t.replacement.Some? && !Failed(t.final) then t.replacement.value
             else AfterResponse(before + t.pending, t.stream, t.final) + KeptResults(t))
  {
    hide TurnEvents, TurnNew, AfterResponse, KeptResults, ValidTurn;
    assert turns[..n + 1][..n] == turns[..n];
  }

  lemma NoTurnYet(context: seq<Message>, prompts: seq<Message>, turns: seq<Turn>)
    ensures ValidTurns(turns[..0])
    ensures RunEvents(prompts, turns[..0]) == [AgentStart] + [TurnStart] + Announce(prompts)
    ensures RunNew(prompts, turns[..0]) == prompts && RunContext(context, prompts, turns[..0]) == context + prompts
  {
  }

  lemma ValidSizes(turns: seq<Turn>)
    requires ValidTurns(turns)
    ensures forall i :: 0 <= i < |turns| ==> |turns[i].round.background| == |turns[i].round.outcomes|
  {
  }

  // ---------------------------------------------------------------------------------------------
  // The loop itself
  // ---------------------------------------------------------------------------------------------

  class Loop {
    const shared: Shared
    var context: seq<Message>
    var newMessages: seq<Message>
    ghost const origin: Transcript
    ghost var emitted: seq<AgentEvent>

    ghost predicate Valid()
      reads this, shared
    {
      shared.View() == ReduceAll(origin, emitted)
    }

    constructor (shared: Shared, context: seq<Message>)
      ensures Valid() && this.shared == shared && this.context == context
      ensures newMessages == [] && emitted == [] && origin == shared.View()
    {
      this.shared, this.context, this.newMessages := shared, context, [];
      this.origin, this.emitted := shared.View(), [];
    }

    method Emit(e: AgentEvent)
      requires Valid()
      modifies this`emitted, shared
      ensures Valid() && emitted == old(emitted) + [e]
    {
      assert (emitted + [e])[..|emitted|] == emitted;
      shared.ProcessEvent(e);
      emitted := emitted + [e];
    }

    method AnnounceAll(messages: seq<Message>)
      requires Valid()
      modifies this`emitted, shared
      ensures Valid() && emitted == old(emitted) + Announce(messages)
    {
      hide ReduceAll, Announce;
      NothingAnnounced();
      for i := 0 to |messages|
        invariant Valid() && emitted == old(emitted) + Announce(messages[..i])
      {
        NextAnnounced(messages, i);
        Emit(MessageStart(messages[i]));
        Emit(MessageEnd(messages[i]));
      }
      assert messages[..|messages|] == messages;
    }

    /** `stream_assistant_response` with `finish_response`. */
    method StreamResponse(t: Turn)
      requires Valid()
      modifies this`emitted, this`context, shared
      ensures Valid() && context == AfterResponse(old(context), t.stream, t.final)
      ensures emitted == old(emitted) + ResponseEvents(t)
    {
      hide ReduceAll, StreamEvents, Partials;
      NothingStreamed();
      var stream, final := t.stream, t.final;
      var addedPartial := false;
      for i := 0 to |stream|
        invariant Valid() && emitted == old(emitted) + StreamEvents(stream[..i])
        invariant context == old(context) + Partials(stream[..i])
        invariant addedPartial <==> Partials(stream[..i]) != []
      {
        StreamSnoc(stream, i);
        match stream[i] {
          case Start(m) =>
            context := context + [m];
            addedPartial := true;
            Emit(MessageStart(m));
          case Delta(m) =>
            if addedPartial {
              Emit(MessageUpdate(m));
            }
        }
      }
      assert stream[..|stream|] == stream;
      if addedPartial {
        context := context[..|context| - 1] + [final];
      } else {
        context := context + [final];
        Emit(MessageStart(final));
      }
      Emit(MessageEnd(final));
    }

    method EmitTools(ids: seq<string>, log: seq<TB.Event>)
      requires Valid() && Within(ids, log)
      modifies this`emitted, shared
      ensures Valid() && emitted == old(emitted) + ToolEvents(ids, log)
    {
      hide ReduceAll, ToolEvents;
      NothingFromTools(ids);
      for i := 0 to |log|
        invariant Valid() && Within(ids, log[..i]) && emitted == old(emitted) + ToolEvents(ids, log[..i])
      {
        NextToolEvent(ids, log, i);
        match log[i] {
          case Started(c) => Emit(ToolStart(ids[c]));
          case Ended(c, _) => Emit(ToolEnd(ids[c]));
          case Reported(c, o) =>
            Emit(MessageStart(ResultMessage(ids[c], o)));
            Emit(MessageEnd(ResultMessage(ids[c], o)));
        }
      }
      assert log[..|log|] == log;
    }

    /** `execute_tool_calls` and the appends after it. */
    method ExecuteTools(t: Turn) returns (results: seq<Message>)
      requires Valid() && ValidTurn(t) && RunsTools(t)
      modifies this`emitted, this`context, this`newMessages, shared
      ensures Valid() && emitted == old(emitted) + RoundEvents(t)
      ensures results == KeptResults(t)
      ensures context == old(context) + results && newMessages == old(newMessages) + results
    {
      hide ReduceAll, ToolEvents, TB.Complete, TR.SequentialLog, TR.Select;
      var ids := CallIds(t.final);
      CompleteWithin(t);
      EmitTools(TR.Select(ids, t.round.background, true),
                TR.SequentialLog(TR.Select(t.round.outcomes, t.round.background, true)));
      EmitTools(TR.Select(ids, t.round.background, false), t.round.foreground);
      var answers := seq(|ids|, i requires 0 <= i < |ids| => TR.Result(ids[i], t.round.outcomes[i]));
      var produced := TR.Select(answers, t.round.background, true) + TR.Select(answers, t.round.background, false);
      var taken := TR.Reassemble(ids, produced);
      TR.ReassemblyIsInCallOrder(answers, t.round.background, ids);
      results := seq(|taken|, i requires 0 <= i < |taken| => ResultMessage(taken[i].callId, taken[i].outcome));
      assert results == KeptResults(t);
      context := context + results;
      newMessages := newMessages + results;
    }

    /** The messages delivered before a turn. */
    method Deliver(pending: seq<Message>)
      requires Valid()
      modifies this`emitted, this`context, this`newMessages, shared
      ensures Valid() && emitted == old(emitted) + Announce(pending)
      ensures context == old(context) + pending && newMessages == old(newMessages) + pending
    {
      AnnounceAll(pending);
      context := context + pending;
      newMessages := newMessages + pending;
    }

    /** The first half of a turn: what is delivered, then the provider's answer. */
    method OpenTurn(t: Turn, first: bool)
      requires Valid()
      modifies this`emitted, this`context, this`newMessages, shared
      ensures Valid() && emitted == old(emitted) + TurnOpening(t, first)
      ensures newMessages == old(newMessages) + t.pending + [t.final]
      ensures context == AfterResponse(old(context) + t.pending, t.stream, t.final)
    {
      hide ReduceAll, Announce, ResponseEvents, AfterResponse;
      if !first {
        Emit(TurnStart);
      }
      Deliver(t.pending);
      StreamResponse(t);
      newMessages := newMessages + [t.final];
    }

    /** The second half of a turn: its tool calls, if it did not fail, then its end. */
    method CloseTurn(t: Turn)
      requires Valid() && ValidTurn(t)
      modifies this`emitted, this`context, this`newMessages, shared
      ensures Valid() && emitted == old(emitted) + TurnClosing(t)
      ensures newMessages == old(newMessages) + KeptResults(t)
      ensures context == (if t.replacement.Some? && !Failed(t.final) then t.replacement.value
                          else old(context) + KeptResults(t))
    {
      hide RoundEvents, ReduceAll, TB.Complete, TR.Select, TR.Distinct;
      var results: seq<Message> := [];
      if !Failed(t.final) && t.final.calls != [] {
        results := ExecuteTools(t);
      }
      Emit(TurnEnd(t.final, results));
      if !Failed(t.final) && t.replacement.Some? {
        context := t.replacement.value;
      }
    }

    /** One pass through the body of the inner loop of `run_loop_with_background`. */
    method RunTurn(t: Turn, first: bool) returns (stopped: bool, more: bool)
      requires Valid() && ValidTurn(t)
      modifies this`emitted, this`context, this`newMessages, shared
      ensures Valid() && emitted == old(emitted) + TurnEvents(t, first)
      ensures newMessages == old(newMessages) + TurnNew(t)
      ensures context == (if t.replacement.Some? && !Failed(t.final) then t.replacement.value
                          else AfterResponse(old(context) + t.pending, t.stream, t.final) + KeptResults(t))
      ensures stopped == Halts(t) && more == HasMore(t)
    {
      hide TurnOpening, TurnClosing, AfterResponse, KeptResults, ReduceAll;
      OpenTurn(t, first);
      CloseTurn(t);
      stopped := Failed(t.final) || t.stop;
      more := RunsTools(t) && !TR.ShouldTerminate(TR.Select(t.round.outcomes, t.round.background, false));
    }

    /** The loop has taken the first `n` turns, having started from `start`. */
    ghost predicate Took(start: seq<Message>, prompts: seq<Message>, offers: seq<Turn>, n: nat)
      reads this, shared
    {
      && Valid() && n <= |offers| && ValidTurns(offers[..n])
      && emitted == RunEvents(prompts, offers[..n])
      && newMessages == RunNew(prompts, offers[..n])
      && context == RunContext(start, prompts, offers[..n])
    }

    method BeginLoop(prompts: seq<Message>, offers: seq<Turn>)
      requires Valid() && emitted == [] && newMessages == []
      modifies this`emitted, this`context, this`newMessages, shared
      ensures Took(old(context), prompts, offers, 0)
    {
      hide ReduceAll, Announce, RunEvents, RunNew, RunContext;
      Emit(AgentStart);
      Emit(TurnStart);
      Deliver(prompts);
      NoTurnYet(old(context), prompts, offers);
    }

    method TakeTurn(ghost start: seq<Message>, prompts: seq<Message>, offers: seq<Turn>, n: nat)
      returns (stopped: bool, more: bool)
      requires n < |offers| && ValidTurns(offers) && Took(start, prompts, offers, n)
      modifies this`emitted, this`context, this`newMessages, shared
      ensures Took(start, prompts, offers, n + 1)
      ensures |offers[n].round.background| == |offers[n].round.outcomes|
      ensures stopped == Halts(offers[n]) && more == HasMore(offers[n])
    {
      hide ReduceAll, TurnEvents, TurnNew, AfterResponse, KeptResults, RunEvents, RunNew, RunContext, HasMore, Halts;
      NextTurn(start, prompts, offers, n);
      stopped, more := RunTurn(offers[n], n == 0);
    }

    method EndLoop(ghost start: seq<Message>, prompts: seq<Message>, offers: seq<Turn>, n: nat)
      requires Took(start, prompts, offers, n)
      modifies this`emitted, shared
      ensures Valid() && n <= |offers| && ValidTurns(offers[..n])
      ensures newMessages == RunNew(prompts, offers[..n])
      ensures emitted == RunEvents(prompts, offers[..n]) + [AgentEnd(newMessages)]
      ensures context == RunContext(start, prompts, offers[..n])
      ensures origin.streaming.None? && origin.pending == {} ==>
                shared.messages == origin.messages + RunShown(prompts, offers[..n]) &&
                shared.streaming.None? && shared.pending == {}
    {
      hide ReduceAll, RunEvents, RunNew, RunContext, RunShown;
      Emit(AgentEnd(newMessages));
      if origin.streaming.None? && origin.pending == {} {
        TranscriptAtEnd(origin, prompts, offers[..n], newMessages);
      }
    }

    /**
     `run_agent_loop`: the prompts, then turn after turn. `offers` is what every turn would be, if it
     took place, and after the last of them there is nothing to go on for.
     */
    method Run(prompts: seq<Message>, offers: seq<Turn>) returns (n: nat)
      requires Valid() && emitted == [] && newMessages == []
      requires ValidTurns(offers) && offers != [] && (Halts(offers[|offers| - 1]) || !HasMore(offers[|offers| - 1]))
      modifies this`emitted, this`context, this`newMessages, shared
      ensures Valid() && TurnsTaken(offers, n) && ValidTurns(offers[..n])
      ensures newMessages == RunNew(prompts, offers[..n])
      ensures emitted == RunEvents(prompts, offers[..n]) + [AgentEnd(newMessages)]
      ensures context == RunContext(old(context), prompts, offers[..n])
      ensures origin.streaming.None? && origin.pending == {} ==>
                shared.messages == origin.messages + RunShown(prompts, offers[..n]) &&
                shared.streaming.None? && shared.pending == {}
      ensures forall i: nat :: i < n ==> TurnAnswered(prompts, offers, n, i)
    {
      hide Took, Valid, HasMore, Halts, ValidTurn, RunEvents, RunNew, RunContext, RunShown;
      ValidSizes(offers);
      BeginLoop(prompts, offers);
      n := 0;
      var stopped, more := false, true;
      while n < |offers| && !stopped && (more || offers[n].pending != [])
        invariant n <= |offers| && Took(old(context), prompts, offers, n)
        invariant n == 0 ==> !stopped && more
        invariant n > 0 ==> stopped == Halts(offers[n - 1]) && more == HasMore(offers[n - 1])
        invariant forall i :: 0 < i < n ==> Continues(offers, i)
      {
        stopped, more := TakeTurn(old(context), prompts, offers, n);
        n := n + 1;
      }
      EndLoop(old(context), prompts, offers, n);
      forall i: nat | i < n ensures TurnAnswered(prompts, offers, n, i) {
        TurnsOfRun(prompts, offers, n, i);
      }
    }
  }

  // ---------------------------------------------------------------------------------------------
  // The transcript refines the loop's messages
  // ---------------------------------------------------------------------------------------------

  function ReportMessages(ids: seq<string>, reports: seq<(nat, TB.Outcome)>): seq<Message>
    requires forall r :: r in reports ==> r.0 < |ids|
  {
    seq(|reports|, i requires 0 <= i < |reports| =>
        assert reports[i] in reports; ResultMessage(ids[reports[i].0], reports[i].1))
  }

  lemma {:induction false} ReportsWithin(ids: seq<string>, log: seq<TB.Event>)
    requires Within(ids, log)
    ensures forall r :: r in TB.Reports(log) ==> r.0 < |ids|
  {
    if log != [] {
      assert log[|log| - 1] in log;
      ReportsWithin(ids, log[..|log| - 1]);
    }
  }

  function ReduceTool(u: Transcript, ids: seq<string>, e: TB.Event): Transcript
    requires e.call < |ids|
  {
    match e
    case Started(i) => u.(pending := u.pending + {ids[i]})
    case Ended(i, _) => u.(pending := u.pending - {ids[i]})
    case Reported(i, o) => u.(messages := u.messages + [ResultMessage(ids[i], o)])
  }

  lemma ReduceNone(t: Transcript)
    ensures ReduceAll(t, []) == t
  {
  }

  lemma ReduceOne(t: Transcript, e: AgentEvent)
    ensures ReduceAll(t, [e]) == Reduce(t, e)
  {
    assert [e][..0] == [];
  }

  lemma ReduceTwo(t: Transcript, e: AgentEvent, f: AgentEvent)
    ensures ReduceAll(t, [e, f]) == Reduce(Reduce(t, e), f)
  {
    assert [e, f][..1] == [e];
    ReduceOne(t, e);
  }

  lemma ToolEventReduce(u: Transcript, ids: seq<string>, e: TB.Event)
    requires e.call < |ids| && u.streaming.None?
    ensures ReduceAll(u, ToolEvent(ids, e)) == ReduceTool(u, ids, e)
  {
    hide ReduceAll;
    match e
    case Started(i) => ReduceOne(u, ToolStart(ids[i]));
    case Ended(i, _) => ReduceOne(u, ToolEnd(ids[i]));
    case Reported(i, o) => ReduceTwo(u, MessageStart(ResultMessage(ids[i], o)), MessageEnd(ResultMessage(ids[i], o)));
  }

  lemma {:induction false} ToolEventsSnoc(t: Transcript, ids: seq<string>, log: seq<TB.Event>)
    requires Within(ids, log) && log != []
    requires ReduceAll(t, ToolEvents(ids, log[..|log| - 1])).streaming.None?
    ensures log[|log| - 1].call < |ids|
    ensures ReduceAll(t, ToolEvents(ids, log)) ==
            ReduceTool(ReduceAll(t, ToolEvents(ids, log[..|log| - 1])), ids, log[|log| - 1])
  {
    hide ReduceAll, ReduceTool, ToolEvent;
    var e := log[|log| - 1];
    assert e in log;
    var first := ToolEvents(ids, log[..|log| - 1]);
    ToolEventReduce(ReduceAll(t, first), ids, e);
    ReduceConcat(t, first, ToolEvent(ids, e));
  }

  lemma NoToolEvents(t: Transcript, ids: seq<string>)
    ensures ReduceAll(t, ToolEvents(ids, [])) == t
  {
  }

  /** A listener sees the reported results appended in order, and only open calls as pending. */
  lemma {:induction false} ToolEventsReduce(t: Transcript, ids: seq<string>, log: seq<TB.Event>)
    requires Within(ids, log) && t.streaming.None?
    ensures forall r :: r in TB.Reports(log) ==> r.0 < |ids|
    ensures ReduceAll(t, ToolEvents(ids, log)).messages == t.messages + ReportMessages(ids, TB.Reports(log))
    ensures ReduceAll(t, ToolEvents(ids, log)).streaming.None?
    ensures forall id :: id in ReduceAll(t, ToolEvents(ids, log)).pending ==>
              id in t.pending || exists i :: i in TB.Open(log) && i < |ids| && ids[i] == id
  {
    hide ReduceAll, ToolEvents;
    ReportsWithin(ids, log);
    if log == [] {
      NoToolEvents(t, ids);
    } else {
      ReportsWithin(ids, log[..|log| - 1]);
      ToolEventsReduce(t, ids, log[..|log| - 1]);
      ToolEventsSnoc(t, ids, log);
    }
  }

  lemma RoundReduce(t: Transcript, turn: Turn)
    requires ValidTurn(turn) && RunsTools(turn) && t.streaming.None? && t.pending == {}
    ensures ReduceAll(t, RoundEvents(turn)).messages == t.messages + ShownResults(turn)
    ensures ReduceAll(t, RoundEvents(turn)).streaming.None? && ReduceAll(t, RoundEvents(turn)).pending == {}
  {
    hide ReduceAll, ToolEvents, TB.Complete, TR.SequentialLog, TR.Select;
    var ids, flags, outcomes := CallIds(turn.final), turn.round.background, turn.round.outcomes;
    CompleteWithin(turn);
    var ids1, outcomes1 := TR.Select(ids, flags, true), TR.Select(outcomes, flags, true);
    var ids2, outcomes2 := TR.Select(ids, flags, false), TR.Select(outcomes, flags, false);
    SelectResults(ids, outcomes, flags, true);
    SelectResults(ids, outcomes, flags, false);
    TR.SequentialComplete(outcomes1);
    CompleteReduce(t, ids1, TR.SequentialLog(outcomes1), outcomes1);
    CompleteReduce(ReduceAll(t, ToolEvents(ids1, TR.SequentialLog(outcomes1))), ids2, turn.round.foreground, outcomes2);
    ReduceConcat(t, ToolEvents(ids1, TR.SequentialLog(outcomes1)), ToolEvents(ids2, turn.round.foreground));
  }

  lemma {:induction false} SelectResults(ids: seq<string>, outcomes: seq<TB.Outcome>, flags: seq<bool>, flag: bool)
    requires |ids| == |outcomes| == |flags|
    ensures |TR.Select(ids, flags, flag)| == |TR.Select(outcomes, flags, flag)|
    ensures TR.Select(ResultMessages(ids, outcomes), flags, flag) ==
            ResultMessages(TR.Select(ids, flags, flag), TR.Select(outcomes, flags, flag))
  {
    if ids != [] {
      var messages := ResultMessages(ids, outcomes);
      FirstResult(ids[0], outcomes[0], ids[1..], outcomes[1..]);
      assert [ids[0]] + ids[1..] == ids && [outcomes[0]] + outcomes[1..] == outcomes;
      SelectResults(ids[1..], outcomes[1..], flags[1..], flag);
      hide ResultMessages;
      assert messages[1..] == ResultMessages(ids[1..], outcomes[1..]);
      FirstResult(ids[0], outcomes[0], TR.Select(ids[1..], flags[1..], flag), TR.Select(outcomes[1..], flags[1..], flag));
    }
  }

  lemma FirstResult(id: string, outcome: TB.Outcome, ids: seq<string>, outcomes: seq<TB.Outcome>)
    requires |ids| == |outcomes|
    ensures ResultMessages([id] + ids, [outcome] + outcomes) == [ResultMessage(id, outcome)] + ResultMessages(ids, outcomes)
  {
    hide ResultMessage;
    var rest := ResultMessages(ids, outcomes);
    var longer := ResultMessages([id] + ids, [outcome] + outcomes);
    assert longer[0] == ResultMessage(id, outcome);
    assert forall i :: 0 <= i < |rest| ==> longer[i + 1] == rest[i];
  }

  lemma CompleteReduce(t: Transcript, ids: seq<string>, log: seq<TB.Event>, outcomes: seq<TB.Outcome>)
    requires TB.Complete(log, outcomes) && |ids| == |outcomes|
    requires t.streaming.None? && t.pending == {}
    ensures Within(ids, log)
    ensures ReduceAll(t, ToolEvents(ids, log)).messages == t.messages + ResultMessages(ids, outcomes)
    ensures ReduceAll(t, ToolEvents(ids, log)).streaming.None? && ReduceAll(t, ToolEvents(ids, log)).pending == {}
  {
    CompleteCalls(log, outcomes);
    ToolEventsReduce(t, ids, log);
    assert ReportMessages(ids, TB.Reports(log)) == ResultMessages(ids, outcomes);
  }

  lemma {:induction false} AnnounceReduce(t: Transcript, messages: seq<Message>)
    requires t.streaming.None?
    ensures ReduceAll(t, Announce(messages)) == t.(messages := t.messages + messages)
  {
    if messages == [] {
      assert t.messages + messages == t.messages;
    } else {
      var init, m := messages[..|messages| - 1], messages[|messages| - 1];
      AnnounceReduce(t, init);
      ReduceConcat(t, Announce(init), [MessageStart(m), MessageEnd(m)]);
      ReduceTwo(ReduceAll(t, Announce(init)), MessageStart(m), MessageEnd(m));
      assert t.messages + messages == t.messages + init + [m];
    }
  }

  lemma {:induction false} StreamReduce(t: Transcript, stream: seq<StreamEvent>)
    ensures ReduceAll(t, StreamEvents(stream)) == t.(streaming := ReduceAll(t, StreamEvents(stream)).streaming)
  {
    if stream != [] {
      StreamReduce(t, stream[..|stream| - 1]);
      var first := StreamEvents(stream[..|stream| - 1]);
      var m := stream[|stream| - 1].partial;
      ReduceConcat(t, first, [MessageStart(m)]);
      ReduceConcat(t, first, [MessageUpdate(m)]);
      ReduceOne(ReduceAll(t, first), MessageStart(m));
      ReduceOne(ReduceAll(t, first), MessageUpdate(m));
      assert first + [] == first;
    }
  }

  lemma ResponseReduce(t: Transcript, turn: Turn)
    ensures ReduceAll(t, ResponseEvents(turn)) == t.(messages := t.messages + [turn.final], streaming := None)
  {
    hide ReduceAll, StreamEvents, Partials;
    var first := StreamEvents(turn.stream);
    var start := if Partials(turn.stream) == [] then [MessageStart(turn.final)] else [];
    StreamReduce(t, turn.stream);
    var u := ReduceAll(t, first);
    ReduceConcat(t, first, start);
    ReduceNone(u);
    ReduceOne(u, MessageStart(turn.final));
    var v := ReduceAll(t, first + start);
    ReduceConcat(t, first + start, [MessageEnd(turn.final)]);
    ReduceOne(v, MessageEnd(turn.final));
  }

  /** After each turn's last event the transcript holds the turn, and nothing is streaming or pending. */
  lemma {:induction false} TurnReduce(t: Transcript, turn: Turn, first: bool)
    requires ValidTurn(turn) && t.streaming.None? && t.pending == {}
    ensures ReduceAll(t, TurnEvents(turn, first)).messages == t.messages + TurnShown(turn)
    ensures ReduceAll(t, TurnEvents(turn, first)).streaming.None? && ReduceAll(t, TurnEvents(turn, first)).pending == {}
  {
    hide ReduceAll, Announce, ResponseEvents, TurnClosing, ShownResults;
    var start := if first then [] else [TurnStart];
    ReduceNone(t);
    ReduceOne(t, TurnStart);
    assert ReduceAll(t, start) == t;
    ReduceConcat(t, start, Announce(turn.pending));
    AnnounceReduce(t, turn.pending);
    var u := ReduceAll(t, start + Announce(turn.pending));
    ReduceConcat(t, start + Announce(turn.pending), ResponseEvents(turn));
    ResponseReduce(u, turn);
    var v := ReduceAll(t, TurnOpening(turn, first));
    ClosingReduce(v, turn);
    ReduceConcat(t, TurnOpening(turn, first), TurnClosing(turn));
  }

  lemma ClosingReduce(v: Transcript, turn: Turn)
    requires ValidTurn(turn) && v.streaming.None? && v.pending == {}
    ensures ReduceAll(v, TurnClosing(turn)).messages == v.messages + ShownResults(turn)
    ensures ReduceAll(v, TurnClosing(turn)).streaming.None? && ReduceAll(v, TurnClosing(turn)).pending == {}
  {
    hide ReduceAll, RoundEvents, TR.Select, TB.Complete, TR.Distinct;
    var end := TurnEnd(turn.final, KeptResults(turn));
    if RunsTools(turn) {
      RoundReduce(v, turn);
      ReduceConcat(v, RoundEvents(turn), [end]);
      ReduceOne(ReduceAll(v, RoundEvents(turn)), end);
    } else {
      assert TurnClosing(turn) == [end];
      ReduceOne(v, end);
    }
  }

  lemma OpeningReduce(t: Transcript, prompts: seq<Message>)
    requires t.streaming.None? && t.pending == {}
    ensures ReduceAll(t, [AgentStart, TurnStart] + Announce(prompts)).messages == t.messages + prompts
    ensures ReduceAll(t, [AgentStart, TurnStart] + Announce(prompts)).streaming.None?
    ensures ReduceAll(t, [AgentStart, TurnStart] + Announce(prompts)).pending == {}
  {
    hide ReduceAll, Announce;
    ReduceTwo(t, AgentStart, TurnStart);
    ReduceConcat(t, [AgentStart, TurnStart], Announce(prompts));
    AnnounceReduce(t, prompts);
  }

  /**
   The agent's transcript, at every turn boundary of a run: the messages it had, then the run's own
   in the order they were announced, with no message left streaming and no call left pending.
   */
  lemma {:induction false} TranscriptFollowsRun(t: Transcript, prompts: seq<Message>, turns: seq<Turn>)
    requires ValidTurns(turns) && t.streaming.None? && t.pending == {}
    ensures ReduceAll(t, RunEvents(prompts, turns)).messages == t.messages + RunShown(prompts, turns)
    ensures ReduceAll(t, RunEvents(prompts, turns)).streaming.None?
    ensures ReduceAll(t, RunEvents(prompts, turns)).pending == {}
  {
    hide ReduceAll, Announce, TurnEvents, TurnShown, ValidTurn;
    if turns == [] {
      OpeningReduce(t, prompts);
    } else {
      hide Reduce;
      var init, last := turns[..|turns| - 1], turns[|turns| - 1];
      TranscriptFollowsRun(t, prompts, init);
      TurnReduce(ReduceAll(t, RunEvents(prompts, init)), last, |turns| == 1);
      ReduceConcat(t, RunEvents(prompts, init), TurnEvents(last, |turns| == 1));
    }
  }

  /** No foreground call stands before a background call in the round. */
  predicate BackgroundFirst(flags: seq<bool>)
  {
    forall i, j :: 0 <= i < j < |flags| && flags[j] ==> flags[i]
  }

  lemma {:induction false} NothingSelected<T>(s: seq<T>, flags: seq<bool>)
    requires |s| == |flags| && forall i :: 0 <= i < |flags| ==> !flags[i]
    ensures TR.Select(s, flags, true) == [] && TR.Select(s, flags, false) == s
  {
    if s != [] {
      NothingSelected(s[1..], flags[1..]);
    }
  }

  lemma {:induction false} SelectKeepsOrder<T>(s: seq<T>, flags: seq<bool>)
    requires |s| == |flags| && forall i, j :: 0 <= i < j < |s| ==> s[i] != s[j]
    ensures TR.Select(s, flags, true) + TR.Select(s, flags, false) == s <==> BackgroundFirst(flags)
  {
    if s == [] {
    } else if flags[0] {
      SelectKeepsOrder(s[1..], flags[1..]);
      var rest := TR.Select(s[1..], flags[1..], true) + TR.Select(s[1..], flags[1..], false);
      assert TR.Select(s, flags, true) + TR.Select(s, flags, false) == [s[0]] + rest;
      assert s == [s[0]] + s[1..];
      assert ([s[0]] + rest)[1..] == rest;
      assert BackgroundFirst(flags[1..]) <==> BackgroundFirst(flags) by {
        assert forall i :: 0 < i < |flags| ==> flags[i] == flags[1..][i - 1];
      }
    } else if j :| 0 < j < |flags| && flags[j] {
      assert flags[1..][j - 1];
      TR.SelectMember(s[1..], flags[1..], true, j - 1);
      var k := TR.SelectComesFrom(s[1..], flags[1..], true, TR.Select(s, flags, true)[0]);
      assert s[1..][k] == s[k + 1];
      assert TR.Select(s, flags, true)[0] != s[0];
    } else {
      NothingSelected(s, flags);
    }
  }

  lemma ResultsDiffer(t: Turn)
    requires ValidTurn(t)
    ensures forall i, j :: 0 <= i < j < |KeptResults(t)| ==> KeptResults(t)[i] != KeptResults(t)[j]
  {
    var ids := CallIds(t.final);
    forall i, j | 0 <= i < j < |KeptResults(t)| ensures KeptResults(t)[i] != KeptResults(t)[j] {
      assert KeptResults(t)[i].callId == ids[i] && KeptResults(t)[j].callId == ids[j];
    }
  }

  /** The transcript of a finished run. */
  lemma {:induction false} TranscriptAtEnd(t: Transcript, prompts: seq<Message>, turns: seq<Turn>, all: seq<Message>)
    requires ValidTurns(turns) && t.streaming.None? && t.pending == {}
    ensures var u := ReduceAll(t, RunEvents(prompts, turns) + [AgentEnd(all)]);
            u.messages == t.messages + RunShown(prompts, turns) && u.streaming.None? && u.pending == {}
  {
    hide ReduceAll, RunEvents, RunShown, ValidTurns;
    TranscriptFollowsRun(t, prompts, turns);
    ReduceConcat(t, RunEvents(prompts, turns), [AgentEnd(all)]);
    ReduceOne(ReduceAll(t, RunEvents(prompts, turns)), AgentEnd(all));
  }

  /** One turn: what is announced is a permutation of what is kept, and the same unless the round is mixed. */
  lemma {:induction false} ShownVersusKept(t: Turn)
    requires ValidTurn(t)
    ensures multiset(TurnShown(t)) == multiset(TurnNew(t)) && |TurnShown(t)| == |TurnNew(t)|
    ensures TurnShown(t) == TurnNew(t) <==> !RunsTools(t) || BackgroundFirst(t.round.background)
  {
    var flags := if RunsTools(t) then t.round.background else [];
    TR.SelectSplits(KeptResults(t), flags);
    assert |ShownResults(t)| == |multiset(ShownResults(t))| == |KeptResults(t)|;
    ResultsDiffer(t);
    SelectKeepsOrder(KeptResults(t), flags);
    hide ValidTurn;
    var head := t.pending + [t.final];
    assert TurnShown(t)[|head|..] == ShownResults(t) && TurnNew(t)[|head|..] == KeptResults(t);
  }

  lemma SplitEqual<T>(a: seq<T>, b: seq<T>, c: seq<T>, d: seq<T>)
    requires |a| == |c|
    ensures a + b == c + d <==> a == c && b == d
  {
    if a + b == c + d {
      assert (a + b)[..|a|] == a && (c + d)[..|c|] == c;
      assert (a + b)[|a|..] == b && (c + d)[|c|..] == d;
    }
  }

  predicate InOrder(t: Turn)
  {
    !RunsTools(t) || BackgroundFirst(t.round.background)
  }

  predicate AllInOrder(turns: seq<Turn>)
  {
    forall i :: 0 <= i < |turns| ==> InOrder(turns[i])
  }

  predicate AllOneStart(turns: seq<Turn>)
  {
    forall i :: 0 <= i < |turns| ==> OneStart(turns[i])
  }

  predicate NoneReplaced(turns: seq<Turn>)
  {
    forall i :: 0 <= i < |turns| ==> turns[i].replacement.None?
  }

  lemma AllButLast(turns: seq<Turn>)
    requires turns != []
    ensures AllInOrder(turns) <==> AllInOrder(turns[..|turns| - 1]) && InOrder(turns[|turns| - 1])
    ensures AllOneStart(turns) <==> AllOneStart(turns[..|turns| - 1]) && OneStart(turns[|turns| - 1])
    ensures NoneReplaced(turns) ==> NoneReplaced(turns[..|turns| - 1]) && turns[|turns| - 1].replacement.None?
    ensures ValidTurns(turns) ==> ValidTurns(turns[..|turns| - 1]) && ValidTurn(turns[|turns| - 1])
  {
    hide InOrder, OneStart, ValidTurn;
    var init := turns[..|turns| - 1];
    assert forall i :: 0 <= i < |init| ==> init[i] == turns[i];
  }

  /** Over a whole run: the same messages, and in the same order exactly when no round is mixed. */
  lemma {:induction false} AnnouncedIsPermutation(prompts: seq<Message>, turns: seq<Turn>)
    requires ValidTurns(turns)
    ensures multiset(RunShown(prompts, turns)) == multiset(RunNew(prompts, turns))
    ensures |RunShown(prompts, turns)| == |RunNew(prompts, turns)|
    ensures RunShown(prompts, turns) == RunNew(prompts, turns) <==> AllInOrder(turns)
  {
    if turns != [] {
      AllButLast(turns);
      hide TurnShown, TurnNew, ValidTurn, ValidTurns, InOrder, AllInOrder;
      var init, last := turns[..|turns| - 1], turns[|turns| - 1];
      AnnouncedIsPermutation(prompts, init);
      ShownVersusKept(last);
      SplitEqual(RunShown(prompts, init), TurnShown(last), RunNew(prompts, init), TurnNew(last));
    }
  }

  /**
   The loop's context is the old context and the run's new messages exactly when no provider stream
   announced a second `Start`, in a run whose context no hook replaced.
   */
  lemma {:induction false} ContextFollowsRun(context: seq<Message>, prompts: seq<Message>, turns: seq<Turn>)
    requires ValidTurns(turns) && NoneReplaced(turns)
    ensures |RunContext(context, prompts, turns)| >= |context| + |RunNew(prompts, turns)|
    ensures RunContext(context, prompts, turns) == context + RunNew(prompts, turns) <==> AllOneStart(turns)
  {
    if turns != [] {
      AllButLast(turns);
      hide TurnNew, ValidTurn, ValidTurns, OneStart, AllOneStart, NoneReplaced, KeptResults, AfterResponse;
      var init, last := turns[..|turns| - 1], turns[|turns| - 1];
      ContextFollowsRun(context, prompts, init);
      RunSnoc(context, prompts, turns);
      hide RunContext, RunNew;
      ContextStep(RunContext(context, prompts, init), context + RunNew(prompts, init), last);
    }
  }

  lemma {:induction false} RunSnoc(context: seq<Message>, prompts: seq<Message>, turns: seq<Turn>)
    requires turns != [] && ValidTurns(turns) && turns[|turns| - 1].replacement.None?
    ensures ValidTurns(turns[..|turns| - 1]) && ValidTurn(turns[|turns| - 1])
    ensures var init, last := turns[..|turns| - 1], turns[|turns| - 1];
            context + RunNew(prompts, turns) == context + RunNew(prompts, init) + TurnNew(last) &&
            RunContext(context, prompts, turns) ==
            AfterResponse(RunContext(context, prompts, init) + last.pending, last.stream, last.final) + KeptResults(last)
  {
    hide AfterResponse, KeptResults, TurnNew, TB.Complete;
  }

  lemma ContextStep(actual: seq<Message>, ideal: seq<Message>, t: Turn)
    requires ValidTurn(t) && |actual| >= |ideal|
    ensures |AfterResponse(actual + t.pending, t.stream, t.final) + KeptResults(t)| >= |ideal + TurnNew(t)|
    ensures AfterResponse(actual + t.pending, t.stream, t.final) + KeptResults(t) == ideal + TurnNew(t) <==>
            actual == ideal && OneStart(t)
  {
    hide KeptResults, Partials;
    var after := AfterResponse(actual + t.pending, t.stream, t.final) + KeptResults(t);
    if OneStart(t) {
      assert after == actual + TurnNew(t);
      if |actual| == |ideal| {
        SplitEqual(actual, TurnNew(t), ideal, TurnNew(t));
      }
    } else {
      assert |after| > |ideal + TurnNew(t)|;
    }
  }

  // ---------------------------------------------------------------------------------------------
  // What the reducer remembers
  // ---------------------------------------------------------------------------------------------

  /** The messages whose end is announced, in order. */
  function EndedMessages(events: seq<AgentEvent>): seq<Message>
  {
    if events == [] then []
    else
      EndedMessages(events[..|events| - 1]) +
      match events[|events| - 1]
      case MessageEnd(m) => [m]
      case _ => []
  }

  /** The event starts or ends the call. */
  predicate OnCall(e: AgentEvent, id: string)
  {
    (e.ToolStart? || e.ToolEnd?) && e.callId == id
  }

  /** The event says what is streaming. */
  predicate OnStream(e: AgentEvent)
  {
    e.MessageStart? || e.MessageUpdate? || e.MessageEnd? || e.AgentEnd?
  }

  /** The event ends a turn with an error. */
  predicate OnError(e: AgentEvent)
  {
    e.TurnEnd? && e.message.Assistant? && e.message.error.Some?
  }

  /** The last of `events` on which `p` holds is at `k`. */
  predicate LastWhere(events: seq<AgentEvent>, p: AgentEvent -> bool, k: nat)
  {
    k < |events| && p(events[k]) && forall j :: k < j < |events| ==> !p(events[j])
  }

  predicate NoneWhere(events: seq<AgentEvent>, p: AgentEvent -> bool)
  {
    forall j :: 0 <= j < |events| ==> !p(events[j])
  }

  lemma LastWhereSnoc(events: seq<AgentEvent>, p: AgentEvent -> bool)
    requires events != []
    ensures var init, n := events[..|events| - 1], |events| - 1;
            if p(events[n]) then !NoneWhere(events, p) && forall k: nat :: LastWhere(events, p, k) <==> k == n
            else (NoneWhere(events, p) <==> NoneWhere(init, p)) &&
                 forall k: nat :: LastWhere(events, p, k) <==> LastWhere(init, p, k) && k < n
  {
    var init := events[..|events| - 1];
    assert forall j :: 0 <= j < |init| ==> init[j] == events[j];
  }

  /** A call is pending if the last event on it is its start, or if it was and there is none. */
  lemma {:induction false} PendingByLast(t: Transcript, events: seq<AgentEvent>, id: string)
    ensures id in ReduceAll(t, events).pending <==>
              (exists k: nat :: LastWhere(events, e => OnCall(e, id), k) && events[k].ToolStart?) ||
              (id in t.pending && NoneWhere(events, e => OnCall(e, id)))
  {
    var p := e => OnCall(e, id);
    if events != [] {
      PendingByLast(t, events[..|events| - 1], id);
      LastWhereSnoc(events, p);
      hide LastWhere, NoneWhere;
    }
  }

  /** A message streams if the last event on messages starts or updates it, or if it did and there is none. */
  lemma {:induction false} StreamingByLast(t: Transcript, events: seq<AgentEvent>, m: Message)
    ensures ReduceAll(t, events).streaming == Some(m) <==>
              (exists k: nat :: LastWhere(events, OnStream, k) &&
                                (events[k] == MessageStart(m) || events[k] == MessageUpdate(m))) ||
              (t.streaming == Some(m) && NoneWhere(events, OnStream))
  {
    if events != [] {
      StreamingByLast(t, events[..|events| - 1], m);
      LastWhereSnoc(events, OnStream);
      hide LastWhere, NoneWhere;
    }
  }

  /** The error is that of the last turn that ended with one. */
  lemma {:induction false} ErrorByLast(t: Transcript, events: seq<AgentEvent>)
    ensures forall k: nat :: LastWhere(events, OnError, k) ==> ReduceAll(t, events).error == events[k].message.error
    ensures NoneWhere(events, OnError) ==> ReduceAll(t, events).error == t.error
  {
    if events != [] {
      ErrorByLast(t, events[..|events| - 1]);
      LastWhereSnoc(events, OnError);
      hide LastWhere, NoneWhere;
    }
  }

  /** The messages are those whose end was announced, in order. */
  lemma {:induction false} MessagesEnded(t: Transcript, events: seq<AgentEvent>)
    ensures ReduceAll(t, events).messages == t.messages + EndedMessages(events)
  {
    if events != [] {
      MessagesEnded(t, events[..|events| - 1]);
    }
  }

  // ---------------------------------------------------------------------------------------------
  // What becomes of a turn's tool calls
  // ---------------------------------------------------------------------------------------------

  /** The provider gave the message up, or the user did. */
  predicate CutOff(m: Message)
    requires m.Assistant?
  {
    m.stop == Error || m.stop == Aborted
  }

  /** The message is the result of the call, and says what the outcome says. */
  predicate Tells(m: Message, call: ToolCall, o: TB.Outcome)
  {
    && m.ToolResult? && m.callId == call.id
    && match o
       case Ran(output) => m.text == output.text && m.isError == output.isError
       case Immediate(output) => m.text == output.text && m.isError == output.isError
       case NotRun => m.isError && m.text == "Not run: the turn was aborted"
       case Unfinished =>
         m.isError &&
         m.text == "Aborted by the user before this call finished; it may still complete in the background"
       case Detached => !m.isError
  }

  /** None when the reply was cut off, and otherwise one result for every call, in order, telling of it. */
  ghost predicate AnswersAll(results: seq<Message>, t: Turn)
    requires t.final.Assistant? && |t.round.outcomes| == |t.final.calls|
  {
    && |results| == (if CutOff(t.final) then 0 else |t.final.calls|)
    && forall i :: 0 <= i < |results| ==> Tells(results[i], t.final.calls[i], t.round.outcomes[i])
  }

  /** What a turn adds to `new_messages` and shows: its messages, its reply, and the answers to its calls. */
  lemma {:induction false} ResultsAnswerCalls(t: Turn)
    requires ValidTurn(t)
    ensures AnswersAll(KeptResults(t), t) && TurnNew(t) == t.pending + [t.final] + KeptResults(t)
    ensures CutOff(t.final) ==> TurnNew(t) == TurnShown(t) == t.pending + [t.final]
  {
    hide TB.Complete, TR.Distinct;
    if CutOff(t.final) {
      assert KeptResults(t) == ShownResults(t) == [];
    } else if t.final.calls == [] {
      assert KeptResults(t) == [];
    } else {
      hide TR.Select;
      assert forall i :: 0 <= i < |t.final.calls| ==> CallIds(t.final)[i] == t.final.calls[i].id;
    }
  }

  /** The turn's part of `new_messages`. */
  ghost predicate AddsTurn(before: seq<Message>, after: seq<Message>, t: Turn)
    requires t.final.Assistant? && |t.round.outcomes| == |t.final.calls|
  {
    exists results :: AnswersAll(results, t) && after == before + (t.pending + [t.final] + results)
  }

  /** Turn `i` of the `n` taken adds its part, and only the last one's reply may be cut off. */
  ghost predicate TurnAnswered(prompts: seq<Message>, turns: seq<Turn>, n: nat, i: nat)
  {
    && i < n <= |turns| && ValidTurn(turns[i]) && ValidTurns(turns[..i]) && ValidTurns(turns[..i + 1])
    && AddsTurn(RunNew(prompts, turns[..i]), RunNew(prompts, turns[..i + 1]), turns[i])
    && (CutOff(turns[i].final) ==> i == n - 1)
  }

  /** Over a run, turn by turn. */
  lemma {:induction false} TurnsOfRun(prompts: seq<Message>, turns: seq<Turn>, n: nat, i: nat)
    requires ValidTurns(turns) && TurnsTaken(turns, n) && i < n
    ensures TurnAnswered(prompts, turns, n, i)
  {
    hide TurnNew, ValidTurn, RunEvents, RunContext, AnswersAll, RunNew, KeptResults, TurnsTaken;
    TakenWithin(turns, n);
    NextTurn([], prompts, turns, i);
    HasSizes(turns[i]);
    ResultsAnswerCalls(turns[i]);
    if CutOff(turns[i].final) {
      CutOffEndsRun(prompts, turns, n, i);
    }
  }

  lemma TakenWithin(turns: seq<Turn>, n: nat)
    requires ValidTurns(turns) && TurnsTaken(turns, n)
    ensures n <= |turns|
  {
  }

  lemma HasSizes(t: Turn)
    requires ValidTurn(t)
    ensures t.final.Assistant? && |t.round.background| == |t.round.outcomes| == |t.final.calls|
  {
  }

  /** The number of times the call with this id is started (or, with `start` false, ended). */
  function Marked(events: seq<AgentEvent>, id: string, start: bool): nat
  {
    if events == [] then 0
    else Marked(events[..|events| - 1], id, start) +
         (if events[|events| - 1] == (if start then ToolStart(id) else ToolEnd(id)) then 1 else 0)
  }

  lemma {:induction false} MarkedJoins(a: seq<AgentEvent>, b: seq<AgentEvent>, id: string, start: bool)
    ensures Marked(a + b, id, start) == Marked(a, id, start) + Marked(b, id, start)
  {
    if b == [] {
      assert a + b == a;
    } else {
      assert (a + b)[..|a + b| - 1] == a + b[..|b| - 1];
      MarkedJoins(a, b[..|b| - 1], id, start);
    }
  }

  predicate NoneMarked(events: seq<AgentEvent>)
  {
    forall e :: e in events ==> !e.ToolStart? && !e.ToolEnd?
  }

  lemma {:induction false} NoneMarkedCounts(events: seq<AgentEvent>, id: string, start: bool)
    requires NoneMarked(events)
    ensures Marked(events, id, start) == 0
  {
    if events != [] {
      assert events[|events| - 1] in events;
      NoneMarkedCounts(events[..|events| - 1], id, start);
    }
  }

  lemma {:induction false} AnnounceMarksNone(messages: seq<Message>)
    ensures NoneMarked(Announce(messages))
  {
    if messages != [] {
      AnnounceMarksNone(messages[..|messages| - 1]);
    }
  }

  lemma {:induction false} StreamMarksNone(stream: seq<StreamEvent>)
    ensures NoneMarked(StreamEvents(stream))
  {
    if stream != [] {
      StreamMarksNone(stream[..|stream| - 1]);
    }
  }

  lemma OpeningMarksNone(t: Turn, first: bool)
    ensures NoneMarked(TurnOpening(t, first))
  {
    hide Announce, StreamEvents, Partials;
    AnnounceMarksNone(t.pending);
    StreamMarksNone(t.stream);
  }

  /** How often the log starts (or ends) call `i`. */
  function LogMarks(log: seq<TB.Event>, i: nat, start: bool): nat
  {
    if log == [] then 0
    else
      var e := log[|log| - 1];
      LogMarks(log[..|log| - 1], i, start) + (if e.call == i && (if start then e.Started? else e.Ended?) then 1 else 0)
  }

  lemma {:induction false} LogMarksMarked(ids: seq<string>, log: seq<TB.Event>, i: nat, start: bool)
    requires Within(ids, log) && TR.Distinct(ids) && i < |ids|
    ensures Marked(ToolEvents(ids, log), ids[i], start) == LogMarks(log, i, start)
  {
    if log != [] {
      var init, e := log[..|log| - 1], log[|log| - 1];
      assert e in log;
      LogMarksMarked(ids, init, i, start);
      MarkedJoins(ToolEvents(ids, init), ToolEvent(ids, e), ids[i], start);
      OneToolEvent(ids, e, i, start);
    }
  }

  lemma OneToolEvent(ids: seq<string>, e: TB.Event, i: nat, start: bool)
    requires e.call < |ids| && TR.Distinct(ids) && i < |ids|
    ensures Marked(ToolEvent(ids, e), ids[i], start) ==
            if e.call == i && (if start then e.Started? else e.Ended?) then 1 else 0
  {
    var events := ToolEvent(ids, e);
    assert e.call != i ==> ids[e.call] != ids[i];
    if |events| == 1 {
      assert events[..0] == [];
    } else {
      NoneMarkedCounts(events, ids[i], start);
    }
  }

  lemma {:induction false} NotMarked(ids: seq<string>, log: seq<TB.Event>, id: string, start: bool)
    requires Within(ids, log) && id !in ids
    ensures Marked(ToolEvents(ids, log), id, start) == 0
  {
    if log != [] {
      var init, e := log[..|log| - 1], log[|log| - 1];
      assert e in log;
      hide Marked, ToolEvent;
      NotMarked(ids, init, id, start);
      MarkedJoins(ToolEvents(ids, init), ToolEvent(ids, e), id, start);
      OtherToolEvent(ids, e, id, start);
    } else {
      NoneMarkedCounts([], id, start);
    }
  }

  lemma OtherToolEvent(ids: seq<string>, e: TB.Event, id: string, start: bool)
    requires e.call < |ids| && id !in ids
    ensures Marked(ToolEvent(ids, e), id, start) == 0
  {
    var events := ToolEvent(ids, e);
    if |events| == 1 {
      assert events[..0] == [];
    } else {
      NoneMarkedCounts(events, id, start);
    }
  }

  lemma {:induction false} CountsAreMarks(log: seq<TB.Event>, i: nat)
    ensures LogMarks(log, i, true) == TB.Count(log, TB.Started(i))
  {
    if log != [] {
      var init, e := log[..|log| - 1], log[|log| - 1];
      CountsAreMarks(init, i);
      assert log == init + [e];
    }
  }

  /** A log that ends every call once, whatever its outcome, has one end for each. */
  lemma {:induction false} EndsAreMarks(log: seq<TB.Event>, i: nat, o: TB.Outcome)
    requires forall x :: x in log && x.Ended? && x.call == i ==> x.outcome == o
    ensures LogMarks(log, i, false) == TB.Count(log, TB.Ended(i, o))
  {
    if log != [] {
      var init, e := log[..|log| - 1], log[|log| - 1];
      assert log == init + [e];
      assert e in log;
      EndsAreMarks(init, i, o);
    }
  }

  lemma CompleteMarks(log: seq<TB.Event>, outcomes: seq<TB.Outcome>, i: nat)
    requires TB.Complete(log, outcomes) && i < |outcomes|
    ensures LogMarks(log, i, true) == LogMarks(log, i, false) == 1
  {
    CountsAreMarks(log, i);
    forall x | x in log && x.Ended? && x.call == i ensures x.outcome == outcomes[i] {
      assert TB.Count(log, TB.Ended(i, x.outcome)) > 0;
    }
    EndsAreMarks(log, i, outcomes[i]);
  }

  lemma {:induction false} SelectDistinct(ids: seq<string>, flags: seq<bool>, flag: bool)
    requires |ids| == |flags| && TR.Distinct(ids)
    ensures TR.Distinct(TR.Select(ids, flags, flag))
  {
    if ids != [] {
      var rest := TR.Select(ids[1..], flags[1..], flag);
      SelectDistinct(ids[1..], flags[1..], flag);
      forall k | 0 <= k < |rest| ensures rest[k] != ids[0] {
        var j := TR.SelectComesFrom(ids[1..], flags[1..], flag, rest[k]);
        assert ids[j + 1] == rest[k];
      }
    }
  }

  /** One part of a round, background or foreground: each of its calls is started and ended once, no other is. */
  lemma PartMarks(ids: seq<string>, log: seq<TB.Event>, outcomes: seq<TB.Outcome>, id: string, start: bool)
    requires TB.Complete(log, outcomes) && |ids| == |outcomes| && TR.Distinct(ids)
    ensures Within(ids, log)
    ensures Marked(ToolEvents(ids, log), id, start) == if id in ids then 1 else 0
  {
    CompleteCalls(log, outcomes);
    if id in ids {
      var i :| 0 <= i < |ids| && ids[i] == id;
      LogMarksMarked(ids, log, i, start);
      CompleteMarks(log, outcomes, i);
    } else {
      NotMarked(ids, log, id, start);
    }
  }

  lemma SelectPartition(ids: seq<string>, flags: seq<bool>, id: string)
    requires |ids| == |flags| && TR.Distinct(ids)
    ensures id in ids <==> id in TR.Select(ids, flags, true) || id in TR.Select(ids, flags, false)
    ensures !(id in TR.Select(ids, flags, true) && id in TR.Select(ids, flags, false))
  {
    if id in ids {
      var i :| 0 <= i < |ids| && ids[i] == id;
      TR.SelectMember(ids, flags, flags[i], i);
    }
    if id in TR.Select(ids, flags, true) {
      var i := TR.SelectComesFrom(ids, flags, true, id);
      if id in TR.Select(ids, flags, false) {
        var j := TR.SelectComesFrom(ids, flags, false, id);
        assert false;
      }
    } else if id in TR.Select(ids, flags, false) {
      var j := TR.SelectComesFrom(ids, flags, false, id);
    }
  }

  lemma RoundMarks(t: Turn, id: string, start: bool)
    requires ValidTurn(t)
    ensures Marked(RoundEvents(t), id, start) == if id in CallIds(t.final) then 1 else 0
  {
    hide TB.Complete, TR.SequentialLog, TR.Select, ToolEvents, Marked;
    var ids, flags, outcomes := CallIds(t.final), t.round.background, t.round.outcomes;
    var ids1, outcomes1 := TR.Select(ids, flags, true), TR.Select(outcomes, flags, true);
    var ids2, outcomes2 := TR.Select(ids, flags, false), TR.Select(outcomes, flags, false);
    CompleteWithin(t);
    SelectSizes(ids, outcomes, flags, true);
    SelectSizes(ids, outcomes, flags, false);
    SelectDistinct(ids, flags, true);
    SelectDistinct(ids, flags, false);
    TR.SequentialComplete(outcomes1);
    PartMarks(ids1, TR.SequentialLog(outcomes1), outcomes1, id, start);
    PartMarks(ids2, t.round.foreground, outcomes2, id, start);
    MarkedJoins(ToolEvents(ids1, TR.SequentialLog(outcomes1)), ToolEvents(ids2, t.round.foreground), id, start);
    SelectPartition(ids, flags, id);
  }

  /**
   What a listener hears of a turn's calls: every call of the reply is started once and ended once, and no
   other is; of a reply that was cut off none is. The turn ends with the result messages it keeps.
   */
  lemma {:induction false} CallsAreHeard(t: Turn, first: bool, id: string, start: bool)
    requires ValidTurn(t)
    ensures Marked(TurnEvents(t, first), id, start) == if !CutOff(t.final) && id in CallIds(t.final) then 1 else 0
    ensures TurnEvents(t, first)[|TurnEvents(t, first)| - 1] == TurnEnd(t.final, KeptResults(t))
    ensures CutOff(t.final) ==> NoneMarked(TurnEvents(t, first)) && KeptResults(t) == []
  {
    hide RoundEvents, TurnOpening, Marked, TB.Complete, TR.Distinct, TR.Select;
    ResultsAnswerCalls(t);
    var end := [TurnEnd(t.final, KeptResults(t))];
    var round := if RunsTools(t) then RoundEvents(t) else [];
    OpeningMarksNone(t, first);
    NoneMarkedCounts(TurnOpening(t, first), id, start);
    NoneMarkedCounts(end, id, start);
    NoneMarkedCounts([], id, start);
    MarkedJoins(TurnOpening(t, first), TurnClosing(t), id, start);
    MarkedJoins(round, end, id, start);
    RoundMarks(t, id, start);
  }

  /** Every foreground call came to an output that asks for the run to end, and there was one. */
  predicate AllAskToEnd(t: Turn)
    requires |t.round.background| == |t.round.outcomes|
  {
    && (exists i :: 0 <= i < |t.round.background| && !t.round.background[i])
    && forall i :: 0 <= i < |t.round.background| && !t.round.background[i] ==>
         match t.round.outcomes[i]
         case Ran(output) => output.terminate
         case Immediate(output) => output.terminate
         case _ => false
  }

  /**
   When a run goes on after a turn: never after a reply that was cut off, nor where a hook stops it; and
   otherwise exactly when a message is waiting, or the reply had calls and not all that ran in the
   foreground asked for the end.
   */
  lemma {:induction false} GoesOn(turns: seq<Turn>, i: nat)
    requires 0 < i < |turns| && ValidTurn(turns[i - 1])
    ensures Continues(turns, i) <==>
              && !CutOff(turns[i - 1].final) && !turns[i - 1].stop
              && (turns[i].pending != [] || (turns[i - 1].final.calls != [] && !AllAskToEnd(turns[i - 1])))
  {
    hide TB.Complete, TR.Distinct;
    EndsWhenAllAsk(turns[i - 1]);
  }

  lemma EndsWhenAllAsk(t: Turn)
    requires |t.round.background| == |t.round.outcomes|
    ensures TR.ShouldTerminate(TR.Select(t.round.outcomes, t.round.background, false)) <==> AllAskToEnd(t)
  {
    var outcomes, flags := t.round.outcomes, t.round.background;
    var chosen := TR.Select(outcomes, flags, false);
    forall i | 0 <= i < |flags| && !flags[i] ensures outcomes[i] in chosen {
      TR.SelectMember(outcomes, flags, false, i);
    }
    forall o | o in chosen ensures exists i :: 0 <= i < |flags| && !flags[i] && outcomes[i] == o {
      var i := TR.SelectComesFrom(outcomes, flags, false, o);
    }
    if chosen != [] {
      assert chosen[0] in chosen;
    }
  }

  /** Over a run: a reply that was cut off ends it, and is the last of its messages, kept and announced. */
  lemma {:induction false} CutOffEndsRun(prompts: seq<Message>, turns: seq<Turn>, n: nat, i: nat)
    requires ValidTurns(turns) && TurnsTaken(turns, n) && i < n && CutOff(turns[i].final)
    ensures i == n - 1 && ValidTurns(turns[..n]) && ValidTurns(turns[..i])
    ensures RunNew(prompts, turns[..n]) == RunNew(prompts, turns[..i]) + (turns[i].pending + [turns[i].final])
    ensures RunShown(prompts, turns[..n]) == RunShown(prompts, turns[..i]) + (turns[i].pending + [turns[i].final])
  {
    hide TurnNew, TurnShown;
    if i < n - 1 {
      assert Continues(turns, i + 1);
      GoesOn(turns, i + 1);
      assert false;
    }
    ResultsAnswerCalls(turns[i]);
    assert turns[..n][..i] == turns[..i];
  }

  /** What a stream announces: one event for every stream event from the first `Start` on, and nothing before. */
  lemma {:induction false} StreamAnnounced(stream: seq<StreamEvent>) returns (f: nat)
    ensures f <= |stream| && (f < |stream| ==> stream[f].Start?) && forall k :: 0 <= k < f ==> stream[k].Delta?
    ensures |StreamEvents(stream)| == |stream| - f
    ensures forall k :: f <= k < |stream| ==>
              StreamEvents(stream)[k - f] ==
              (if stream[k].Start? then MessageStart(stream[k].partial) else MessageUpdate(stream[k].partial))
    ensures f == |stream| <==> Partials(stream) == []
  {
    if stream == [] {
      f := 0;
    } else {
      f := StreamAnnounced(stream[..|stream| - 1]);
      if f == |stream| - 1 && stream[f].Delta? {
        f := |stream|;
      }
    }
  }

  // ---------------------------------------------------------------------------------------------
  // Turn starts and ends alternate
  // ---------------------------------------------------------------------------------------------

  /** Whether a turn is open after `events`, starting from `inTurn`; `None` when they do not alternate. */
  function TurnOpen(inTurn: Option<bool>, events: seq<AgentEvent>): Option<bool>
  {
    if events == [] then inTurn
    else
      var before := TurnOpen(inTurn, events[..|events| - 1]);
      match events[|events| - 1]
      case TurnStart => if before == Some(false) then Some(true) else None
      case TurnEnd(_, _) => if before == Some(true) then Some(false) else None
      case _ => before
  }

  predicate NoMarks(events: seq<AgentEvent>)
  {
    forall e :: e in events ==> !e.TurnStart? && !e.TurnEnd?
  }

  lemma {:induction false} TurnOpenConcat(inTurn: Option<bool>, first: seq<AgentEvent>, second: seq<AgentEvent>)
    ensures TurnOpen(inTurn, first + second) == TurnOpen(TurnOpen(inTurn, first), second)
    ensures NoMarks(second) ==> TurnOpen(inTurn, first + second) == TurnOpen(inTurn, first)
  {
    if second == [] {
      assert first + second == first;
    } else {
      assert (first + second)[..|first + second| - 1] == first + second[..|second| - 1];
      TurnOpenConcat(inTurn, first, second[..|second| - 1]);
    }
  }

  lemma {:induction false} AnnounceUnmarked(messages: seq<Message>)
    ensures NoMarks(Announce(messages))
  {
    if messages != [] {
      AnnounceUnmarked(messages[..|messages| - 1]);
    }
  }

  lemma {:induction false} StreamUnmarked(stream: seq<StreamEvent>)
    ensures NoMarks(StreamEvents(stream))
  {
    if stream != [] {
      StreamUnmarked(stream[..|stream| - 1]);
    }
  }

  lemma {:induction false} ToolsUnmarked(ids: seq<string>, log: seq<TB.Event>)
    requires Within(ids, log)
    ensures NoMarks(ToolEvents(ids, log))
  {
    if log != [] {
      assert log[|log| - 1] in log;
      ToolsUnmarked(ids, log[..|log| - 1]);
    }
  }

  lemma StartThenEnd(first: bool, end: AgentEvent)
    requires end.TurnEnd?
    ensures TurnOpen(Some(first), if first then [] else [TurnStart]) == Some(true)
    ensures TurnOpen(Some(true), [end]) == Some(false)
  {
    assert [TurnStart][..0] == [] && [end][..0] == [];
  }

  lemma TurnUnmarked(t: Turn)
    requires ValidTurn(t)
    ensures NoMarks(Announce(t.pending)) && NoMarks(ResponseEvents(t))
    ensures RunsTools(t) ==> NoMarks(RoundEvents(t))
  {
    hide TB.Complete, TR.Select, TR.SequentialLog;
    AnnounceUnmarked(t.pending);
    StreamUnmarked(t.stream);
    CompleteWithin(t);
    var ids, flags := CallIds(t.final), t.round.background;
    ToolsUnmarked(TR.Select(ids, flags, true), TR.SequentialLog(TR.Select(t.round.outcomes, flags, true)));
    ToolsUnmarked(TR.Select(ids, flags, false), t.round.foreground);
  }

  lemma {:induction false} TurnAlternates(t: Turn, first: bool)
    requires ValidTurn(t)
    ensures TurnOpen(Some(first), TurnEvents(t, first)) == Some(false)
  {
    hide TurnOpen, TB.Complete, TR.Select, RoundEvents, Announce, ResponseEvents, KeptResults;
    TurnUnmarked(t);
    var start := if first then [] else [TurnStart];
    var middle := Announce(t.pending) + ResponseEvents(t) + (if RunsTools(t) then RoundEvents(t) else []);
    var end := [TurnEnd(t.final, KeptResults(t))];
    assert NoMarks(middle);
    StartThenEnd(first, TurnEnd(t.final, KeptResults(t)));
    TurnOpenConcat(Some(first), start, middle);
    TurnOpenConcat(Some(first), start + middle, end);
    assert TurnEvents(t, first) == start + middle + end;
  }

  /** Every run opens a turn, closes it, and so on: at a turn boundary after the first no turn is open. */
  lemma {:induction false} TurnsAlternate(prompts: seq<Message>, turns: seq<Turn>)
    requires ValidTurns(turns)
    ensures TurnOpen(Some(false), RunEvents(prompts, turns)) == Some(turns == [])
  {
    hide TurnEvents, Announce;
    if turns == [] {
      var head := [AgentStart, TurnStart];
      assert head[..1] == [AgentStart] && head[..1][..0] == [];
      AnnounceUnmarked(prompts);
      TurnOpenConcat(Some(false), head, Announce(prompts));
    } else {
      var init, last := turns[..|turns| - 1], turns[|turns| - 1];
      TurnsAlternate(prompts, init);
      TurnAlternates(last, |turns| == 1);
      TurnOpenConcat(Some(false), RunEvents(prompts, init), TurnEvents(last, |turns| == 1));
    }
  }

  // ---------------------------------------------------------------------------------------------
  // A parallel batch is a legal foreground of a round
  // ---------------------------------------------------------------------------------------------

  /** Whatever schedule a finished parallel batch took, its log and results make a valid round. */
  lemma BatchFitsRound(t: Turn, b: TB.Batch, run: seq<TB.Action>, s: TB.State)
    requires t.final.Assistant? && TR.Distinct(CallIds(t.final))
    requires |t.round.background| == |t.round.outcomes| == |t.final.calls|
    requires TB.After(b, run) == Some(s) && s.phase.Finished?
    requires t.round.foreground == s.log
    requires |s.finalized| == |TR.Select(t.round.outcomes, t.round.background, false)|
    requires forall i :: 0 <= i < |s.finalized| ==>
               s.finalized[i] == Some(TR.Select(t.round.outcomes, t.round.background, false)[i])
    ensures ValidTurn(t)
  {
    TB.EveryCallAnswered(b, run, s);
    assert TB.Outcomes(s) == TR.Select(t.round.outcomes, t.round.background, false);
  }
}
