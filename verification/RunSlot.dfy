/**
 The run slot of the agent and its streaming flag. Starting a run takes two steps under two locks, the
 claim and the mark; ending one takes a single step under both. Any number of runs may try at any time.
 */
module RunSlot {
  import opened Prelude

  /** What an observer sees. */
  datatype Slot = Slot(active: bool, streaming: bool)

  function Claimed(slot: Slot): Slot
  {
    slot.(active := true)
  }

  function Marked(slot: Slot): Slot
  {
    slot.(streaming := true)
  }

  function Finished(slot: Slot): Slot
  {
    Slot(false, false)
  }

  /** Where a run is; `TurnedAway` found the slot taken. */
  datatype Stage = Waiting | TurnedAway | Holding | Going | Over

  datatype State = State(slot: Slot, runs: seq<Stage>)

  /** Run `r` tries to claim the slot, sets the flag, emits an event, or finishes. */
  datatype Action = Claim(r: nat) | Mark(r: nat) | Event(r: nat) | Finish(r: nat)

  function Initial(n: nat): State
  {
    State(Slot(false, false), seq(n, i => Waiting))
  }

  predicate Enabled(s: State, a: Action)
  {
    a.r < |s.runs| &&
    match a
    case Claim(r) => s.runs[r].Waiting?
    case Mark(r) => s.runs[r].Holding?
    case Event(r) => s.runs[r].Going?
    case Finish(r) => s.runs[r].Going?
  }

  function Apply(s: State, a: Action): State
    requires Enabled(s, a)
  {
    match a
    case Claim(r) =>
      if s.slot.active then s.(runs := s.runs[r := TurnedAway])
      else State(Claimed(s.slot), s.runs[r := Holding])
    case Mark(r) => State(Marked(s.slot), s.runs[r := Going])
    case Event(_) => s
    case Finish(r) => State(Finished(s.slot), s.runs[r := Over])
  }

  function After(n: nat, steps: seq<Action>): Option<State>
  {
    if steps == [] then Some(Initial(n))
    else
      var a := steps[|steps| - 1];
      match After(n, steps[..|steps| - 1])
      case None => None
      case Some(s) => if Enabled(s, a) then Some(Apply(s, a)) else None
  }

  predicate HasSlot(stage: Stage)
  {
    stage.Holding? || stage.Going?
  }

  /** One run at most has the slot, and the slot and the flag say how far it is. */
  ghost predicate Inv(s: State)
  {
    && (forall i, j :: 0 <= i < j < |s.runs| ==> !HasSlot(s.runs[i]) || !HasSlot(s.runs[j]))
    && (s.slot.active <==> exists i :: 0 <= i < |s.runs| && HasSlot(s.runs[i]))
    && (s.slot.streaming <==> exists i :: 0 <= i < |s.runs| && s.runs[i].Going?)
  }

  lemma {:induction false} InvKept(s: State, a: Action)
    requires Inv(s) && Enabled(s, a)
    ensures Inv(Apply(s, a))
  {
    var t := Apply(s, a);
    assert t.runs[a.r] == if a.Event? then s.runs[a.r] else t.runs[a.r];
    if HasSlot(s.runs[a.r]) || HasSlot(t.runs[a.r]) {
      assert forall i :: 0 <= i < |s.runs| && i != a.r ==> t.runs[i] == s.runs[i] && !HasSlot(s.runs[i]);
    } else {
      assert forall i :: 0 <= i < |s.runs| ==> HasSlot(t.runs[i]) == HasSlot(s.runs[i]);
      assert forall i :: 0 <= i < |s.runs| ==> t.runs[i].Going? == s.runs[i].Going?;
    }
  }

  lemma {:induction false} Reachable(n: nat, steps: seq<Action>)
    requires After(n, steps).Some?
    ensures Inv(After(n, steps).value)
  {
    if steps != [] {
      Reachable(n, steps[..|steps| - 1]);
      InvKept(After(n, steps[..|steps| - 1]).value, steps[|steps| - 1]);
      hide Inv;
    }
  }

  /** The last step that changed the slot was a claim; a refused claim and an event change nothing. */
  predicate LastWasClaim(n: nat, steps: seq<Action>)
    requires After(n, steps).Some?
  {
    steps != [] &&
    var before, a := steps[..|steps| - 1], steps[|steps| - 1];
    if a.Event? || (a.Claim? && After(n, before).value.slot.active) then LastWasClaim(n, before) else a.Claim?
  }

  /**
   Exactly when the slot is held and nothing is streaming: when the last step that changed the slot was a
   claim. Ending a run never shows it, and the flag is never up without the slot.
   */
  lemma {:induction false} HeldUnmarkedIffClaimed(n: nat, steps: seq<Action>)
    requires After(n, steps).Some?
    ensures var slot := After(n, steps).value.slot;
            && (slot.active && !slot.streaming <==> LastWasClaim(n, steps))
            && (slot.streaming ==> slot.active)
  {
    Reachable(n, steps);
    if steps != [] {
      var before, a := steps[..|steps| - 1], steps[|steps| - 1];
      HeldUnmarkedIffClaimed(n, before);
      Reachable(n, before);
      var s := After(n, before).value;
      if a.Claim? && !s.slot.active {
        NotStreaming(s);
      }
      hide Inv;
    }
  }

  lemma NotStreaming(s: State)
    requires Inv(s) && !s.slot.active
    ensures !s.slot.streaming
  {
    forall i | 0 <= i < |s.runs| ensures !s.runs[i].Going? {
      assert !HasSlot(s.runs[i]);
    }
  }

  /** Two runs never have the slot at once: whoever claims second is turned away, also in between. */
  lemma {:induction false} OneRunAtATime(n: nat, steps: seq<Action>, i: nat, j: nat)
    requires After(n, steps).Some? && i < |After(n, steps).value.runs| && j < |After(n, steps).value.runs|
    requires HasSlot(After(n, steps).value.runs[i]) && HasSlot(After(n, steps).value.runs[j])
    ensures i == j
  {
    Reachable(n, steps);
  }

  /** It does happen: a run has claimed, and a second one is turned away before anything streams. */
  lemma HeldUnmarkedExample()
    ensures var s := After(2, [Claim(0), Claim(1)]);
            s == Some(State(Slot(true, false), [Holding, TurnedAway]))
  {
    var steps := [Claim(0), Claim(1)];
    assert steps[..1] == [Claim(0)] && steps[..1][..0] == [];
    assert After(2, steps[..1][..0]) == Some(Initial(2));
    assert Initial(2).runs == [Waiting, Waiting];
    assert Initial(2).runs[0 := Holding] == [Holding, Waiting];
    assert [Holding, Waiting][1 := TurnedAway] == [Holding, TurnedAway];
    assert After(2, steps[..1]) == Some(State(Slot(true, false), [Holding, Waiting]));
  }
}
