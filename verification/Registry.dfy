/** The capped map of background managers that outlives single runs. */
module Registry {
  import opened Prelude

  /** A session's manager, and the lookup that last used it. */
  datatype Slot = Slot(manager: nat, lastUsed: nat)

  /** A run's reference to its manager; `ended` once the run has called `release`. */
  datatype Hold = Hold(session: string, manager: nat, ended: bool)

  type Slots = map<string, Slot>
  type Holds = map<nat, Hold>

  predicate Held(holds: Holds, manager: nat)
  {
    exists run :: run in holds && holds[run].manager == manager
  }

  /** An entry no live run holds; with `idleOnly`, one without work. */
  predicate Evictable(slots: Slots, holds: Holds, busy: set<nat>, idleOnly: bool, id: string)
  {
    id in slots && !Held(holds, slots[id].manager) && (idleOnly ==> slots[id].manager !in busy)
  }

  /** The least recently used evictable entry. */
  ghost predicate IsVictim(slots: Slots, holds: Holds, busy: set<nat>, idleOnly: bool, id: string)
  {
    && Evictable(slots, holds, busy, idleOnly, id)
    && forall other :: Evictable(slots, holds, busy, idleOnly, other) ==> slots[id].lastUsed <= slots[other].lastUsed
  }

  /**
   Whatever evictions leave, when `before` were the references at their start and `now` and `busy` are
   those and the managers with work at their end: nothing held goes; and of the entries free from the
   start idle ones go first, and older ones before newer ones.
   */
  ghost predicate Trimmed(slots: Slots, kept: Slots, before: Holds, now: Holds, busy: set<nat>)
  {
    && (forall id :: id in kept ==> id in slots && kept[id] == slots[id])
    && (forall id :: Gone(slots, kept, id) ==> !Held(now, slots[id].manager))
    && (forall id, other :: Gone(slots, kept, id) && other in kept && !Held(before, slots[other].manager) ==>
          GoesBefore(slots[id], slots[other], busy))
  }

  predicate Gone(slots: Slots, kept: Slots, id: string)
  {
    id in slots && id !in kept
  }

  /** Entries without work go before entries with work, and among either kind the one used longest ago. */
  predicate GoesBefore(a: Slot, b: Slot, busy: set<nat>)
  {
    if (a.manager in busy) == (b.manager in busy) then a.lastUsed < b.lastUsed else b.manager in busy
  }

  /** Each session has its own manager and its own time of last use. */
  predicate Separate(slots: Slots, clock: nat, next: nat)
  {
    && (forall id :: id in slots ==> slots[id].manager < next && slots[id].lastUsed <= clock)
    && (forall id, other :: id in slots && other in slots && id != other ==>
          slots[id].manager != slots[other].manager && slots[id].lastUsed != slots[other].lastUsed)
  }

  /** Every run that has not ended finds its own manager under its session. */
  predicate Shared(slots: Slots, holds: Holds, next: nat)
  {
    && (forall run :: run in holds ==> holds[run].manager < next)
    && (forall run :: run in holds && !holds[run].ended ==>
          holds[run].session in slots && slots[holds[run].session].manager == holds[run].manager)
  }

  lemma VictimIsUnique(slots: Slots, holds: Holds, busy: set<nat>, idleOnly: bool,
                       clock: nat, next: nat, a: string, b: string)
    requires Separate(slots, clock, next)
    requires IsVictim(slots, holds, busy, idleOnly, a) && IsVictim(slots, holds, busy, idleOnly, b)
    ensures a == b
  {
  }

  /** Some of the references may be gone. */
  predicate Fewer(now: Holds, before: Holds)
  {
    forall run :: run in now ==> run in before && now[run] == before[run]
  }

  /** The same managers have work, but for those that runs hold: only a run starts work or takes results. */
  ghost predicate SameUnheld(busy: set<nat>, later: set<nat>, holds: Holds)
  {
    forall manager :: !Held(holds, manager) ==> (manager in busy <==> manager in later)
  }

  lemma FreeStaysFree(now: Holds, before: Holds)
    requires Fewer(now, before)
    ensures forall manager :: Held(now, manager) ==> Held(before, manager)
  {
  }

  /** The entry evicted goes before any other that was free when idle entries were looked for. */
  lemma VictimGoesFirst(kept: Slots, first: Holds, now: Holds, busy: set<nat>, id: string, idleOnly: bool,
                        clock: nat, next: nat, other: string)
    requires Separate(kept, clock, next) && IsVictim(kept, now, busy, idleOnly, id) && Fewer(now, first)
    requires !idleOnly ==> forall x :: x in kept && !Held(first, kept[x].manager) ==> kept[x].manager in busy
    requires other in kept && other != id && !Held(first, kept[other].manager)
    ensures GoesBefore(kept[id], kept[other], busy)
  {
    FreeStaysFree(now, first);
    hide Held;
    assert !idleOnly || kept[other].manager !in busy ==> Evictable(kept, now, busy, idleOnly, other);
  }

  /** One more eviction; `first` are the references when idle entries were looked for. */
  lemma TrimOneMore(slots: Slots, kept: Slots, before: Holds, first: Holds, now: Holds, busy: set<nat>,
                    id: string, idleOnly: bool, clock: nat, next: nat)
    requires Separate(kept, clock, next) && Trimmed(slots, kept, before, now, busy)
    requires Fewer(first, before) && Fewer(now, first)
    requires IsVictim(kept, now, busy, idleOnly, id)
    requires !idleOnly ==> forall x :: x in kept && !Held(first, kept[x].manager) ==> kept[x].manager in busy
    ensures Trimmed(slots, kept - {id}, before, now, busy)
  {
    FreeStaysFree(first, before);
    hide Held, Fewer, GoesBefore, Separate;
    var fewer := kept - {id};
    assert !Held(now, slots[id].manager);
    forall x, y | Gone(slots, fewer, x) && y in fewer && !Held(before, slots[y].manager)
      ensures GoesBefore(slots[x], slots[y], busy)
    {
      if x == id {
        VictimGoesFirst(kept, first, now, busy, id, idleOnly, clock, next, y);
      } else {
        assert Gone(slots, kept, x);
      }
    }
  }

  /** Meanwhile runs may work and drop their references. */
  lemma StaysTrimmed(slots: Slots, kept: Slots, before: Holds, holds: Holds, busy: set<nat>,
                     now: Holds, later: set<nat>)
    requires Trimmed(slots, kept, before, holds, busy) && Fewer(holds, before) && Fewer(now, holds)
    requires SameUnheld(busy, later, holds)
    ensures Trimmed(slots, kept, before, now, later)
  {
    FreeStaysFree(holds, before);
    FreeStaysFree(now, holds);
    hide Held;
  }

  /**
   Between the two looks a run can drop its reference. Then an entry with work goes, being the older,
   although an idle one is free by now.
   */
  lemma IdleCanOutliveBusy(a: string, b: string, run: nat, session: string)
    requires a != b
    ensures var slots, first, busy := map[a := Slot(0, 1), b := Slot(1, 2)], map[run := Hold(session, 1, true)], {0};
            && (forall id :: !Evictable(slots, first, busy, true, id))
            && IsVictim(slots, first - {run}, busy, false, a)
            && Evictable(slots, first - {run}, busy, true, b)
  {
    var slots, first := map[a := Slot(0, 1), b := Slot(1, 2)], map[run := Hold(session, 1, true)];
    assert first[run].manager == slots[b].manager;
  }

  predicate AllHeld(slots: Slots, holds: Holds)
  {
    forall id :: id in slots ==> Held(holds, slots[id].manager)
  }

  lemma NothingEvictable(slots: Slots, holds: Holds, busy: set<nat>)
    requires forall id :: !Evictable(slots, holds, busy, false, id)
    ensures AllHeld(slots, holds)
  {
    forall id | id in slots ensures Held(holds, slots[id].manager) {
      assert !Evictable(slots, holds, busy, false, id);
    }
  }

  lemma NothingTrimmed(slots: Slots, holds: Holds, busy: set<nat>)
    ensures Trimmed(slots, slots, holds, holds, busy)
  {
  }

  lemma TrimmedIsPart(slots: Slots, kept: Slots, before: Holds, now: Holds, busy: set<nat>)
    requires Trimmed(slots, kept, before, now, busy)
    ensures forall id :: id in kept ==> id in slots && kept[id] == slots[id]
    ensures forall id :: Gone(slots, kept, id) ==> !Held(now, slots[id].manager)
  {
  }

  lemma OneMore(slots: Slots, session: string, slot: Slot)
    requires session !in slots
    ensures |slots[session := slot]| == |slots| + 1
  {
    assert slots[session := slot].Keys == slots.Keys + {session};
  }

  lemma HeldStays(slots: Slots, holds: Holds, run: nat, session: string, slot: Slot)
    requires run !in holds && AllHeld(slots, holds)
    ensures AllHeld(slots[session := slot], holds[run := Hold(session, slot.manager, false)])
  {
    var more, longer := slots[session := slot], holds[run := Hold(session, slot.manager, false)];
    forall id | id in more ensures Held(longer, more[id].manager) {
      if id == session {
        assert longer[run].manager == slot.manager;
      } else {
        var other :| other in holds && holds[other].manager == slots[id].manager;
        assert longer[other].manager == slots[id].manager;
      }
    }
  }

  /** Entering a session's own manager, or a new one, keeps managers separate and shared. */
  lemma EnterKeeps(slots: Slots, holds: Holds, clock: nat, next: nat, run: nat, session: string, manager: nat)
    requires Separate(slots, clock, next) && Shared(slots, holds, next) && run !in holds
    requires manager == (if session in slots then slots[session].manager else next)
    ensures Separate(slots[session := Slot(manager, clock + 1)], clock + 1, if manager == next then next + 1 else next)
    ensures Shared(slots[session := Slot(manager, clock + 1)], holds[run := Hold(session, manager, false)],
                   if manager == next then next + 1 else next)
  {
  }

  lemma RemoveKeeps(slots: Slots, holds: Holds, clock: nat, next: nat, id: string)
    requires Separate(slots, clock, next) && Shared(slots, holds, next)
    requires id in slots && !Held(holds, slots[id].manager)
    ensures Separate(slots - {id}, clock, next) && Shared(slots - {id}, holds, next)
  {
  }

  /** The count `release` looks at: the map and this run are the only ones to refer to the manager. */
  predicate OnlyHolder(holds: Holds, run: nat)
    requires run in holds
  {
    forall other :: other in holds && holds[other].manager == holds[run].manager ==> other == run
  }

  /** The entry is the run's own, its manager has no work, and no other run holds it. */
  predicate Releasable(slots: Slots, holds: Holds, busy: set<nat>, run: nat)
    requires run in holds
  {
    var h := holds[run];
    h.session in slots && slots[h.session].manager == h.manager && h.manager !in busy && OnlyHolder(holds, run)
  }

  lemma ReleasesIdle(slots: Slots, holds: Holds, busy: set<nat>, run: nat)
    requires run in holds
    ensures Releasable(slots, holds, busy, run) ==> slots[holds[run].session].manager !in busy
  {
  }

  /**
   What runs do, without the lock, between two looks at the map: the managers they hold are left with
   work or without, and then some runs drop their references.
   */
  datatype Pause = Pause(work: set<nat>, ended: set<nat>)

  function HeldManagers(holds: Holds): (managers: set<nat>)
    ensures forall manager :: manager in managers <==> Held(holds, manager)
  {
    set run | run in holds :: holds[run].manager
  }

  /** What can happen to the registry: runs start, release and drop their managers, and work comes and goes. */
  datatype Happening =
    | Starts(run: nat, session: string, cap: nat, pauses: seq<Pause>)
    | Releases(run: nat)
    | Drops(run: nat)
    | Work(manager: nat, on: bool)

  predicate DropsIn(pauses: seq<Pause>, run: nat)
  {
    exists j :: 0 <= j < |pauses| && run in pauses[j].ended
  }

  predicate EndsRun(step: Happening, run: nat)
  {
    if step.Starts? then DropsIn(step.pauses, run) else (step.Releases? || step.Drops?) && step.run == run
  }

  predicate NotEnded(steps: seq<Happening>, run: nat)
  {
    forall i :: 0 <= i < |steps| ==> !EndsRun(steps[i], run)
  }

  /** Only runs of these pauses may have dropped their references. */
  predicate DroppedIn(before: Holds, now: Holds, pauses: seq<Pause>)
  {
    Fewer(now, before) && forall run :: run in before && run !in now ==> DropsIn(pauses, run)
  }

  /** The run finds its own manager under its session. */
  predicate FindsOwn(slots: Slots, hold: Hold)
  {
    hold.session in slots && slots[hold.session].manager == hold.manager
  }

  lemma NothingHappened(holds: Holds, busy: set<nat>, pauses: seq<Pause>)
    ensures Fewer(holds, holds) && SameUnheld(busy, busy, holds) && DroppedIn(holds, holds, pauses)
  {
  }

  lemma MoreHappened(before: Holds, holds: Holds, now: Holds, busy: set<nat>, midway: set<nat>, later: set<nat>,
                     pauses: seq<Pause>)
    requires SameUnheld(busy, midway, before) && DroppedIn(before, holds, pauses)
    requires SameUnheld(midway, later, holds) && DroppedIn(holds, now, pauses)
    ensures SameUnheld(busy, later, before) && DroppedIn(before, now, pauses)
    ensures Fewer(holds, before) && Fewer(now, holds)
  {
    FreeStaysFree(holds, before);
  }

  /** What had work and was free when nothing idle was found still has it. */
  lemma AllWorkThere(slots: Slots, first: Holds, idle: set<nat>, now: Holds, busy: set<nat>)
    requires forall id :: !Evictable(slots, first, idle, true, id)
    requires SameUnheld(idle, busy, first)
    ensures forall id :: id in slots && !Held(first, slots[id].manager) ==> slots[id].manager in busy
  {
    hide Held;
    forall id | id in slots && !Held(first, slots[id].manager) ensures slots[id].manager in busy {
      assert !Evictable(slots, first, idle, true, id);
    }
  }

  lemma NoneNew(before: Holds, now: Holds, pauses: seq<Pause>, run: nat)
    requires DroppedIn(before, now, pauses) && run !in before
    ensures run !in now
  {
  }

  class SessionRegistry {
    var slots: Slots
    var clock: nat
    /** The managers with tasks in flight or results not yet delivered. */
    var busy: set<nat>
    /** The references of live runs, by run. */
    var holds: Holds
    var next: nat

    ghost predicate Valid()
      reads this
    {
      Separate(slots, clock, next) && Shared(slots, holds, next)
    }

    constructor ()
      ensures Valid() && slots == map[] && holds == map[] && busy == {}
    {
      slots, clock, busy, holds, next := map[], 0, {}, map[], 0;
    }

    /** `evict_one`. */
    method EvictOne(idleOnly: bool) returns (evicted: bool, ghost victim: string)
      requires Valid()
      modifies this`slots
      ensures evicted ==> IsVictim(old(slots), holds, busy, idleOnly, victim) && slots == old(slots) - {victim}
      ensures evicted ==> |slots| + 1 == |old(slots)|
      ensures !evicted ==> slots == old(slots) && forall id :: !Evictable(slots, holds, busy, idleOnly, id)
      ensures Valid()
    {
      hide Separate, Shared, Held;
      var rest, best := slots.Keys, None;
      while rest != {}
        invariant rest <= slots.Keys && slots == old(slots)
        invariant best.Some? ==> Evictable(slots, holds, busy, idleOnly, best.value)
        invariant forall id :: id in slots && id !in rest && Evictable(slots, holds, busy, idleOnly, id) ==>
                    best.Some? && slots[best.value].lastUsed <= slots[id].lastUsed
        decreases rest
      {
        var id :| id in rest;
        rest := rest - {id};
        if Evictable(slots, holds, busy, idleOnly, id) &&
           (best.None? || slots[id].lastUsed < slots[best.value].lastUsed)
        {
          best := Some(id);
        }
      }
      evicted, victim := best.Some?, if best.Some? then best.value else "";
      if best.Some? {
        RemoveKeeps(slots, holds, clock, next, best.value);
        slots := slots - {best.value};
        assert old(slots).Keys == slots.Keys + {best.value};
      }
    }

    /** Other runs get on with it. */
    method Wait(pauses: seq<Pause>, look: nat)
      requires Valid()
      modifies this`busy, this`holds
      ensures Valid() && SameUnheld(old(busy), busy, old(holds)) && DroppedIn(old(holds), holds, pauses)
      ensures look < |pauses| ==> holds == old(holds) - pauses[look].ended
    {
      if look < |pauses| {
        var held := HeldManagers(holds);
        busy := (busy - held) + (pauses[look].work * held);
        holds := holds - pauses[look].ended;
      }
    }

    /**
     Evicts until there is room below `cap`, or only entries that runs hold are left. The lock keeps
     lookups and releases out, but the runs that are there go on between any two looks at the map.
     */
    method MakeRoom(cap: nat, pauses: seq<Pause>)
      requires Valid()
      modifies this`slots, this`busy, this`holds
      ensures Valid() && Trimmed(old(slots), slots, old(holds), holds, busy)
      ensures SameUnheld(old(busy), busy, old(holds)) && DroppedIn(old(holds), holds, pauses)
      ensures |slots| >= cap ==> AllHeld(slots, holds)
      ensures slots == old(slots) || |slots| + 1 >= cap
    {
      hide Trimmed, Separate, Shared, AllHeld, Evictable, IsVictim, Fewer, SameUnheld, DroppedIn;
      NothingTrimmed(slots, holds, busy);
      NothingHappened(holds, busy, pauses);
      var look := 0;
      while |slots| >= cap
        invariant Valid() && Trimmed(old(slots), slots, old(holds), holds, busy)
        invariant SameUnheld(old(busy), busy, old(holds)) && DroppedIn(old(holds), holds, pauses)
        invariant slots == old(slots) || |slots| + 1 >= cap
        decreases |slots|
      {
        ghost var kept, before, work := slots, holds, busy;
        Wait(pauses, look);
        MoreHappened(old(holds), before, holds, old(busy), work, busy, pauses);
        StaysTrimmed(old(slots), kept, old(holds), before, work, holds, busy);
        ghost var first, idle := holds, busy;
        var evicted, id := EvictOne(true);
        if evicted {
          NothingHappened(first, idle, pauses);
          TrimOneMore(old(slots), kept, old(holds), first, holds, busy, id, true, clock, next);
        } else {
          Wait(pauses, look + 1);
          AllWorkThere(kept, first, idle, holds, busy);
          StaysTrimmed(old(slots), kept, old(holds), first, idle, holds, busy);
          MoreHappened(old(holds), first, holds, old(busy), idle, busy, pauses);
          evicted, id := EvictOne(false);
          if !evicted {
            NothingEvictable(slots, holds, busy);
            break;
          }
          TrimOneMore(old(slots), kept, old(holds), first, holds, busy, id, false, clock, next);
        }
        look := look + 2;
      }
    }

    /** `manager_for`, called by a run that starts. */
    method ManagerFor(run: nat, session: string, cap: nat, pauses: seq<Pause>)
      returns (manager: nat, ghost kept: Slots, ghost left: Holds)
      requires Valid() && run !in holds
      modifies this
      ensures Valid() && SameUnheld(old(busy), busy, old(holds)) && DroppedIn(old(holds), left, pauses)
      ensures holds == left[run := Hold(session, manager, false)]
      ensures slots == kept[session := Slot(manager, clock)] && clock == old(clock) + 1
      ensures session in old(slots) ==> manager == old(slots)[session].manager && kept == old(slots) && left == old(holds)
      ensures session !in old(slots) ==> manager == old(next) && session !in kept
      ensures session !in old(slots) ==> Trimmed(old(slots), kept, old(holds), left, busy)
      ensures session !in old(slots) && |slots| > cap && cap > 0 ==> AllHeld(slots, holds)
      ensures session !in old(slots) && kept != old(slots) && cap > 0 ==> |slots| >= cap
    {
      hide Trimmed, Separate, Shared, AllHeld, DroppedIn, SameUnheld, Fewer, Held, Gone;
      NothingHappened(holds, busy, pauses);
      if session in slots {
        manager := slots[session].manager;
        kept, left := slots, holds;
      } else {
        MakeRoom(cap, pauses);
        manager := next;
        kept, left := slots, holds;
        TrimmedIsPart(old(slots), kept, old(holds), holds, busy);
        NoneNew(old(holds), left, pauses, run);
        if AllHeld(kept, holds) {
          HeldStays(kept, holds, run, session, Slot(manager, clock + 1));
        }
        OneMore(kept, session, Slot(manager, clock + 1));
      }
      Enter(run, session, manager);
    }

    /** The run's reference, and the new time of last use. */
    method Enter(run: nat, session: string, manager: nat)
      requires Valid() && run !in holds && manager == (if session in slots then slots[session].manager else next)
      modifies this
      ensures Valid() && busy == old(busy) && clock == old(clock) + 1
      ensures slots == old(slots)[session := Slot(manager, clock)]
      ensures holds == old(holds)[run := Hold(session, manager, false)]
    {
      hide Separate, Shared;
      EnterKeeps(slots, holds, clock, next, run, session, manager);
      clock := clock + 1;
      next := if manager == next then next + 1 else next;
      slots := slots[session := Slot(manager, clock)];
      holds := holds[run := Hold(session, manager, false)];
    }

    /** `release`, called by a run that has ended and still holds its manager. */
    method Release(run: nat)
      requires Valid() && run in holds
      modifies this`slots, this`holds
      ensures Valid() && holds == old(holds)[run := old(holds)[run].(ended := true)]
      ensures slots == (if Releasable(old(slots), old(holds), busy, run) then old(slots) - {old(holds)[run].session}
                        else old(slots))
    {
      var h := holds[run];
      if Releasable(slots, holds, busy, run) {
        slots := slots - {h.session};
      }
      holds := holds[run := h.(ended := true)];
    }

    /** The run is gone; its reference is dropped. */
    method Drop(run: nat)
      requires Valid() && run in holds
      modifies this`holds
      ensures Valid() && holds == old(holds) - {run}
    {
      holds := holds - {run};
    }

    /** A run starts a task with its manager, or a manager's last result is delivered. */
    method SetWork(manager: nat, work: bool)
      requires Valid()
      modifies this`busy
      ensures Valid() && busy == if work then old(busy) + {manager} else old(busy) - {manager}
    {
      busy := if work then busy + {manager} else busy - {manager};
    }

    /** One step of the runtime on the registry; a step that cannot be taken changes nothing. */
    method Step(step: Happening)
      requires Valid()
      modifies this
      ensures Valid()
      ensures step.Work? ==> slots == old(slots) && holds == old(holds)
      ensures forall run :: run in old(holds) && !EndsRun(step, run) ==> run in holds && holds[run] == old(holds)[run]
      ensures forall id :: Gone(old(slots), slots, id) && old(slots)[id].manager in busy ==>
                step.Starts? && !Held(holds, old(slots)[id].manager)
    {
      hide Shared, Trimmed, AllHeld, Releasable;
      match step {
        case Starts(run, session, cap, pauses) =>
          if run !in holds {
            ghost var before, kept, left := slots, slots, holds;
            var manager;
            manager, kept, left := ManagerFor(run, session, cap, pauses);
            if session !in before {
              TrimmedIsPart(before, kept, old(holds), left, busy);
            }
          }
        case Releases(run) =>
          if run in holds {
            ReleasesIdle(slots, holds, busy, run);
            Release(run);
          }
        case Drops(run) =>
          if run in holds {
            Drop(run);
          }
        case Work(manager, on) => SetWork(manager, on);
      }
    }

    /**
     Any sequence of steps: a run that starts, works and settles among others and has not ended finds its
     own manager under its session throughout.
     */
    method Play(steps: seq<Happening>)
      requires Valid()
      modifies this
      ensures Valid()
      ensures forall run :: run in old(holds) && !old(holds)[run].ended && NotEnded(steps, run) ==>
                run in holds && holds[run] == old(holds)[run] && FindsOwn(slots, holds[run])
    {
      hide Separate, Gone, Held;
      for i := 0 to |steps|
        invariant Valid()
        invariant forall run :: run in old(holds) && NotEnded(steps[..i], run) ==>
                    run in holds && holds[run] == old(holds)[run]
      {
        assert forall run :: NotEnded(steps[..i + 1], run) ==> NotEnded(steps[..i], run) && !EndsRun(steps[i], run) by {
          assert steps[..i + 1] == steps[..i] + [steps[i]];
        }
        Step(steps[i]);
      }
      assert steps[..|steps|] == steps;
    }
  }
}
