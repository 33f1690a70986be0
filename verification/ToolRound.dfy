/**
 One round of tool calls: the background calls are answered with placeholders first, the foreground
 calls run in sequence or as a parallel batch, and the result messages are put back in call order.
 */
module ToolRound {
  import opened Prelude
  import opened ToolBatch

  // ---------------------------------------------------------------------------------------------
  // Calls answered one after the other
  // ---------------------------------------------------------------------------------------------

  /** What the loop finds when it comes to a call: the abort flag, the preparation, the tool's own result. */
  datatype Encounter = Encounter(aborted: bool, preparation: Preparation, settled: Option<Output>)

  /** The events of calls answered one after the other: start, end and result message of each. */
  function SequentialLog(outcomes: seq<Outcome>): seq<Event>
  {
    if outcomes == [] then []
    else
      var k := |outcomes| - 1;
      SequentialLog(outcomes[..k]) + [Started(k)] + [Ended(k, outcomes[k])] + [Reported(k, outcomes[k])]
  }

  lemma NothingLogged()
    ensures SequentialLog([]) == []
  {
  }

  lemma NextLogged(outcomes: seq<Outcome>, outcome: Outcome)
    ensures SequentialLog(outcomes + [outcome]) ==
            SequentialLog(outcomes) + [Started(|outcomes|)] +
              ([Ended(|outcomes|, outcome)] + [Reported(|outcomes|, outcome)])
  {
    var longer, k := outcomes + [outcome], |outcomes|;
    assert longer[..k] == outcomes;
    var started := SequentialLog(outcomes) + [Started(k)];
    assert SequentialLog(longer) == started + [Ended(k, outcome)] + [Reported(k, outcome)];
    hide SequentialLog;
    assert started + [Ended(k, outcome)] + [Reported(k, outcome)]
        == started + ([Ended(k, outcome)] + [Reported(k, outcome)]);
  }

  lemma {:induction false} SequentialFits(outcomes: seq<Outcome>, n: nat)
    requires |outcomes| <= n
    ensures Fits(SequentialLog(outcomes), |outcomes|,
                 seq(n, i => if 0 <= i < |outcomes| then Some(outcomes[i]) else None), |outcomes|)
  {
    var full := seq(n, i => if 0 <= i < |outcomes| then Some(outcomes[i]) else None);
    if outcomes == [] {
      assert Reports([]) == [];
      forall e ensures Count([], e) == 0 {}
    } else {
      var k := |outcomes| - 1;
      var before := seq(n, i => if 0 <= i < k then Some(outcomes[..k][i]) else None);
      SequentialFits(outcomes[..k], n);
      assert before == seq(n, i => if 0 <= i < |outcomes[..k]| then Some(outcomes[..k][i]) else None);
      var log := SequentialLog(outcomes[..k]);
      FitsStarted(log, k, before, k);
      FitsEnded(log + [Started(k)], k + 1, before, k, k, outcomes[k]);
      assert before[k := Some(outcomes[k])] == full;
      FitsReported(log + [Started(k)] + [Ended(k, outcomes[k])], k + 1, full, k);
    }
  }

  /** Calls answered in sequence are complete in the same sense as a finished parallel batch. */
  lemma {:induction false} SequentialComplete(outcomes: seq<Outcome>)
    ensures Complete(SequentialLog(outcomes), outcomes)
  {
    SequentialFits(outcomes, |outcomes|);
    var all := seq(|outcomes|, i => if 0 <= i < |outcomes| then Some(outcomes[i]) else None);
    AllFinal(SequentialLog(outcomes), all, outcomes);
  }

  lemma AllFinal(log: seq<Event>, all: seq<Option<Outcome>>, outcomes: seq<Outcome>)
    requires |all| == |outcomes| && Fits(log, |outcomes|, all, |outcomes|)
    requires forall i :: 0 <= i < |outcomes| ==> all[i] == Some(outcomes[i])
    ensures Complete(log, outcomes)
  {
    hide Open, Count, Reports;
    assert forall i :: i in Open(log) ==> i < |all| && all[i].None?;
  }

  /** How a call is answered in turn, from what the loop finds when it comes to it. */
  predicate Answers(e: Encounter, o: Outcome)
  {
    && (o.NotRun? <==> e.aborted)
    && (!e.aborted && e.preparation.Refused? ==> o == Immediate(e.preparation.output))
    && (!e.aborted && e.preparation.Ready? && e.settled.Some? ==> o == Ran(e.settled.value))
    && (!e.aborted && e.preparation.Ready? && e.settled.None? ==> o == Unfinished)
  }

  /** The call ends with an output that asks for the run to end. */
  predicate AsksToEnd(e: Encounter)
  {
    !e.aborted && match e.preparation
                  case Refused(output) => output.terminate
                  case Ready(_) => e.settled.Some? && e.settled.value.terminate
  }

  /** `execute_tool_calls_sequential`: one call after the other, each looking at the abort flag first. */
  method ExecuteSequential(calls: seq<Encounter>) returns (log: seq<Event>, outcomes: seq<Outcome>, terminate: bool)
    ensures |outcomes| == |calls| && log == SequentialLog(outcomes) && Complete(log, outcomes)
    ensures forall i :: 0 <= i < |calls| ==> Answers(calls[i], outcomes[i])
    ensures terminate <==> calls != [] && forall i :: 0 <= i < |calls| ==> AsksToEnd(calls[i])
  {
    hide SequentialLog, Complete;
    log, outcomes := [], [];
    NothingLogged();
    for i := 0 to |calls|
      invariant |outcomes| == i && log == SequentialLog(outcomes)
      invariant forall j :: 0 <= j < i ==> Answers(calls[j], outcomes[j])
    {
      var outcome;
      log := log + [Started(i)];
      if calls[i].aborted {
        outcome := NotRun;
      } else {
        match calls[i].preparation
        case Refused(output) => outcome := Immediate(output);
        case Ready(_) =>
          match calls[i].settled
          case Some(output) => outcome := Ran(output);
          case None => outcome := Unfinished;
      }
      log := log + ([Ended(i, outcome)] + [Reported(i, outcome)]);
      NextLogged(outcomes, outcome);
      outcomes := outcomes + [outcome];
    }
    SequentialComplete(outcomes);
    terminate := ShouldTerminate(outcomes);
    assert forall i :: 0 <= i < |calls| ==> (Terminates(outcomes[i]) <==> AsksToEnd(calls[i]));
    assert forall i :: 0 <= i < |calls| ==> outcomes[i] in outcomes;
  }

  /** How a background call is answered when it is handed over, or is not. */
  predicate Placeholder(e: Encounter, o: Outcome)
  {
    match o
    case NotRun => e.aborted
    case Immediate(output) => !e.aborted && e.preparation == Refused(output)
    case Detached => !e.aborted && e.preparation.Ready?
    case _ => false
  }

  /** `dispatch_background_tool_calls`: exactly the calls answered with a placeholder are handed over. */
  method DispatchBackground(calls: seq<Encounter>)
    returns (log: seq<Event>, outcomes: seq<Outcome>, spawned: seq<nat>)
    ensures |outcomes| == |calls| && log == SequentialLog(outcomes) && Complete(log, outcomes)
    ensures forall i :: 0 <= i < |calls| ==> Placeholder(calls[i], outcomes[i])
    ensures forall i: nat :: i in spawned <==> i < |calls| && !calls[i].aborted && calls[i].preparation.Ready?
    ensures forall x, y :: 0 <= x < y < |spawned| ==> spawned[x] < spawned[y]
  {
    hide SequentialLog, Complete;
    log, outcomes, spawned := [], [], [];
    NothingLogged();
    for i := 0 to |calls|
      invariant |outcomes| == i && log == SequentialLog(outcomes)
      invariant forall j :: 0 <= j < i ==> Placeholder(calls[j], outcomes[j])
      invariant forall j: nat :: j in spawned <==> j < i && !calls[j].aborted && calls[j].preparation.Ready?
      invariant forall x, y :: 0 <= x < y < |spawned| ==> spawned[x] < spawned[y]
    {
      var outcome;
      log := log + [Started(i)];
      if calls[i].aborted {
        outcome := NotRun;
      } else {
        match calls[i].preparation
        case Refused(output) => outcome := Immediate(output);
        case Ready(_) => outcome := Detached;
      }
      log := log + ([Ended(i, outcome)] + [Reported(i, outcome)]);
      NextLogged(outcomes, outcome);
      outcomes := outcomes + [outcome];
      if outcome.Detached? {
        assert forall x :: 0 <= x < |spawned| ==> spawned[x] in spawned;
        spawned := spawned + [i];
      }
    }
    SequentialComplete(outcomes);
  }

  predicate Terminates(outcome: Outcome)
  {
    (outcome.Ran? || outcome.Immediate?) && outcome.output.terminate
  }

  /** A batch ends the run early only when it is not empty and every result asks for it. */
  predicate ShouldTerminate(outcomes: seq<Outcome>)
  {
    outcomes != [] && forall o :: o in outcomes ==> Terminates(o)
  }

  // ---------------------------------------------------------------------------------------------
  // Putting the results back in call order
  // ---------------------------------------------------------------------------------------------

  datatype Result = Result(callId: string, outcome: Outcome)

  /** The elements of `s` whose flag is `flag`, in order. */
  function Select<T>(s: seq<T>, flags: seq<bool>, flag: bool): (r: seq<T>)
    requires |s| == |flags|
    ensures |r| <= |s|
  {
    if s == [] then []
    else (if flags[0] == flag then [s[0]] else []) + Select(s[1..], flags[1..], flag)
  }

  lemma {:induction false} SelectSplits<T>(s: seq<T>, flags: seq<bool>)
    requires |s| == |flags|
    ensures multiset(Select(s, flags, true) + Select(s, flags, false)) == multiset(s)
  {
    if s != [] {
      SelectSplits(s[1..], flags[1..]);
      assert s == [s[0]] + s[1..];
    }
  }

  lemma {:induction false} SelectMember<T>(s: seq<T>, flags: seq<bool>, flag: bool, i: nat)
    requires |s| == |flags| && i < |s| && flags[i] == flag
    ensures s[i] in Select(s, flags, flag)
  {
    if i > 0 {
      SelectMember(s[1..], flags[1..], flag, i - 1);
    }
  }

  lemma {:induction false} SelectComesFrom<T>(s: seq<T>, flags: seq<bool>, flag: bool, x: T) returns (i: nat)
    requires |s| == |flags| && x in Select(s, flags, flag)
    ensures i < |s| && flags[i] == flag && s[i] == x
  {
    if flags[0] == flag && s[0] == x {
      i := 0;
    } else {
      i := SelectComesFrom(s[1..], flags[1..], flag, x);
      i := i + 1;
    }
  }

  /** The table keyed by call id; a later result of the same id replaces an earlier one. */
  function Keyed(produced: seq<Result>): map<string, Result>
  {
    if produced == [] then map[]
    else
      var last := produced[|produced| - 1];
      Keyed(produced[..|produced| - 1])[last.callId := last]
  }

  function TakeInOrder(ids: seq<string>, table: map<string, Result>): seq<Result>
  {
    if ids == [] then []
    else if ids[0] in table then [table[ids[0]]] + TakeInOrder(ids[1..], table - {ids[0]})
    else TakeInOrder(ids[1..], table)
  }

  /** `execute_tool_calls`, its last step: results by id, taken out in the assistant's call order. */
  method Reassemble(ids: seq<string>, produced: seq<Result>) returns (messages: seq<Result>)
    ensures messages == TakeInOrder(ids, Keyed(produced))
  {
    var table: map<string, Result> := map[];
    for i := 0 to |produced|
      invariant table == Keyed(produced[..i])
    {
      assert produced[..i + 1][..i] == produced[..i];
      table := table[produced[i].callId := produced[i]];
    }
    assert produced[..|produced|] == produced;
    messages := [];
    for i := 0 to |ids|
      invariant messages + TakeInOrder(ids[i..], table) == TakeInOrder(ids, Keyed(produced))
    {
      assert ids[i..][1..] == ids[i + 1..];
      if ids[i] in table {
        messages := messages + [table[ids[i]]];
        table := table - {ids[i]};
      }
    }
  }

  predicate Distinct(ids: seq<string>)
  {
    forall i, j :: 0 <= i < j < |ids| ==> ids[i] != ids[j]
  }

  lemma {:induction false} KeyedHolds(produced: seq<Result>, id: string)
    ensures id in Keyed(produced) ==> Keyed(produced)[id] in produced && Keyed(produced)[id].callId == id
    ensures (exists r :: r in produced && r.callId == id) ==> id in Keyed(produced)
  {
    if produced != [] {
      KeyedHolds(produced[..|produced| - 1], id);
    }
  }

  lemma {:induction false} TakenAreDistinct(ids: seq<string>, table: map<string, Result>)
    requires forall id :: id in table ==> table[id].callId == id
    ensures forall r :: r in TakeInOrder(ids, table) ==> r.callId in table
    ensures forall i, j :: 0 <= i < j < |TakeInOrder(ids, table)| ==>
              TakeInOrder(ids, table)[i].callId != TakeInOrder(ids, table)[j].callId
  {
    if ids != [] {
      if ids[0] in table {
        TakenAreDistinct(ids[1..], table - {ids[0]});
      } else {
        TakenAreDistinct(ids[1..], table);
      }
    }
  }

  lemma {:induction false} TakeAll(results: seq<Result>, ids: seq<string>, table: map<string, Result>)
    requires |results| == |ids| && Distinct(ids)
    requires forall i :: 0 <= i < |ids| ==> ids[i] in table && table[ids[i]] == results[i]
    ensures TakeInOrder(ids, table) == results
  {
    if ids != [] {
      TakeAll(results[1..], ids[1..], table - {ids[0]});
    }
  }

  /** The last of the produced results with the id is at `k`. */
  predicate LastFor(produced: seq<Result>, id: string, k: nat)
  {
    k < |produced| && produced[k].callId == id && forall j :: k < j < |produced| ==> produced[j].callId != id
  }

  /** Of several results with one id the last produced is the one in the table. */
  lemma {:induction false} KeyedIsLast(produced: seq<Result>, id: string)
    ensures id in Keyed(produced) <==> exists k: nat :: LastFor(produced, id, k)
    ensures forall k: nat :: LastFor(produced, id, k) ==> Keyed(produced)[id] == produced[k]
  {
    if produced != [] {
      var init, n := produced[..|produced| - 1], |produced| - 1;
      KeyedIsLast(init, id);
      if produced[n].callId == id {
        assert LastFor(produced, id, n);
      } else {
        assert forall k: nat :: LastFor(produced, id, k) <==> k < n && LastFor(init, id, k);
      }
    }
  }

  predicate FirstAt(ids: seq<string>, k: nat)
  {
    k < |ids| && forall j :: 0 <= j < k ==> ids[j] != ids[k]
  }

  /** The places `at` hold the first of each id the table has, and `taken` the result for each. */
  ghost predicate TakenAt(ids: seq<string>, table: map<string, Result>, taken: seq<Result>, at: seq<nat>)
  {
    && |at| == |taken| && (forall i, j :: 0 <= i < j < |at| ==> at[i] < at[j])
    && (forall i :: 0 <= i < |at| ==> FirstAt(ids, at[i]) && ids[at[i]] in table && taken[i] == table[ids[at[i]]])
    && (forall k: nat :: FirstAt(ids, k) && ids[k] in table ==> k in at)
  }

  /**
   What is taken: in the order of the ids, at the first place of each id the result in the table, if any,
   and nothing at a later place of the same id.
   */
  lemma {:induction false} TakenInOrder(ids: seq<string>, table: map<string, Result>) returns (at: seq<nat>)
    ensures TakenAt(ids, table, TakeInOrder(ids, table), at)
  {
    hide TakenAt;
    if ids == [] {
      at := [];
      NothingTaken(table);
    } else {
      var rest := if ids[0] in table then table - {ids[0]} else table;
      var later := TakenInOrder(ids[1..], rest);
      var moved := MovedOn(ids, rest, TakeInOrder(ids[1..], rest), later);
      if ids[0] in table {
        at := [0] + moved;
        FirstTaken(ids, table, TakeInOrder(ids[1..], rest), moved);
      } else {
        at := moved;
        FirstPassed(ids, table, TakeInOrder(ids[1..], rest), moved);
      }
    }
  }

  lemma NothingTaken(table: map<string, Result>)
    ensures TakenAt([], table, [], [])
  {
  }

  lemma FirstAtRest(ids: seq<string>, k: nat)
    requires ids != []
    ensures FirstAt(ids, k + 1) <==> FirstAt(ids[1..], k) && ids[k + 1] != ids[0]
  {
    var rest := ids[1..];
    assert forall j :: 0 <= j < |rest| ==> rest[j] == ids[j + 1];
    if FirstAt(rest, k) && ids[k + 1] != ids[0] {
      forall j | 0 <= j < k + 1 ensures ids[j] != ids[k + 1] {
        assert j > 0 ==> ids[j] == rest[j - 1];
      }
    }
  }

  /** The same places in the longer list, behind its first element. */
  ghost predicate TakenBehind(ids: seq<string>, table: map<string, Result>, taken: seq<Result>, at: seq<nat>)
    requires ids != []
  {
    && |at| == |taken| && (forall i, j :: 0 <= i < j < |at| ==> at[i] < at[j])
    && (forall i :: 0 <= i < |at| ==>
          at[i] > 0 && FirstAt(ids, at[i]) && ids[at[i]] in table && taken[i] == table[ids[at[i]]])
    && (forall k: nat :: k > 0 && FirstAt(ids, k) && ids[k] in table ==> k in at)
  }

  lemma MovedOn(ids: seq<string>, table: map<string, Result>, taken: seq<Result>, later: seq<nat>) returns (at: seq<nat>)
    requires ids != [] && TakenAt(ids[1..], table, taken, later) && ids[0] !in table
    ensures TakenBehind(ids, table, taken, at)
  {
    at := seq(|later|, i requires 0 <= i < |later| => later[i] + 1);
    forall i | 0 <= i < |later| ensures FirstAt(ids, at[i]) && ids[at[i]] == ids[1..][later[i]] {
      FirstAtRest(ids, later[i]);
    }
    forall k: nat | k > 0 && FirstAt(ids, k) && ids[k] in table ensures k in at {
      FirstAtRest(ids, k - 1);
      assert k - 1 in later;
      var i :| 0 <= i < |later| && later[i] == k - 1;
      assert at[i] == k;
    }
  }

  lemma FirstTaken(ids: seq<string>, table: map<string, Result>, taken: seq<Result>, at: seq<nat>)
    requires ids != [] && ids[0] in table && TakenBehind(ids, table - {ids[0]}, taken, at)
    ensures TakenAt(ids, table, [table[ids[0]]] + taken, [0] + at)
  {
    StartsFirst(ids);
    var longer := [0] + at;
    forall k: nat | FirstAt(ids, k) && ids[k] in table ensures k in longer {
      if k > 0 {
        assert k in at;
      } else {
        assert longer[0] == 0;
      }
    }
  }

  lemma FirstPassed(ids: seq<string>, table: map<string, Result>, taken: seq<Result>, at: seq<nat>)
    requires ids != [] && ids[0] !in table && TakenBehind(ids, table, taken, at)
    ensures TakenAt(ids, table, taken, at)
  {
  }

  lemma StartsFirst(ids: seq<string>)
    requires ids != []
    ensures FirstAt(ids, 0)
  {
  }

  /**
   The round's messages are one per call, in call order, exactly when the assistant gave its calls
   distinct ids. `results[i]` is the result of call `i`; background results are produced first.
   */
  lemma {:induction false} ReassemblyIsInCallOrder(results: seq<Result>, background: seq<bool>, ids: seq<string>)
    requires |results| == |background| == |ids|
    requires forall i :: 0 <= i < |ids| ==> results[i].callId == ids[i]
    ensures TakeInOrder(ids, Keyed(Select(results, background, true) + Select(results, background, false))) == results
            <==> Distinct(ids)
  {
    var produced := Select(results, background, true) + Select(results, background, false);
    var table := Keyed(produced);
    forall id {
      KeyedHolds(produced, id);
    }
    TakenAreDistinct(ids, table);
    if Distinct(ids) {
      forall i | 0 <= i < |ids| ensures ids[i] in table && table[ids[i]] == results[i] {
        SelectMember(results, background, background[i], i);
        assert results[i] in produced && results[i].callId == ids[i];
        var r := table[ids[i]];
        var k := SelectComesFrom(results, background, r in Select(results, background, true), r);
        assert ids[k] == ids[i];
      }
      TakeAll(results, ids, table);
    }
  }
}
