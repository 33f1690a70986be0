/** Reopening a session from the lines that survived, and forking one. */
module SessionRepo {
  import opened Prelude
  import opened Conversation
  import opened SessionTree
  import Context

  // ---------------------------------------------------------------------------------------------
  // Reopening
  // ---------------------------------------------------------------------------------------------

  /** The entries of a file's lines; a line that was lost or cannot be parsed is `None`. */
  function Parsed(lines: seq<Option<Entry>>): seq<Entry>
  {
    if lines == [] then []
    else
      var last := lines[|lines| - 1];
      Parsed(lines[..|lines| - 1]) + (if last.Some? then [last.value] else [])
  }

  /** `JsonlSessionStorage::open`: malformed lines are skipped and the leaf is the last entry. */
  method Open(lines: seq<Option<Entry>>) returns (tree: Tree)
    ensures fresh(tree) && tree.Valid()
    ensures tree.entries == Parsed(lines) && tree.leaf == LastId(Parsed(lines))
  {
    tree := new Tree([]);
    for i := 0 to |lines|
      invariant fresh(tree) && tree.Valid()
      invariant tree.entries == Parsed(lines[..i]) && tree.leaf == LastId(Parsed(lines[..i]))
    {
      assert lines[..i + 1][..i] == lines[..i];
      if lines[i].Some? {
        tree.Push(lines[i].value);
      }
    }
    assert lines[..|lines|] == lines;
  }

  /** `lines` are the lines of `log`, some of them lost. */
  predicate WrittenFrom(lines: seq<Option<Entry>>, log: seq<Entry>)
  {
    |lines| == |log| && forall i :: 0 <= i < |log| ==> lines[i] == None || lines[i] == Some(log[i])
  }

  function Ids(log: seq<Entry>): set<string>
  {
    set i | 0 <= i < |log| :: log[i].id
  }

  /** What is left of a path when the entries outside `ids` and everything above them are gone. */
  function SurvivingSuffix(path: seq<Entry>, ids: set<string>): seq<Entry>
  {
    if path == [] || path[|path| - 1].id !in ids then []
    else SurvivingSuffix(path[..|path| - 1], ids) + [path[|path| - 1]]
  }

  /** It is a suffix, nothing in it was lost, and it cannot be made longer. */
  lemma {:induction false} SuffixIsLongest(path: seq<Entry>, ids: set<string>)
    ensures |SurvivingSuffix(path, ids)| <= |path|
    ensures SurvivingSuffix(path, ids) == path[|path| - |SurvivingSuffix(path, ids)|..]
    ensures forall e :: e in SurvivingSuffix(path, ids) ==> e.id in ids
    ensures |SurvivingSuffix(path, ids)| < |path| ==> path[|path| - |SurvivingSuffix(path, ids)| - 1].id !in ids
  {
    if path != [] && path[|path| - 1].id in ids {
      SuffixIsLongest(path[..|path| - 1], ids);
    }
  }

  lemma {:induction false} SuffixIgnores(path: seq<Entry>, ids: set<string>, more: set<string>)
    requires forall k :: 0 <= k < |path| ==> (path[k].id in ids <==> path[k].id in more)
    ensures SurvivingSuffix(path, ids) == SurvivingSuffix(path, more)
  {
    if path != [] {
      SuffixIgnores(path[..|path| - 1], ids, more);
    }
  }

  lemma {:induction false} ParsedFrom(lines: seq<Option<Entry>>, log: seq<Entry>)
    requires WrittenFrom(lines, log) && Ordered(log)
    ensures Ordered(Parsed(lines))
    ensures forall k :: 0 <= k < |Parsed(lines)| ==> Parsed(lines)[k].id in IdIndex(log)
  {
    if log != [] {
      var init, last := log[..|log| - 1], log[|log| - 1];
      ParsedFrom(lines[..|log| - 1], init);
      var before := Parsed(lines[..|log| - 1]);
      forall k | 0 <= k < |before| ensures before[k].id != last.id && before[k].parent != Some(last.id) {
        ParsedMember(lines[..|log| - 1], init, k);
        IndexHolds(init, before[k].id);
      }
      hide IdIndex;
      assert forall id :: id in IdIndex(init) || id == last.id ==> id in IdIndex(log) by {
        IndexSnoc(log);
      }
    }
  }

  lemma {:induction false} ParsedMember(lines: seq<Option<Entry>>, log: seq<Entry>, k: nat)
    requires WrittenFrom(lines, log) && k < |Parsed(lines)|
    ensures Parsed(lines)[k] in log
  {
    if log != [] {
      var before := Parsed(lines[..|log| - 1]);
      if k < |before| {
        ParsedMember(lines[..|log| - 1], log[..|log| - 1], k);
      }
    }
  }

  /** A path only holds entries of its log, and ends at the entry asked for. */
  lemma PathIsFromLog(log: seq<Entry>, target: Option<string>)
    requires Ordered(log)
    ensures forall k :: 0 <= k < |PathTo(log, target)| ==> PathTo(log, target)[k].id in IdIndex(log)
    ensures PathTo(log, target) != [] ==>
              target == Some(PathTo(log, target)[|PathTo(log, target)| - 1].id) && target.value in IdIndex(log)
    ensures target.Some? && target.value in IdIndex(log) ==> PathTo(log, target) != []
  {
    if target.Some? {
      PathIsParentChain(log, target.value);
    }
  }

  lemma {:induction false} IdsAreIndexed(log: seq<Entry>, id: string)
    ensures id in Ids(log) <==> id in IdIndex(log)
  {
    IndexHolds(log, id);
    if id in IdIndex(log) {
      assert log[IdIndex(log)[id]].id in Ids(log);
    }
  }

  predicate Kept(log: seq<Entry>, lines: seq<Option<Entry>>, target: Option<string>)
    requires Ordered(log) && Ordered(Parsed(lines))
  {
    PathTo(Parsed(lines), target) == SurvivingSuffix(PathTo(log, target), Ids(Parsed(lines)))
  }

  predicate Written(log: seq<Entry>, lines: seq<Option<Entry>>, init: seq<Entry>, before: seq<Option<Entry>>, last: Entry)
  {
    && Ordered(log) && Ordered(init) && Ordered(Parsed(lines)) && Ordered(Parsed(before))
    && log == init + [last]
    && Ids(Parsed(before)) <= Ids(init)
    && last.id !in Ids(init)
  }

  /** The last line was lost. */
  lemma {:induction false} LastLost(log: seq<Entry>, lines: seq<Option<Entry>>, init: seq<Entry>,
                                    before: seq<Option<Entry>>, last: Entry, target: Option<string>)
    requires Written(log, lines, init, before, last) && target.Some? && Parsed(lines) == Parsed(before)
    requires Kept(init, before, target)
    ensures Kept(log, lines, target)
  {
    hide PathTo, IdIndex, Ordered, Ids;
    AppendExtendsPath(init, last);
    if target.value == last.id {
      PathIsFromLog(Parsed(before), target);
      IdsAreIndexed(Parsed(before), last.id);
    }
  }

  /** The last line survived; the entry asked for is an older one. */
  lemma {:induction false} LastIrrelevant(log: seq<Entry>, lines: seq<Option<Entry>>, init: seq<Entry>,
                                          before: seq<Option<Entry>>, last: Entry, target: Option<string>)
    requires Written(log, lines, init, before, last) && Parsed(lines) == Parsed(before) + [last]
    requires target.Some? ==> target.value != last.id
    requires Kept(init, before, target)
    ensures PathTo(Parsed(before), target) == SurvivingSuffix(PathTo(init, target), Ids(Parsed(lines)))
    ensures Kept(log, lines, target)
  {
    hide PathTo, IdIndex, Ordered;
    if target.None? {
      NoPath(log);
      NoPath(init);
      NoPath(Parsed(before));
      NoPath(Parsed(lines));
    } else {
      AppendExtendsPath(init, last);
      AppendExtendsPath(Parsed(before), last);
    }
    var path := PathTo(init, target);
    var few, more := Ids(Parsed(before)), Ids(Parsed(lines));
    assert more == few + {last.id} by {
      IdsSnoc(Parsed(before), last);
    }
    forall k | 0 <= k < |path| ensures path[k].id in few <==> path[k].id in more {
      PathIsFromLog(init, target);
      IdsAreIndexed(init, path[k].id);
    }
    SuffixIgnores(path, few, more);
  }

  lemma NoPath(log: seq<Entry>)
    requires Ordered(log)
    ensures PathTo(log, None) == []
  {
  }

  lemma IdsSnoc(log: seq<Entry>, e: Entry)
    ensures Ids(log + [e]) == Ids(log) + {e.id}
  {
    var longer := log + [e];
    assert longer[|log|].id in Ids(longer);
    forall id | id in Ids(log) ensures id in Ids(longer) {
      var i :| 0 <= i < |log| && log[i].id == id;
      assert longer[i].id == id;
    }
  }

  /** The last line survived and its entry is the one asked for. */
  lemma {:induction false} LastAsked(log: seq<Entry>, lines: seq<Option<Entry>>, init: seq<Entry>,
                                     before: seq<Option<Entry>>, last: Entry)
    requires Written(log, lines, init, before, last) && Parsed(lines) == Parsed(before) + [last]
    requires last.parent != Some(last.id)
    requires Kept(init, before, last.parent)
    ensures Kept(log, lines, Some(last.id))
  {
    hide PathTo, IdIndex, Ordered, Ids;
    LastIrrelevant(log, lines, init, before, last, last.parent);
    AppendExtendsPath(init, last);
    AppendExtendsPath(Parsed(before), last);
    IdsSnoc(Parsed(before), last);
    var above := PathTo(init, last.parent);
    assert (above + [last])[..|above|] == above;
  }

  lemma NothingSurvives(log: seq<Entry>, lines: seq<Option<Entry>>, target: Option<string>)
    requires Ordered(log) && WrittenFrom(lines, log) && Ordered(Parsed(lines)) && (log == [] || target.None?)
    ensures PathTo(Parsed(lines), target) == SurvivingSuffix(PathTo(log, target), Ids(Parsed(lines)))
  {
  }

  /**
   Reopening a damaged file gives every id the longest part of its old path, counted from the entry
   upwards, in which nothing was lost; an id whose own line was lost has no path.
   */
  lemma {:induction false} ReopenKeepsSuffix(log: seq<Entry>, lines: seq<Option<Entry>>, target: Option<string>)
    requires Ordered(log) && WrittenFrom(lines, log)
    ensures Ordered(Parsed(lines))
    ensures PathTo(Parsed(lines), target) == SurvivingSuffix(PathTo(log, target), Ids(Parsed(lines)))
    decreases |log|
  {
    hide PathTo, IdIndex, SurvivingSuffix;
    ParsedFrom(lines, log);
    if log == [] || target.None? {
      NothingSurvives(log, lines, target);
    } else {
      var n := |log| - 1;
      var init, last, before := log[..n], log[n], lines[..n];
      ParsedFrom(before, init);
      ReopenKeepsSuffix(init, before, target);
      ReopenKeepsSuffix(init, before, last.parent);
      LastIsNew(log, lines, init, before, last);
      hide Ordered, Ids;
      if lines[n].None? {
        LastLost(log, lines, init, before, last, target);
      } else if target.value == last.id {
        LastAsked(log, lines, init, before, last);
      } else {
        LastIrrelevant(log, lines, init, before, last, target);
      }
    }
  }

  lemma LastIsNew(log: seq<Entry>, lines: seq<Option<Entry>>, init: seq<Entry>, before: seq<Option<Entry>>, last: Entry)
    requires Ordered(log) && Ordered(init) && Ordered(Parsed(lines)) && Ordered(Parsed(before))
    requires log == init + [last]
    requires forall k :: 0 <= k < |Parsed(before)| ==> Parsed(before)[k].id in IdIndex(init)
    ensures Written(log, lines, init, before, last)
    ensures last.parent != Some(last.id)
  {
    hide IdIndex;
    forall id | id in Ids(Parsed(before)) ensures id in Ids(init) {
      IdsAreIndexed(init, id);
    }
    assert log[|init|] == last;
    forall i | 0 <= i < |init| ensures init[i].id != last.id {
      assert log[i] == init[i];
    }
  }

  // ---------------------------------------------------------------------------------------------
  // Files that no session wrote
  // ---------------------------------------------------------------------------------------------

  /** Where the walk is after `n` turns. */
  function After(log: seq<Entry>, start: nat, n: nat): (at: Option<nat>)
    requires start < |log|
    ensures at.Some? ==> at.value < |log|
  {
    if n == 0 then Some(start) else Up(log, After(log, start, n - 1))
  }

  lemma {:induction false} EndedStaysEnded(log: seq<Entry>, start: nat, n: nat, m: nat)
    requires start < |log| && n <= m && After(log, start, n).None?
    ensures After(log, start, m).None?
  {
    if n < m {
      EndedStaysEnded(log, start, n, m - 1);
    }
  }

  lemma {:induction false} RepeatsForever(log: seq<Entry>, start: nat, i: nat, j: nat, m: nat)
    requires start < |log| && After(log, start, i) == After(log, start, j)
    ensures After(log, start, i + m) == After(log, start, j + m)
  {
    if m > 0 {
      RepeatsForever(log, start, i, j, m - 1);
    }
  }

  /** A walk that meets a position twice never ends. */
  lemma {:induction false} LoopNeverEnds(log: seq<Entry>, start: nat, i: nat, j: nat, n: nat)
    requires start < |log| && i < j && After(log, start, i).Some? && After(log, start, i) == After(log, start, j)
    ensures After(log, start, n).Some?
    decreases n
  {
    if After(log, start, n).None? {
      if n < j {
        EndedStaysEnded(log, start, n, j);
      } else {
        RepeatsForever(log, start, i, j, n - j);
        LoopNeverEnds(log, start, i, j, n - (j - i));
      }
    }
  }

  /** The positions met in the first `n` turns. */
  function Met(log: seq<Entry>, start: nat, n: nat): set<nat>
    requires start < |log|
  {
    set k: nat | k < n && After(log, start, k).Some? :: After(log, start, k).value
  }

  lemma {:induction false} MetAllDifferent(log: seq<Entry>, start: nat, n: nat)
    requires start < |log|
    requires forall k: nat :: k < n ==> After(log, start, k).Some?
    requires forall i: nat, j: nat :: i < j < n ==> After(log, start, i) != After(log, start, j)
    ensures |Met(log, start, n)| == n
  {
    hide After, Up;
    if n > 0 {
      MetAllDifferent(log, start, n - 1);
      var at := After(log, start, n - 1).value;
      assert at !in Met(log, start, n - 1);
      assert Met(log, start, n) == Met(log, start, n - 1) + {at};
    } else {
      assert Met(log, start, n) == {};
    }
  }

  lemma {:induction false} Below(s: set<nat>, n: nat)
    requires forall x :: x in s ==> x < n
    ensures |s| <= n
  {
    if n > 0 {
      Below(s - {n - 1}, n - 1);
      assert s <= (s - {n - 1}) + {n - 1};
    } else {
      assert s == {};
    }
  }

  /** The walk comes back to a position it has already met. */
  ghost predicate MeetsTwice(log: seq<Entry>, start: nat)
    requires start < |log|
  {
    exists i: nat, j: nat :: i < j && After(log, start, i).Some? && After(log, start, i) == After(log, start, j)
  }

  /** There are only so many positions to meet. */
  lemma {:induction false} StillWalkingMeetsTwice(log: seq<Entry>, start: nat)
    requires start < |log| && After(log, start, |log|).Some?
    ensures MeetsTwice(log, start)
  {
    hide Up, After;
    forall k: nat | k <= |log| ensures After(log, start, k).Some? {
      if After(log, start, k).None? {
        EndedStaysEnded(log, start, k, |log|);
      }
    }
    if forall i: nat, j: nat :: i < j < |log| + 1 ==> After(log, start, i) != After(log, start, j) {
      MetAllDifferent(log, start, |log| + 1);
      Below(Met(log, start, |log| + 1), |log|);
      assert false;
    }
  }

  /**
   The walk from an entry of any log, whoever wrote it, ends if and only if it never comes back to a
   position it has met, and then it has ended after as many turns as the log has entries.
   */
  lemma {:induction false} WalkEndsOrLoops(log: seq<Entry>, start: nat)
    requires start < |log|
    ensures (exists n: nat :: After(log, start, n).None?) <==> !MeetsTwice(log, start)
    ensures EndsWithin(log, Some(start), |log|) <==> !MeetsTwice(log, start)
  {
    hide Up, After, EndsWithin;
    assert After(log, start, 0) == Some(start) by {
      WalkStarts(log, start);
    }
    EndsWithinAfter(log, start, 0, |log|);
    if After(log, start, |log|).Some? {
      StillWalkingMeetsTwice(log, start);
    }
    if MeetsTwice(log, start) {
      var i: nat, j: nat :| i < j && After(log, start, i).Some? && After(log, start, i) == After(log, start, j);
      forall n: nat ensures After(log, start, n).Some? {
        LoopNeverEnds(log, start, i, j, n);
      }
    }
  }

  lemma WalkStarts(log: seq<Entry>, start: nat)
    requires start < |log|
    ensures After(log, start, 0) == Some(start)
  {
  }

  lemma {:induction false} EndsWithinAfter(log: seq<Entry>, start: nat, k: nat, m: nat)
    requires start < |log|
    ensures EndsWithin(log, After(log, start, k), m) <==> After(log, start, k + m).None?
    decreases m
  {
    hide Up;
    if m > 0 && After(log, start, k).Some? {
      EndsWithinAfter(log, start, k + 1, m - 1);
    } else if After(log, start, k).None? {
      EndedStaysEnded(log, start, k, k + m);
    }
  }

  lemma {:induction false} OrderedWalkSinks(log: seq<Entry>, start: nat, n: nat)
    requires Ordered(log) && start < |log|
    ensures After(log, start, n).Some? ==> After(log, start, n).value + n <= start
  {
    if n > 0 {
      OrderedWalkSinks(log, start, n - 1);
      var at := After(log, start, n - 1);
      if at.Some? {
        UpIsParent(log, at.value);
      }
    }
  }

  /** Where sessions write, it always ends: a parent stands before its child. */
  lemma {:induction false} OrderedWalkEnds(log: seq<Entry>, start: nat)
    requires Ordered(log) && start < |log|
    ensures After(log, start, start + 1).None?
  {
    OrderedWalkSinks(log, start, start + 1);
  }

  /** Two entries that name each other as parent: the walk from either never ends. */
  lemma CyclicFileNeverEnds(x: Entry, y: Entry, n: nat)
    requires x.id != y.id && x.parent == Some(y.id) && y.parent == Some(x.id)
    ensures After([x, y], 0, n).Some? && After([x, y], 1, n).Some?
  {
    var log := [x, y];
    IndexSnoc(log);
    IndexSnoc(log[..1]);
    assert IdIndex(log)[x.id] == 0 && IdIndex(log)[y.id] == 1;
    assert After(log, 0, 1) == Some(1) && After(log, 0, 2) == Some(0);
    assert After(log, 1, 1) == Some(0) && After(log, 1, 2) == Some(1);
    LoopNeverEnds(log, 0, 0, 2, n);
    LoopNeverEnds(log, 1, 0, 2, n);
  }

  /**
   Sessions can write such a file after a lossy reopening: when the line of an entry was lost, its child
   still names it, and a new id is only checked against the entries that survived. If the new entry is
   given the lost id, the walk from it never ends.
   */
  lemma {:induction false} ReopenedAppendCanLoop(lost: Entry, child: Entry, body: Body, n: nat)
    requires lost.parent.None? && child.parent == Some(lost.id) && child.id != lost.id
    ensures var log, lines := [lost, child], [None, Some(child)];
            var reopened := Parsed(lines);
            var e := Entry(lost.id, LastId(reopened), body);
            && Sound(log) && WrittenFrom(lines, log) && Ordered(reopened)
            && e.id !in IdIndex(reopened) && e.parent.Some? && e.parent.value in IdIndex(reopened)
            && !NoneAwaits(reopened, e.id) && !Ordered(reopened + [e])
            && After(reopened + [e], 1, n).Some?
  {
    hide After, Sound, Ordered, Parsed;
    LossyPair(lost, child);
    var reopened := [child];
    IndexSnoc(reopened);
    var e := Entry(lost.id, LastId(reopened), body);
    assert reopened[0].parent == Some(e.id);
    AppendKeepsOrder(reopened, e);
    assert reopened + [e] == [child, e];
    CyclicFileNeverEnds(child, e, n);
  }

  lemma LossyPair(lost: Entry, child: Entry)
    requires lost.parent.None? && child.parent == Some(lost.id) && child.id != lost.id
    ensures Sound([lost, child]) && WrittenFrom([None, Some(child)], [lost, child])
    ensures Parsed([None, Some(child)]) == [child] && Ordered([child])
  {
    var log := [lost, child];
    var lines: seq<Option<Entry>> := [None, Some(child)];
    assert log[0].id == log[1].parent.value;
    assert |lines[..1]| == 1 && lines[..1][0] == None && lines[..1][..0] == [];
    assert Parsed(lines[..1]) == [];
  }

  /** An id that no line of the file ever had, lost or not, is awaited by nobody. */
  lemma {:induction false} FreshForWholeFile(log: seq<Entry>, lines: seq<Option<Entry>>, id: string)
    requires Sound(log) && WrittenFrom(lines, log) && id !in IdIndex(log)
    ensures NoneAwaits(Parsed(lines), id)
  {
    var kept := Parsed(lines);
    forall j | 0 <= j < |kept| ensures kept[j].parent != Some(id) {
      ParsedMember(lines, log, j);
      if kept[j].parent == Some(id) {
        var i :| 0 <= i < |log| && log[i] == kept[j];
        var p :| 0 <= p < i && log[p].id == log[i].parent.value;
        IndexHolds(log, id);
        assert false;
      }
    }
  }

  // ---------------------------------------------------------------------------------------------
  // Forks
  // ---------------------------------------------------------------------------------------------

  datatype ForkPosition = Before | At

  /** Where the walk of a fork starts: at the entry, or above a user message. */
  function ForkPoint(log: seq<Entry>, entryId: string, position: ForkPosition): Result<Option<string>>
  {
    if entryId !in IdIndex(log) then EntryNotFound(entryId)
    else if position.At? then Ok(Some(entryId))
    else
      var e := EntryOf(log, entryId);
      if e.body.Chat? && e.body.message.User? then Ok(e.parent) else NotAUserMessage(entryId)
  }

  /** The entries of a fork: everything, or what the walk from the fork point collects. */
  function Forked(log: seq<Entry>, entryId: Option<string>, position: ForkPosition): Result<seq<Entry>>
  {
    if entryId.None? then Ok(log)
    else
      match ForkPoint(log, entryId.value, position)
      case Ok(leaf) => Ok(Walk(log, leaf))
      case EntryNotFound(id) => EntryNotFound(id)
      case NotAUserMessage(id) => NotAUserMessage(id)
  }

  /**
   What can be forked: everything, any entry of the log, and before an entry if it is a user message. An
   id the log does not have is reported as such, and so is one of another kind.
   */
  lemma {:induction false} ForkRefused(log: seq<Entry>, entryId: string, position: ForkPosition)
    ensures Forked(log, None, position) == Ok(log)
    ensures Forked(log, Some(entryId), position) == EntryNotFound(entryId) <==>
              forall i :: 0 <= i < |log| ==> log[i].id != entryId
    ensures Forked(log, Some(entryId), position) == NotAUserMessage(entryId) <==>
              position.Before? && exists i :: IsLastOf(log, entryId, i) && !(log[i].body.Chat? && log[i].body.message.User?)
    ensures Forked(log, Some(entryId), position).Ok? <==>
              exists i :: IsLastOf(log, entryId, i) && (position.Before? ==> log[i].body.Chat? && log[i].body.message.User?)
    ensures forall i :: IsLastOf(log, entryId, i) && Forked(log, Some(entryId), position).Ok? ==>
              Forked(log, Some(entryId), position) == Ok(Walk(log, if position.At? then Some(entryId) else log[i].parent))
  {
    hide Walk;
    IndexHolds(log, entryId);
    if entryId in IdIndex(log) {
      assert IsLastOf(log, entryId, IdIndex(log)[entryId]);
    }
  }

  /** The last entry with the id stands at `i`. */
  predicate IsLastOf(log: seq<Entry>, id: string, i: int)
  {
    0 <= i < |log| && log[i].id == id && forall j :: i < j < |log| ==> log[j].id != id
  }

  /** The walk of the fork, if it needs one, ends. */
  predicate ForkEnds(log: seq<Entry>, entryId: Option<string>, position: ForkPosition)
  {
    entryId.Some? && ForkPoint(log, entryId.value, position).Ok? ==>
      WalkEnds(log, ForkPoint(log, entryId.value, position).value)
  }

  /** `get_entries_to_fork`: everything, or the path to the fork point. */
  method EntriesToFork(tree: Tree, entryId: Option<string>, position: ForkPosition)
    returns (r: Result<seq<Entry>>)
    requires tree.Valid() && ForkEnds(tree.entries, entryId, position)
    ensures r == Forked(tree.entries, entryId, position)
  {
    if entryId.None? {
      return Ok(tree.entries);
    }
    var target := tree.Get(entryId.value);
    if target.None? {
      return EntryNotFound(entryId.value);
    }
    var leaf := Some(target.value.id);
    if position.Before? {
      if !(target.value.body.Chat? && target.value.body.message.User?) {
        return NotAUserMessage(entryId.value);
      }
      leaf := target.value.parent;
    }
    var path := tree.PathToRoot(leaf);
    r := Ok(path);
  }

  /** The fork of a session held in memory. */
  method ForkInMemory(tree: Tree, entryId: Option<string>, position: ForkPosition) returns (r: Result<Tree>)
    requires tree.Valid() && ForkEnds(tree.entries, entryId, position)
    ensures r.Ok? <==> Forked(tree.entries, entryId, position).Ok?
    ensures r.Ok? ==> fresh(r.value) && r.value.Valid()
    ensures r.Ok? ==> Ok(r.value.entries) == Forked(tree.entries, entryId, position)
    ensures r.Ok? ==> r.value.leaf == LastId(r.value.entries)
    ensures r.EntryNotFound? ==> Forked(tree.entries, entryId, position) == EntryNotFound(r.id)
    ensures r.NotAUserMessage? ==> Forked(tree.entries, entryId, position) == NotAUserMessage(r.id)
  {
    hide Forked, ForkEnds, LabelIndex;
    var entries := EntriesToFork(tree, entryId, position);
    match entries
    case Ok(entries) =>
      var fork := new Tree(entries);
      if entries != [] {
        UniqueIndexOfLast(entries);
        var moved := fork.SetLeaf(LastId(entries));
        assert moved.Ok?;
      }
      r := Ok(fork);
    case EntryNotFound(id) => r := EntryNotFound(id);
    case NotAUserMessage(id) => r := NotAUserMessage(id);
  }

  lemma UniqueIndexOfLast(log: seq<Entry>)
    requires log != []
    ensures LastId(log).value in IdIndex(log)
  {
  }

  /** The fork of a session file: its entries are appended one by one to a new file. */
  method ForkJsonl(lines: seq<Option<Entry>>, entryId: Option<string>, position: ForkPosition)
    returns (r: Result<Tree>)
    requires ForkEnds(Parsed(lines), entryId, position)
    ensures r.Ok? <==> Forked(Parsed(lines), entryId, position).Ok?
    ensures r.Ok? ==> fresh(r.value) && r.value.Valid()
    ensures r.Ok? ==> Ok(r.value.entries) == Forked(Parsed(lines), entryId, position)
    ensures r.Ok? ==> r.value.leaf == LastId(r.value.entries)
    ensures r.EntryNotFound? ==> Forked(Parsed(lines), entryId, position) == EntryNotFound(r.id)
    ensures r.NotAUserMessage? ==> Forked(Parsed(lines), entryId, position) == NotAUserMessage(r.id)
  {
    hide Forked, ForkEnds, IdIndex, LabelIndex, Parsed;
    var source := Open(lines);
    var entries := EntriesToFork(source, entryId, position);
    match entries
    case Ok(entries) =>
      var fork := new Tree([]);
      for i := 0 to |entries|
        invariant fresh(fork) && fork.Valid() && fork.entries == entries[..i] && fork.leaf == LastId(entries[..i])
      {
        fork.Push(entries[i]);
      }
      assert entries[..|entries|] == entries;
      r := Ok(fork);
    case EntryNotFound(id) => r := EntryNotFound(id);
    case NotAUserMessage(id) => r := NotAUserMessage(id);
  }

  /** A chain whose first entry has no parent is a sound log on its own. */
  lemma {:induction false} ChainIsSound(log: seq<Entry>, path: seq<Entry>, id: string)
    requires Sound(log) && IsChain(log, path, id)
    ensures Sound(path)
  {
    hide IdIndex, Ordered, Closed;
    forall i, j | 0 <= i < j < |path| ensures path[i].id != path[j].id {
      ChainIncreases(log, path, id, i, j);
    }
    assert path[0].parent.None? by {
      assert Closed(log);
      TopHasNoParent(log, path, id);
    }
    SoundByLinks(path);
  }

  lemma SoundByLinks(path: seq<Entry>)
    requires path != [] && path[0].parent.None?
    requires forall i, j :: 0 <= i < j < |path| ==> path[i].id != path[j].id
    requires forall k :: 0 < k < |path| ==> path[k].parent == Some(path[k - 1].id)
    ensures Sound(path)
  {
    forall i, j | 0 <= i < |path| && 0 <= j < |path| && path[i].parent == Some(path[j].id) ensures j < i {
      assert i > 0 && path[i - 1].id == path[j].id;
    }
    forall i | 0 <= i < |path| && path[i].parent.Some?
      ensures exists j :: 0 <= j < i && path[j].id == path[i].parent.value
    {
      assert path[i - 1].id == path[i].parent.value;
    }
  }

  lemma TopHasNoParent(log: seq<Entry>, path: seq<Entry>, id: string)
    requires Closed(log) && IsChain(log, path, id)
    ensures path[0].parent.None?
  {
    var i := IdIndex(log)[path[0].id];
    if log[i].parent.Some? {
      var j :| 0 <= j < i && log[j].id == log[i].parent.value;
      IndexHolds(log, log[j].id);
      assert false;
    }
  }

  lemma {:induction false} ChainIncreases(log: seq<Entry>, path: seq<Entry>, id: string, i: nat, j: nat)
    requires IsChain(log, path, id) && i < j < |path|
    ensures IdIndex(log)[path[i].id] < IdIndex(log)[path[j].id]
    ensures path[i].id != path[j].id
    decreases j
  {
    hide IdIndex;
    if i < j - 1 {
      ChainIncreases(log, path, id, i, j - 1);
    }
  }

  lemma ParentInChain(path: seq<Entry>, k: nat)
    requires Ordered(path) && k < |path| && path[0].parent.None?
    requires k > 0 ==> path[k].parent == Some(path[k - 1].id)
    ensures ParentOf(path, k) == if k > 0 then Some(k - 1) else None
  {
    if k > 0 {
      UniqueIndex(path, k - 1);
    }
  }

  /** In a log that is one chain, every entry's path is all that stands before it. */
  lemma {:induction false} PathOfChain(path: seq<Entry>, k: nat)
    requires Ordered(path) && k < |path| && path[0].parent.None?
    requires forall k :: 0 < k < |path| ==> path[k].parent == Some(path[k - 1].id)
    ensures PathAt(path, k) == path[..k + 1]
  {
    hide IdIndex, PathAt, Ordered, ParentOf;
    PathUnfolds(path, k);
    ParentInChain(path, k);
    if k > 0 {
      PathOfChain(path, k - 1);
      assert path[..k + 1] == path[..k] + [path[k]];
    }
  }

  /**
   A fork at an entry holds the entry's path (or, forking before a user message, that path without the
   message), is a sound log on its own, and the walk from its leaf gives all of it back.
   */
  lemma {:induction false} ForkKeepsPath(log: seq<Entry>, entryId: string, position: ForkPosition)
    requires Sound(log) && Forked(log, Some(entryId), position).Ok?
    ensures var fork := Forked(log, Some(entryId), position).value;
            && Sound(fork)
            && PathTo(fork, LastId(fork)) == fork
            && PathTo(log, Some(entryId)) == (if position.At? then fork else fork + [EntryOf(log, entryId)])
  {
    var leaf := ForkPoint(log, entryId, position).value;
    OrderedWalk(log, leaf);
    LastOfPath(log, entryId);
    ForkIsPath(log, leaf);
  }

  /** So what the fork's leaf shows the model is what the source shows at the fork point. */
  lemma {:induction false} ForkKeepsContext(log: seq<Entry>, entryId: string, position: ForkPosition)
    requires Sound(log) && Forked(log, Some(entryId), position).Ok?
    ensures var fork := Forked(log, Some(entryId), position).value;
            var point := ForkPoint(log, entryId, position).value;
            && Sound(fork)
            && Context.Visible(PathTo(fork, LastId(fork))) == Context.Visible(PathTo(log, point))
            && Context.Thinking(PathTo(fork, LastId(fork))) == Context.Thinking(PathTo(log, point))
            && Context.Selected(PathTo(fork, LastId(fork))) == Context.Selected(PathTo(log, point))
  {
    hide Context.Visible, Context.Thinking, Context.Selected, PathTo, Walk, Ordered, Closed;
    ForkKeepsPath(log, entryId, position);
    OrderedWalk(log, ForkPoint(log, entryId, position).value);
  }

  lemma LastOfPath(log: seq<Entry>, id: string)
    requires Ordered(log) && id in IdIndex(log)
    ensures PathTo(log, Some(id)) == PathTo(log, EntryOf(log, id).parent) + [EntryOf(log, id)]
  {
    IndexHolds(log, id);
    PathUnfolds(log, IdIndex(log)[id]);
    hide PathAt;
  }

  lemma {:induction false} ForkIsPath(log: seq<Entry>, leaf: Option<string>)
    requires Sound(log)
    ensures var fork := PathTo(log, leaf); Sound(fork) && PathTo(fork, LastId(fork)) == fork
  {
    var fork := PathTo(log, leaf);
    if fork == [] {
      NoPath(fork);
    } else {
      PathIsParentChain(log, leaf.value);
      hide PathAt, IdIndex;
      ChainIsSound(log, fork, leaf.value);
      TopHasNoParent(log, fork, leaf.value);
      ChainPath(fork);
    }
  }

  lemma ChainPath(path: seq<Entry>)
    requires path != [] && Ordered(path) && path[0].parent.None?
    requires forall k :: 0 < k < |path| ==> path[k].parent == Some(path[k - 1].id)
    ensures PathTo(path, LastId(path)) == path
  {
    UniqueIndex(path, |path| - 1);
    PathOfChain(path, |path| - 1);
  }

  /**
   A fork of everything, like a reopened file, starts at the last entry written. That is where the
   source stood if and only if its leaf is that entry: a leaf moved by `set_leaf` is not written down.
   */
  lemma {:induction false} FullForkLeaf(log: seq<Entry>, leaf: Option<string>)
    requires Ordered(log) && (leaf.Some? ==> leaf.value in IdIndex(log))
    ensures Forked(log, None, At) == Ok(log)
    ensures PathTo(log, LastId(log)) == PathTo(log, leaf) <==> leaf == LastId(log)
  {
    PathIsFromLog(log, leaf);
    PathIsFromLog(log, LastId(log));
    if log != [] {
      UniqueIndexOfLast(log);
    }
  }
}
