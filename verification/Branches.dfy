/** Leaving a branch: the entries to summarize, and the newest messages that fit a budget. */
module Branches {
  import opened Prelude
  import opened Conversation
  import opened SessionTree
  import opened CutPoint
  import Context
  import opened Compaction

  // ---------------------------------------------------------------------------------------------
  // The deepest common ancestor
  // ---------------------------------------------------------------------------------------------

  /** The length of the longest common prefix. */
  function Common(a: seq<Entry>, b: seq<Entry>): (n: nat)
    ensures n <= |a| && n <= |b| && a[..n] == b[..n]
    ensures n < |a| && n < |b| ==> a[n] != b[n]
  {
    if a == [] || b == [] || a[0] != b[0] then 0 else 1 + Common(a[1..], b[1..])
  }

  lemma CommonAtLeast(a: seq<Entry>, b: seq<Entry>, k: nat)
    requires k <= |a| && k <= |b| && a[..k] == b[..k]
    ensures k <= Common(a, b)
  {
    assert forall m :: 0 <= m < k ==> a[m] == a[..k][m] == b[m];
  }

  lemma SameAbove(a: seq<Entry>, b: seq<Entry>, j: nat)
    requires j < Common(a, b)
    ensures a[j] == b[j]
  {
    assert a[..Common(a, b)][j] == b[..Common(a, b)][j];
  }

  /** Every beginning of what a walk collects is what the walk from the entry it ends with collects. */
  lemma {:induction false} PrefixOfWalk(log: seq<Entry>, id: string, k: nat)
    requires WalkEnds(log, Some(id)) && k < |Walk(log, Some(id))|
    ensures var top := Some(Walk(log, Some(id))[k].id);
            WalkEnds(log, top) && Walk(log, top) == Walk(log, Some(id))[..k + 1]
    decreases |Walk(log, Some(id))|
  {
    hide Walk, WalkEnds, IdIndex;
    WalkUnfolds(log, Some(id));
    var path, e := Walk(log, Some(id)), EntryOf(log, id);
    if k == |path| - 1 {
      assert path[..k + 1] == path;
    } else {
      var above := Walk(log, e.parent);
      assert e.parent.Some? by {
        WalkUnfolds(log, e.parent);
      }
      PrefixOfWalk(log, e.parent.value, k);
      assert above[..k + 1] == path[..k + 1];
    }
  }

  /** Two walks that end share an id only at the same depth, and then everything above it too. */
  lemma {:induction false} SharedIdIsSharedPrefix(log: seq<Entry>, x: string, y: string, i: nat, j: nat)
    requires WalkEnds(log, Some(x)) && i < |Walk(log, Some(x))|
    requires WalkEnds(log, Some(y)) && j < |Walk(log, Some(y))|
    requires Walk(log, Some(x))[i].id == Walk(log, Some(y))[j].id
    ensures i == j && i < Common(Walk(log, Some(x)), Walk(log, Some(y)))
  {
    hide Walk, WalkEnds, Common;
    PrefixOfWalk(log, x, i);
    PrefixOfWalk(log, y, j);
    var a, b := Walk(log, Some(x)), Walk(log, Some(y));
    assert |a[..i + 1]| == |b[..j + 1]|;
    CommonAtLeast(a, b, i + 1);
  }

  /** What was collected is the part of the old path below the longest common prefix. */
  predicate Collected(left: seq<Entry>, target: seq<Entry>, entries: seq<Entry>, ancestor: Option<string>)
  {
    entries == left[Common(left, target)..] && ancestor == Deepest(left, target)
  }

  function Deepest(left: seq<Entry>, target: seq<Entry>): Option<string>
  {
    if Common(left, target) == 0 then None else Some(left[Common(left, target) - 1].id)
  }

  /** `collect_entries_for_branch_summary`. */
  method CollectEntries(tree: Tree, oldLeaf: Option<string>, target: string)
    returns (entries: seq<Entry>, ancestor: Option<string>)
    requires tree.Valid()
    requires oldLeaf.Some? && oldLeaf.value != "" ==>
               WalkEnds(tree.entries, oldLeaf) && WalkEnds(tree.entries, Some(target))
    ensures oldLeaf.None? || oldLeaf.value == "" ==> entries == [] && ancestor == None
    ensures oldLeaf.Some? && oldLeaf.value != "" ==>
              Collected(Walk(tree.entries, oldLeaf), Walk(tree.entries, Some(target)), entries, ancestor)
  {
    hide LabelIndex, PathTo, Ordered, Common, Deepest, Walk, WalkEnds, IdIndex;
    if oldLeaf.None? || oldLeaf.value == "" {
      return [], None;
    }
    var log := tree.entries;
    var oldPath := tree.PathToRoot(oldLeaf);
    var targetPath := tree.PathToRoot(Some(target));
    ancestor := DeepestShared(log, oldLeaf.value, target, oldPath, targetPath);
    ghost var common := Common(oldPath, targetPath);
    ghost var n := |oldPath|;
    entries := [];
    NothingReversed<Entry>();
    var current := oldLeaf;
    StartOfWalk(log, oldLeaf.value);
    while current.Some? && current != ancestor
      invariant common <= n <= |oldPath| && Standing(log, oldPath, n, current)
      invariant Reverse(entries) == oldPath[n..]
      decreases n
    {
      var entry := tree.Get(current.value);
      if entry.None? {
        break;
      }
      StepOfWalk(log, oldLeaf.value, n, current.value);
      AncestorAhead(oldPath, targetPath, n, current, ancestor);
      ReverseSnoc(entries, entry.value);
      assert oldPath[n - 1..] == [entry.value] + oldPath[n..];
      n := n - 1;
      entries := entries + [entry.value];
      current := entry.value.parent;
    }
    EndOfWalk(log, oldLeaf.value, target, n, current);
    entries := Tree.ReverseOf(entries);
  }

  /** The deepest id of the target's path that is on the old path. */
  method DeepestShared(log: seq<Entry>, left: string, target: string, oldPath: seq<Entry>, targetPath: seq<Entry>)
    returns (ancestor: Option<string>)
    requires WalkEnds(log, Some(left)) && oldPath == Walk(log, Some(left))
    requires WalkEnds(log, Some(target)) && targetPath == Walk(log, Some(target))
    ensures ancestor == Deepest(oldPath, targetPath)
  {
    hide Walk, WalkEnds;
    var ids := set i | 0 <= i < |oldPath| :: oldPath[i].id;
    for j := |targetPath| downto 0
      invariant Common(oldPath, targetPath) <= j
    {
      assert j < Common(oldPath, targetPath) ==> targetPath[j].id in ids by {
        if j < Common(oldPath, targetPath) {
          SameAbove(oldPath, targetPath, j);
        }
      }
      if targetPath[j].id in ids {
        ghost var i :| 0 <= i < |oldPath| && oldPath[i].id == targetPath[j].id;
        SharedIdIsSharedPrefix(log, left, target, i, j);
        SameAbove(oldPath, targetPath, j);
        return Some(targetPath[j].id);
      }
    }
    ancestor := None;
  }

  /** The walk stands at the `n`th entry of the path, or, at the top, at an id that names nothing. */
  predicate Standing(log: seq<Entry>, path: seq<Entry>, n: nat, current: Option<string>)
  {
    && n <= |path|
    && (n > 0 ==> current == Some(path[n - 1].id))
    && (n == 0 && current.Some? ==> current.value !in IdIndex(log))
  }

  lemma StartOfWalk(log: seq<Entry>, left: string)
    requires WalkEnds(log, Some(left))
    ensures Standing(log, Walk(log, Some(left)), |Walk(log, Some(left))|, Some(left))
  {
    hide Walk, WalkEnds, IdIndex;
    WalkUnfolds(log, Some(left));
  }

  lemma StepOfWalk(log: seq<Entry>, left: string, n: nat, id: string)
    requires WalkEnds(log, Some(left)) && Standing(log, Walk(log, Some(left)), n, Some(id)) && id in IdIndex(log)
    ensures n > 0 && IdIndex(log)[id] < |log| && log[IdIndex(log)[id]] == Walk(log, Some(left))[n - 1]
    ensures Standing(log, Walk(log, Some(left)), n - 1, Walk(log, Some(left))[n - 1].parent)
  {
    hide Walk, WalkEnds, IdIndex;
    IndexHolds(log, id);
    var path := Walk(log, Some(left));
    PrefixOfWalk(log, left, n - 1);
    WalkUnfolds(log, Some(id));
    var e := EntryOf(log, id);
    assert path[..n] == Walk(log, e.parent) + [e];
    assert path[..n][n - 1] == path[n - 1];
    WalkUnfolds(log, e.parent);
    assert n > 1 ==> path[..n][n - 2] == path[n - 2];
  }

  /** While the walk has not met the ancestor, it is below it. */
  lemma AncestorAhead(left: seq<Entry>, target: seq<Entry>, n: nat, current: Option<string>, ancestor: Option<string>)
    requires Common(left, target) <= n <= |left| && n > 0 && current == Some(left[n - 1].id)
    requires ancestor == Deepest(left, target) && current != ancestor
    ensures Common(left, target) <= n - 1
  {
  }

  lemma EndOfWalk(log: seq<Entry>, left: string, target: string, n: nat, current: Option<string>)
    requires WalkEnds(log, Some(left)) && WalkEnds(log, Some(target))
    requires var oldPath, targetPath := Walk(log, Some(left)), Walk(log, Some(target));
             && Common(oldPath, targetPath) <= n && Standing(log, oldPath, n, current)
             && (current.None? || current == Deepest(oldPath, targetPath) || current.value !in IdIndex(log))
    ensures n == Common(Walk(log, Some(left)), Walk(log, Some(target)))
  {
    hide Walk, WalkEnds, Common, IdIndex;
    var oldPath, targetPath := Walk(log, Some(left)), Walk(log, Some(target));
    var common := Common(oldPath, targetPath);
    if n > 0 {
      assert current.value in IdIndex(log) by {
        PrefixOfWalk(log, left, n - 1);
        WalkUnfolds(log, current);
      }
      if common > 0 {
        SharedIdIsSharedPrefix(log, left, left, n - 1, common - 1);
      }
    }
  }

  /**
   What collecting means: the old path is the path to the ancestor followed by exactly the collected
   entries; the ancestor's path begins both paths, and they part right after it. Without an ancestor
   the two paths share nothing and the whole old path is collected.
   */
  lemma {:induction false} CollectedSplitsAtAncestor(log: seq<Entry>, left: string, target: string,
                                                     entries: seq<Entry>, ancestor: Option<string>)
    requires WalkEnds(log, Some(left)) && WalkEnds(log, Some(target))
    requires Collected(Walk(log, Some(left)), Walk(log, Some(target)), entries, ancestor)
    ensures var oldPath, targetPath, shared := Walk(log, Some(left)), Walk(log, Some(target)), Walk(log, ancestor);
            && oldPath == shared + entries
            && shared <= targetPath
            && (ancestor.None? ==> entries == oldPath)
            && (forall x, y :: x in entries && y in targetPath ==> x.id != y.id)
  {
    var oldPath, targetPath := Walk(log, Some(left)), Walk(log, Some(target));
    var n := Common(oldPath, targetPath);
    assert Walk(log, None) == [];
    hide Walk, WalkEnds, Common, IdIndex;
    if n > 0 {
      PrefixOfWalk(log, left, n - 1);
    }
    assert oldPath == oldPath[..n] + oldPath[n..];
    forall i, j | n <= i < |oldPath| && 0 <= j < |targetPath| ensures oldPath[i].id != targetPath[j].id {
      if oldPath[i].id == targetPath[j].id {
        SharedIdIsSharedPrefix(log, left, target, i, j);
      }
    }
    PartAfter(oldPath, targetPath, n);
  }

  lemma PartAfter(a: seq<Entry>, b: seq<Entry>, n: nat)
    requires n <= |a| && forall i, j :: n <= i < |a| && 0 <= j < |b| ==> a[i].id != b[j].id
    ensures forall x, y :: x in a[n..] && y in b ==> x.id != y.id
  {
    forall x, y | x in a[n..] && y in b ensures x.id != y.id {
      var i :| 0 <= i < |a[n..]| && a[n..][i] == x;
      assert a[n + i] == x;
    }
  }

  // ---------------------------------------------------------------------------------------------
  // The newest messages that fit
  // ---------------------------------------------------------------------------------------------

  /** The message an entry contributes to a branch summary: no tool results, but compactions. */
  function ToldBy(e: Entry): (s: seq<Message>)
    ensures |s| <= 1
  {
    match e.body
    case Chat(message) => if message.ToolResult? then [] else [message]
    case CustomMessage(kind, text, images) => [CustomNote(kind, text, images)]
    case BranchSummary(fromId, summary, _, _) => [BranchNote(summary, fromId)]
    case Compaction(summary, _, tokensBefore, _, _) => [CompactionNote(summary, tokensBefore)]
    case _ => []
  }

  function Told(entries: seq<Entry>): seq<Message>
  {
    if entries == [] then [] else ToldBy(entries[0]) + Told(entries[1..])
  }

  /** What the messages from position `i` on weigh. */
  function Weight(entries: seq<Entry>, i: nat): nat
    requires i <= |entries|
  {
    TokenSum(Told(entries[i..]))
  }

  /** A branch summary is told the message for the entry. */
  predicate Tells(e: Entry, m: Message)
  {
    || (e.body == Chat(m) && !m.ToolResult?)
    || (e.body.CustomMessage? && m == CustomNote(e.body.kind, e.body.text, e.body.images))
    || (e.body.BranchSummary? && m == BranchNote(e.body.summary, e.body.fromId))
    || (e.body.Compaction? && m == CompactionNote(e.body.summary, e.body.tokensBefore))
  }

  lemma TellsOne(e: Entry)
    ensures forall m :: Tells(e, m) <==> ToldBy(e) == [m]
    ensures ToldBy(e) != [] ==> ToldBy(e) == [ToldBy(e)[0]]
  {
  }

  /** What is told: a message for every entry that has one, in the order of the entries, and nothing else. */
  lemma {:induction false} ToldHolds(entries: seq<Entry>) returns (at: seq<nat>)
    ensures Context.ListedAt(entries, Told(entries), at, Tells)
  {
    hide Context.ListedAt;
    if entries == [] {
      at := [];
      Context.NothingListed(Tells);
    } else {
      var n := |entries| - 1;
      var e, before := entries[n], Told(entries[..n]);
      at := ToldHolds(entries[..n]);
      ToldJoins(entries, n);
      TellsOne(e);
      assert entries[n..] == [e] && [e][1..] == [];
      assert Told([e]) == ToldBy(e) + Told([]);
      assert Told(entries) == before + ToldBy(e);
      hide Tells, ToldBy, Told;
      assert entries == entries[..n] + [e];
      if ToldBy(e) == [] {
        Context.ListedSame(entries[..n], before, at, Tells, e);
        assert before + [] == before;
      } else {
        Context.ListedMore(entries[..n], before, at, Tells, e, ToldBy(e)[0]);
        at := at + [n];
      }
    }
  }

  lemma ToldFrom(entries: seq<Entry>, i: nat)
    requires i < |entries|
    ensures Told(entries[i..]) == ToldBy(entries[i]) + Told(entries[i + 1..])
    ensures Weight(entries, i) ==
            (if ToldBy(entries[i]) == [] then 0 else Tokens(ToldBy(entries[i])[0])) + Weight(entries, i + 1)
  {
    assert entries[i..][1..] == entries[i + 1..];
    if ToldBy(entries[i]) != [] {
      assert ToldBy(entries[i]) == [ToldBy(entries[i])[0]];
      TokenSumJoins(ToldBy(entries[i]), Told(entries[i + 1..]));
      assert TokenSum([ToldBy(entries[i])[0]]) == Tokens(ToldBy(entries[i])[0]);
    } else {
      assert [] + Told(entries[i + 1..]) == Told(entries[i + 1..]);
    }
  }

  lemma {:induction false} WeightShrinks(entries: seq<Entry>, i: nat, j: nat)
    requires i <= j <= |entries|
    ensures Weight(entries, j) <= Weight(entries, i)
    decreases j - i
  {
    if i < j {
      ToldFrom(entries, i);
      WeightShrinks(entries, i + 1, j);
    }
  }

  /** The longest part at the end that fits the budget; a budget of zero or less is no limit. */
  predicate Fits(entries: seq<Entry>, budget: int, i: nat)
  {
    && i <= |entries|
    && (budget <= 0 ==> i == 0)
    && (budget > 0 ==> Weight(entries, i) <= budget && (i > 0 ==> budget < Weight(entries, i - 1)))
  }

  lemma FitsIsUnique(entries: seq<Entry>, budget: int, i: nat, j: nat)
    requires Fits(entries, budget, i) && Fits(entries, budget, j)
    ensures i == j
  {
    hide Weight;
    if i < j {
      WeightShrinks(entries, i, j - 1);
    } else if j < i {
      WeightShrinks(entries, j, i - 1);
    }
  }

  predicate IsSummary(e: Entry)
  {
    e.body.Compaction? || e.body.BranchSummary?
  }

  /**
   A summary that does not fit is still taken when what follows it uses less than nine tenths.
   `Doubles.NineTenthsOfBudget` says that the code's floating-point comparison is this one.
   */
  function Start(entries: seq<Entry>, budget: int, fits: nat): (start: nat)
    requires Fits(entries, budget, fits)
    ensures start <= fits
  {
    if fits > 0 && IsSummary(entries[fits - 1]) && 10 * Weight(entries, fits) < 9 * budget then fits - 1 else fits
  }

  /** What earlier branch summaries recorded, unless a hook made them. */
  function Recalled(entries: seq<Entry>): FileLists
  {
    if entries == [] then FileLists({}, {})
    else
      var e, rest := entries[0], Recalled(entries[1..]);
      if e.body.BranchSummary? && e.body.details.Some? && !e.body.fromHook then
        FileLists(e.body.details.value.read + rest.read, e.body.details.value.modified + rest.modified)
      else rest
  }

  /** A file is recalled if and only if some branch summary's record names it, unless a hook made that. */
  lemma {:induction false} RecalledHolds(entries: seq<Entry>, path: string)
    ensures path in Recalled(entries).read <==>
              exists i :: 0 <= i < |entries| && Records(entries[i]) && path in entries[i].body.details.value.read
    ensures path in Recalled(entries).modified <==>
              exists i :: 0 <= i < |entries| && Records(entries[i]) && path in entries[i].body.details.value.modified
  {
    if entries != [] {
      var rest := entries[1..];
      RecalledHolds(rest, path);
      hide Recalled;
      assert forall i :: 0 <= i < |rest| ==> rest[i] == entries[i + 1];
    }
  }

  predicate Records(e: Entry)
  {
    e.body.BranchSummary? && e.body.details.Some? && !e.body.fromHook
  }

  lemma {:induction false} RecalledSnoc(entries: seq<Entry>, i: nat)
    requires i < |entries|
    ensures Recalled(entries[..i + 1]).read == Recalled(entries[..i]).read + Recalled([entries[i]]).read
    ensures Recalled(entries[..i + 1]).modified == Recalled(entries[..i]).modified + Recalled([entries[i]]).modified
    decreases i
  {
    if i == 0 {
      assert entries[..1] == [entries[0]];
    } else {
      RecalledSnoc(entries[1..], i - 1);
      assert entries[..i + 1][1..] == entries[1..][..i] && entries[..i][1..] == entries[1..][..i - 1];
    }
  }

  datatype BranchPreparation = BranchPreparation(messages: seq<Message>, files: Files, tokens: nat)

  /** How many entries were looked at for files: the fitting ones and the one that did not fit. */
  function Looked(fits: nat): nat
  {
    if fits == 0 then 0 else fits - 1
  }

  /** The files found: earlier records, and the tools used in the entries looked at. */
  function FilesFound(entries: seq<Entry>, fits: nat): Files
    requires fits <= |entries|
  {
    FilesFrom(Recalled(entries), Told(entries[Looked(fits)..]))
  }

  /** The files of every entry. */
  function FilesThere(entries: seq<Entry>): Files
  {
    FilesFrom(Recalled(entries), Told(entries))
  }

  /** `prepare_branch_entries`. */
  method PrepareBranch(entries: seq<Entry>, budget: int) returns (p: BranchPreparation, ghost fits: nat)
    ensures Fits(entries, budget, fits)
    ensures p.messages == Told(entries[Start(entries, budget, fits)..]) && p.tokens == TokenSum(p.messages)
    ensures p.files == FilesFound(entries, fits)
  {
    hide Told, ToldBy, Recalled, Weight, Tokens, PathsOfAll, Paths, TokenSum;
    var files := RecallFiles(entries);
    p, fits := WalkBranch(entries, budget, files);
  }

  /** The records of every branch summary among the entries. */
  method RecallFiles(entries: seq<Entry>) returns (files: FileOperations)
    ensures fresh(files)
    ensures files.read == Recalled(entries).read && files.written == {} && files.edited == Recalled(entries).modified
  {
    files := new FileOperations();
    for i := 0 to |entries|
      invariant fresh(files) && files.written == {}
      invariant files.read == Recalled(entries[..i]).read && files.edited == Recalled(entries[..i]).modified
    {
      var e := entries[i];
      RecalledSnoc(entries, i);
      assert [e][1..] == [];
      if e.body.BranchSummary? && e.body.details.Some? && !e.body.fromHook {
        files.read := files.read + e.body.details.value.read;
        files.edited := files.edited + e.body.details.value.modified;
      }
    }
    assert entries[..|entries|] == entries;
  }

  lemma FilesCons(previous: FileLists, m: Message, rest: seq<Message>)
    ensures FilesFrom(previous, [m] + rest) ==
            Files(FilesFrom(previous, rest).read + Paths(m, "Read"),
                  FilesFrom(previous, rest).written + Paths(m, "Write"),
                  FilesFrom(previous, rest).edited + Paths(m, "Edit"))
  {
    hide Paths;
    assert ([m] + rest)[1..] == rest;
  }

  lemma NoFilesYet(previous: FileLists)
    ensures FilesFrom(previous, []) == Files(previous.read, {}, previous.modified)
  {
  }

  lemma NothingTold(entries: seq<Entry>)
    ensures Told(entries[|entries|..]) == [] && Weight(entries, |entries|) == 0
  {
  }

  /** From the newest entry back, until a message does not fit. */
  method WalkBranch(entries: seq<Entry>, budget: int, files: FileOperations)
    returns (p: BranchPreparation, ghost fits: nat)
    requires files.read == Recalled(entries).read && files.written == {} && files.edited == Recalled(entries).modified
    modifies files
    ensures Fits(entries, budget, fits)
    ensures p.messages == Told(entries[Start(entries, budget, fits)..]) && p.tokens == TokenSum(p.messages)
    ensures p.files == FilesFrom(Recalled(entries), Told(entries[Looked(fits)..]))
  {
    hide Told, ToldBy, Recalled, Weight, Tokens, PathsOfAll, Paths, TokenSum, FilesFrom;
    var messages, tokens := [], 0;
    ghost var recalled := Recalled(entries);
    NothingTold(entries);
    NoFilesYet(recalled);
    for i := |entries| downto 0
      invariant messages == Told(entries[i..]) && tokens == Weight(entries, i)
      invariant Files(files.read, files.written, files.edited) == FilesFrom(recalled, messages)
      invariant budget > 0 ==> tokens <= budget
    {
      var told := ToldBy(entries[i]);
      ToldFrom(entries, i);
      if told != [] {
        var message := told[0];
        assert told == [message];
        FilesCons(recalled, message, messages);
        files.Extract(message);
        var t := Tokens(message);
        if budget > 0 && tokens + t > budget {
          fits := i + 1;
          assert Fits(entries, budget, fits);
          if IsSummary(entries[i]) && tokens * 10 < budget * 9 {
            messages, tokens := [message] + messages, tokens + t;
          }
          p := BranchPreparation(messages, Files(files.read, files.written, files.edited), tokens);
          WeightOf(entries, i);
          WeightOf(entries, i + 1);
          return;
        }
        messages, tokens := [message] + messages, tokens + t;
      } else {
        assert told + messages == messages;
      }
    }
    fits := 0;
    WeightOf(entries, 0);
    p := BranchPreparation(messages, Files(files.read, files.written, files.edited), tokens);
  }

  lemma WeightOf(entries: seq<Entry>, i: nat)
    requires i <= |entries|
    ensures Weight(entries, i) == TokenSum(Told(entries[i..]))
  {
  }

  /**
   The summary gets a contiguous newest part. Within the budget, or, when its oldest message is a
   summary that did not fit, with less than nine tenths of the budget used by the rest; the message
   before it is left out only because it would not fit.
   */
  lemma {:induction false} BranchWithinBudget(entries: seq<Entry>, budget: int, fits: nat)
    requires Fits(entries, budget, fits) && budget > 0
    ensures var start := Start(entries, budget, fits);
            && (Weight(entries, start) <= budget <==> start == fits)
            && (start < fits ==> IsSummary(entries[start]) && 10 * Weight(entries, start + 1) < 9 * budget)
            && (forall i :: 0 <= i < start ==> budget < Weight(entries, i))
  {
    var start := Start(entries, budget, fits);
    forall i | 0 <= i < start ensures budget < Weight(entries, i) {
      WeightShrinks(entries, i, fits - 1);
    }
  }

  /** The same entries from position `n` on, and anything at all before it. */
  predicate SameFrom(entries: seq<Entry>, other: seq<Entry>, n: nat)
  {
    n <= |entries| == |other| && other[n..] == entries[n..]
  }

  /** What fits does not depend on the entries that are not looked at. */
  lemma FitsSameFrom(entries: seq<Entry>, other: seq<Entry>, budget: int, fits: nat)
    requires Fits(entries, budget, fits) && SameFrom(entries, other, Looked(fits))
    ensures Fits(other, budget, fits)
  {
    hide Weight;
    SameWeight(entries, other, Looked(fits), fits);
    if fits > 0 {
      SameWeight(entries, other, Looked(fits), fits - 1);
    }
  }

  lemma SameWeight(entries: seq<Entry>, other: seq<Entry>, n: nat, i: nat)
    requires SameFrom(entries, other, n) && n <= i <= |entries|
    ensures Weight(other, i) == Weight(entries, i)
  {
    hide Told, TokenSum;
    assert other[i..] == other[n..][i - n..] == entries[n..][i - n..] == entries[i..];
  }

  /** Everything is looked at if and only if there is no limit, or all but the oldest entry fit. */
  lemma {:induction false} AllLookedAt(entries: seq<Entry>, budget: int, fits: nat)
    requires Fits(entries, budget, fits)
    ensures Looked(fits) == 0 <==> budget <= 0 || |entries| <= 1 || Weight(entries, 1) <= budget
  {
    hide Weight;
    if fits > 1 {
      WeightShrinks(entries, 1, fits - 1);
    } else if budget > 0 && |entries| > 1 {
      WeightShrinks(entries, fits, 1);
    }
  }

  lemma {:induction false} FreshPath(taken: set<string>) returns (p: string)
    ensures p != "" && p !in taken
    ensures forall t :: t in taken ==> |t| < |p|
  {
    if taken == {} {
      p := "f";
    } else {
      var t :| t in taken;
      var q := FreshPath(taken - {t});
      p := q + t;
      assert |p| == |q| + |t|;
    }
  }

  function Writer(path: string): Entry
  {
    Entry("", None, Chat(Assistant("", [ToolCall("", "Write", "", path)], ModelRef("", ""), Stop, 0, None)))
  }

  lemma WriterWrites(path: string)
    requires path != ""
    ensures path in PathsOfAll(Told([Writer(path)]), "Write") && |Told([Writer(path)])| == 1
    ensures Weight([Writer(path)], 0) == 2
  {
    var e := Writer(path);
    assert [e][1..] == [] && [e][0..] == [e];
    var told := Told([e]);
    assert ToldBy(e) == [e.body.message] && Told([e][1..]) == [];
    assert told == [e.body.message];
    assert told[1..] == [];
    assert TokenSum(told) == Tokens(e.body.message);
    var call := e.body.message.calls[0];
    assert call.path in Paths(e.body.message, "Write");
    assert Chars(e.body.message) == 5 by {
      assert JsLen("Write") == 5 && CallChars(e.body.message.calls[1..]) == 0;
    }
  }

  /** An entry that is not looked at may have written any file. */
  lemma {:induction false} UnreadFileMissed(entries: seq<Entry>, n: nat, path: string)
    requires 0 < n <= |entries| && path != ""
    ensures var other := entries[n - 1 := Writer(path)];
            SameFrom(entries, other, n) && path in PathsOfAll(Told(other), "Write")
  {
    hide PathsOfAll, Told, Weight;
    var other := entries[n - 1 := Writer(path)];
    assert other[n..] == entries[n..];
    assert other[n - 1..] == [Writer(path)] + other[n..] && other[n - 1..][..1] == [Writer(path)];
    assert other[n - 1..][1..] == other[n..];
    WriterWrites(path);
    ToldJoins(other[n - 1..], 1);
    PathsJoin(Told([Writer(path)]), Told(other[n..]), "Write");
    ToldJoins(other, n - 1);
    PathsJoin(Told(other[..n - 1]), Told(other[n - 1..]), "Write");
  }

  /**
   When the files are those of every entry, as announced, whatever the entries that were not looked at
   hold: if and only if there is no limit, or all but the oldest entry fit the budget.
   */
  lemma {:induction false} FilesOfEveryEntry(entries: seq<Entry>, budget: int, fits: nat)
    requires Fits(entries, budget, fits)
    ensures forall other :: SameFrom(entries, other, Looked(fits)) ==> Fits(other, budget, fits)
    ensures (forall other :: SameFrom(entries, other, Looked(fits)) ==> FilesFound(other, fits) == FilesThere(other))
            <==> budget <= 0 || |entries| <= 1 || Weight(entries, 1) <= budget
  {
    assert fits <= |entries|;
    hide Weight, PathsOfAll, Told, Recalled, Fits;
    var n := Looked(fits);
    AllLookedAt(entries, budget, fits);
    forall other | SameFrom(entries, other, n) ensures Fits(other, budget, fits) {
      FitsSameFrom(entries, other, budget, fits);
    }
    if n == 0 {
      forall other | SameFrom(entries, other, n) ensures FilesFound(other, fits) == FilesThere(other) {
        assert other[0..] == other;
      }
    } else {
      var found := PathsOfAll(Told(entries[n..]), "Write");
      var path := FreshPath(found);
      UnreadFileMissed(entries, n, path);
      var other := entries[n - 1 := Writer(path)];
      assert path !in FilesFound(other, fits).written && path in FilesThere(other).written;
    }
  }

  /** A branch whose last message alone is over the budget: the file its first reply wrote is missed. */
  lemma {:induction false} BranchFileMissed(path: string)
    requires path != "" && path != "f"
    ensures var entries := [Writer(path), Writer("f")];
            && (forall fits :: Fits(entries, 1, fits) <==> fits == 2)
            && path !in FilesFound(entries, 2).written && path in FilesThere(entries).written
  {
    var entries := [Writer(path), Writer("f")];
    WriterWrites("f");
    assert entries[1..] == [Writer("f")] && [Writer("f")][0..] == [Writer("f")] && entries[2..] == [];
    UnreadFileMissed(entries, 1, path);
    assert entries[0 := Writer(path)] == entries;
    assert Weight(entries, 1) == 2 && Weight(entries, 2) == 0;
    forall fits | Fits(entries, 1, fits) ensures fits == 2 {
      FitsIsUnique(entries, 1, fits, 2);
    }
    var m := Writer("f").body.message;
    assert Told([Writer("f")]) == [m] && [m][1..] == [];
    assert path !in Paths(m, "Write");
  }

  lemma {:induction false} ToldJoins(entries: seq<Entry>, n: nat)
    requires n <= |entries|
    ensures Told(entries) == Told(entries[..n]) + Told(entries[n..])
  {
    if n > 0 {
      ToldJoins(entries[1..], n - 1);
      assert entries[..n][1..] == entries[1..][..n - 1] && entries[1..][n - 1..] == entries[n..];
    }
  }
}
