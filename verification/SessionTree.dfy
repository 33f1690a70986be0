/**
 The session tree: an append-only log of entries with an id index, a label cache and a movable leaf,
 the walk from an entry to the root, and the typed appends of a session.
 */
module SessionTree {
  import opened Prelude
  import opened Conversation

  /** What a compaction records about files. */
  datatype FileLists = FileLists(read: set<string>, modified: set<string>)

  datatype Body =
    | Chat(message: Message)
    | ThinkingLevelChange(thinking: string)
    | ModelChange(to: ModelRef)
    | Compaction(summary: string, firstKept: string, tokensBefore: nat, details: Option<FileLists>, fromHook: bool)
    | BranchSummary(fromId: string, summary: string, details: Option<FileLists>, fromHook: bool)
    | CustomData(kind: string)
    | CustomMessage(kind: string, text: string, images: nat)
    | Label(target: string, name: Option<string>)
    | SessionInfo(title: Option<string>)

  datatype Entry = Entry(id: string, parent: Option<string>, body: Body)

  datatype Result<T> = Ok(value: T) | EntryNotFound(id: string) | NotAUserMessage(id: string)

  // ---------------------------------------------------------------------------------------------
  // What a scan of the log says
  // ---------------------------------------------------------------------------------------------

  /** Each id's position; the last entry of an id counts. */
  function IdIndex(log: seq<Entry>): map<string, nat>
  {
    if log == [] then map[]
    else IdIndex(log[..|log| - 1])[log[|log| - 1].id := |log| - 1]
  }

  predicate IsSpace(c: char)
  {
    '\U{9}' <= c <= '\U{D}' || c == ' ' || c == '\U{85}' || c == '\U{A0}' || c == '\U{1680}' ||
    '\U{2000}' <= c <= '\U{200A}' || c == '\U{2028}' || c == '\U{2029}' || c == '\U{202F}' ||
    c == '\U{205F}' || c == '\U{3000}'
  }

  function TrimStart(s: string): string
  {
    if s != "" && IsSpace(s[0]) then TrimStart(s[1..]) else s
  }

  function Trim(s: string): string
  {
    var t := TrimStart(s);
    TrimEnd(t)
  }

  function TrimEnd(s: string): string
  {
    if s != "" && IsSpace(s[|s| - 1]) then TrimEnd(s[..|s| - 1]) else s
  }

  lemma {:induction false} TrimStartCuts(s: string) returns (i: nat)
    ensures i <= |s| && TrimStart(s) == s[i..]
    ensures forall k :: 0 <= k < i ==> IsSpace(s[k])
    ensures i < |s| ==> !IsSpace(s[i])
  {
    hide IsSpace;
    if s != "" && IsSpace(s[0]) {
      var rest := s[1..];
      i := TrimStartCuts(rest);
      assert rest[i..] == s[i + 1..];
      assert forall k :: 0 < k < i + 1 ==> s[k] == rest[k - 1];
      i := i + 1;
    } else {
      i := 0;
    }
  }

  lemma {:induction false} TrimEndCuts(s: string) returns (j: nat)
    ensures j <= |s| && TrimEnd(s) == s[..j]
    ensures forall k :: j <= k < |s| ==> IsSpace(s[k])
    ensures j > 0 ==> !IsSpace(s[j - 1])
  {
    hide IsSpace;
    if s != "" && IsSpace(s[|s| - 1]) {
      var init := s[..|s| - 1];
      j := TrimEndCuts(init);
      assert init[..j] == s[..j];
    } else {
      j := |s|;
    }
  }

  /** `t` is `s[i..j]`, everything around it is space, and it neither begins nor ends with one. */
  predicate IsTrimmed(s: string, t: string, i: nat, j: nat)
  {
    && i <= j <= |s| && t == s[i..j]
    && (forall k :: 0 <= k < i ==> IsSpace(s[k]))
    && (forall k :: j <= k < |s| ==> IsSpace(s[k]))
    && (t != "" ==> !IsSpace(t[0]) && !IsSpace(t[|t| - 1]))
  }

  lemma {:induction false} TrimCutsSpace(s: string)
    ensures exists i, j :: IsTrimmed(s, Trim(s), i, j)
  {
    hide IsSpace, TrimStart, TrimEnd;
    var i := TrimStartCuts(s);
    var t := TrimStart(s);
    var j := TrimEndCuts(t);
    assert t[..j] == s[i..i + j];
    assert forall k :: i + j <= k < |s| ==> s[k] == t[k - i];
    assert IsTrimmed(s, Trim(s), i, i + j);
  }

  /** The current label of every entry; a label that trims to nothing clears. */
  function LabelIndex(log: seq<Entry>): map<string, string>
  {
    if log == [] then map[]
    else
      var before := LabelIndex(log[..|log| - 1]);
      match log[|log| - 1].body
      case Label(target, name) =>
        if name.Some? && Trim(name.value) != "" then before[target := Trim(name.value)] else before - {target}
      case _ => before
  }

  lemma IndexSnoc(log: seq<Entry>)
    requires log != []
    ensures IdIndex(log) == IdIndex(log[..|log| - 1])[log[|log| - 1].id := |log| - 1]
  {
  }

  lemma IndexesSnoc(log: seq<Entry>, e: Entry)
    ensures IdIndex(log + [e]) == IdIndex(log)[e.id := |log|]
    ensures !e.body.Label? ==> LabelIndex(log + [e]) == LabelIndex(log)
    ensures e.body.Label? ==>
              LabelIndex(log + [e]) ==
              (if e.body.name.Some? && Trim(e.body.name.value) != "" then
                 LabelIndex(log)[e.body.target := Trim(e.body.name.value)]
               else LabelIndex(log) - {e.body.target})
  {
    hide Trim;
    assert (log + [e])[..|log|] == log;
  }

  lemma NoIndexes()
    ensures IdIndex([]) == map[] && LabelIndex([]) == map[]
  {
  }

  function LastId(log: seq<Entry>): Option<string>
  {
    if log == [] then None else Some(log[|log| - 1].id)
  }

  lemma {:induction false} IndexHolds(log: seq<Entry>, id: string)
    ensures id in IdIndex(log) ==> IdIndex(log)[id] < |log| && log[IdIndex(log)[id]].id == id
    ensures id in IdIndex(log) ==> forall j :: IdIndex(log)[id] < j < |log| ==> log[j].id != id
    ensures id !in IdIndex(log) ==> forall j :: 0 <= j < |log| ==> log[j].id != id
  {
    if log != [] {
      IndexHolds(log[..|log| - 1], id);
    }
  }

  predicate Labels(e: Entry, id: string)
  {
    e.body.Label? && e.body.target == id
  }

  /** Nothing after `i` labels `id`. */
  predicate LastLabel(log: seq<Entry>, id: string, i: nat)
  {
    i < |log| && Labels(log[i], id) && forall j :: i < j < |log| ==> !Labels(log[j], id)
  }

  /** What is left of a label's name; a missing name counts as an empty one. */
  function LabelText(e: Entry): string
    requires e.body.Label?
  {
    if e.body.name.Some? then Trim(e.body.name.value) else ""
  }

  lemma OlderLabel(log: seq<Entry>, id: string)
    requires log != [] && !Labels(log[|log| - 1], id)
    ensures forall i: nat :: LastLabel(log, id, i) <==> LastLabel(log[..|log| - 1], id, i)
  {
    hide Labels;
    var init := log[..|log| - 1];
    assert forall i :: 0 <= i < |init| ==> init[i] == log[i];
  }

  /**
   An entry has a label if and only if the last label entry for it leaves one, and then it is that
   entry's trimmed name.
   */
  lemma {:induction false} LabelHolds(log: seq<Entry>, id: string)
    ensures id in LabelIndex(log) <==> exists i: nat :: LastLabel(log, id, i) && LabelText(log[i]) != ""
    ensures id in LabelIndex(log) ==> forall i: nat :: LastLabel(log, id, i) ==> LabelIndex(log)[id] == LabelText(log[i])
  {
    hide Trim;
    if log != [] {
      var init, n := log[..|log| - 1], |log| - 1;
      LabelHolds(init, id);
      if Labels(log[n], id) {
        assert LastLabel(log, id, n);
      } else {
        OlderLabel(log, id);
      }
    }
  }

  predicate UniqueIds(log: seq<Entry>)
  {
    forall i, j :: 0 <= i < j < |log| ==> log[i].id != log[j].id
  }

  /** An entry's parent, when it is in the log at all, comes before the entry. */
  predicate ParentsBefore(log: seq<Entry>)
  {
    forall i, j :: 0 <= i < |log| && 0 <= j < |log| && log[i].parent == Some(log[j].id) ==> j < i
  }

  /** What appends and reopening guarantee. */
  predicate Ordered(log: seq<Entry>)
  {
    UniqueIds(log) && ParentsBefore(log)
  }

  /** Every parent is in the log. */
  predicate Closed(log: seq<Entry>)
  {
    forall i :: 0 <= i < |log| && log[i].parent.Some? ==> exists j :: 0 <= j < i && log[j].id == log[i].parent.value
  }

  lemma UniqueIndex(log: seq<Entry>, i: nat)
    requires UniqueIds(log) && i < |log|
    ensures log[i].id in IdIndex(log) && IdIndex(log)[log[i].id] == i
  {
    IndexHolds(log, log[i].id);
  }

  /** The position of the entry's parent. */
  function ParentOf(log: seq<Entry>, i: nat): (p: Option<nat>)
    requires Ordered(log) && i < |log|
    ensures p.Some? ==> p.value < i && log[i].parent == Some(log[p.value].id)
    ensures p.None? ==> forall j :: 0 <= j < |log| ==> log[i].parent != Some(log[j].id)
  {
    match log[i].parent
    case None => None
    case Some(id) =>
      IndexHolds(log, id);
      if id in IdIndex(log) then Some(IdIndex(log)[id]) else None
  }

  /** The entries from the root down to position `i`. */
  function PathAt(log: seq<Entry>, i: nat): (path: seq<Entry>)
    requires Ordered(log) && i < |log|
    ensures path != [] && path[|path| - 1] == log[i]
  {
    (match ParentOf(log, i) case Some(p) => PathAt(log, p) case None => []) + [log[i]]
  }

  function PathTo(log: seq<Entry>, id: Option<string>): seq<Entry>
    requires Ordered(log)
  {
    if id.Some? && id.value in IdIndex(log) then
      IndexHolds(log, id.value);
      PathAt(log, IdIndex(log)[id.value])
    else []
  }

  lemma PathUnfolds(log: seq<Entry>, i: nat)
    requires Ordered(log) && i < |log|
    ensures PathAt(log, i) ==
            (if ParentOf(log, i).Some? then PathAt(log, ParentOf(log, i).value) else []) + [log[i]]
  {
  }

  // ---------------------------------------------------------------------------------------------
  // The walk on any log
  // ---------------------------------------------------------------------------------------------

  /** One turn of the walk's loop: the position of the parent. */
  function Up(log: seq<Entry>, at: Option<nat>): (up: Option<nat>)
    ensures up.Some? ==> up.value < |log|
  {
    if at.None? || at.value >= |log| || log[at.value].parent.None? then None
    else Position(log, log[at.value].parent)
  }

  function Position(log: seq<Entry>, id: Option<string>): (at: Option<nat>)
    ensures at.Some? ==> at.value < |log| && id == Some(log[at.value].id)
    ensures at.Some? <==> id.Some? && id.value in IdIndex(log)
  {
    if id.None? then None
    else
      IndexHolds(log, id.value);
      if id.value in IdIndex(log) then Some(IdIndex(log)[id.value]) else None
  }

  /** The walk from `at` is over after at most so many turns. */
  predicate EndsWithin(log: seq<Entry>, at: Option<nat>, turns: nat)
    decreases turns
  {
    at.None? || (turns > 0 && EndsWithin(log, Up(log, at), turns - 1))
  }

  /** What the walk from `at` collects, the root first. */
  function Climb(log: seq<Entry>, at: Option<nat>, turns: nat): seq<Entry>
    requires at.Some? ==> at.value < |log|
    decreases turns
  {
    if at.None? || turns == 0 then [] else Climb(log, Up(log, at), turns - 1) + [log[at.value]]
  }

  lemma UpIsParent(log: seq<Entry>, i: nat)
    requires Ordered(log) && i < |log|
    ensures Up(log, Some(i)) == ParentOf(log, i)
  {
  }

  /** Where parents stand before their children the walk ends, and what it collects is the path. */
  lemma {:induction false} OrderedClimb(log: seq<Entry>, at: Option<nat>, turns: nat)
    requires Ordered(log) && (at.Some? ==> at.value < |log| && at.value < turns)
    ensures EndsWithin(log, at, turns)
    ensures Climb(log, at, turns) == if at.Some? then PathAt(log, at.value) else []
    decreases turns
  {
    if at.Some? {
      UpIsParent(log, at.value);
      PathUnfolds(log, at.value);
      hide Up, ParentOf, Ordered, PathAt;
      OrderedClimb(log, Up(log, at), turns - 1);
    }
  }

  /** What the walk from an id collects. It ends, if at all, within as many turns as there are entries. */
  function Walk(log: seq<Entry>, id: Option<string>): seq<Entry>
  {
    Climb(log, Position(log, id), |log|)
  }

  predicate WalkEnds(log: seq<Entry>, id: Option<string>)
  {
    EndsWithin(log, Position(log, id), |log|)
  }

  lemma OrderedWalk(log: seq<Entry>, id: Option<string>)
    requires Ordered(log)
    ensures WalkEnds(log, id) && Walk(log, id) == PathTo(log, id)
  {
    OrderedClimb(log, Position(log, id), |log|);
  }

  lemma {:induction false} SpareTurns(log: seq<Entry>, at: Option<nat>, m: nat, n: nat)
    requires m <= n && EndsWithin(log, at, m) && (at.Some? ==> at.value < |log|)
    ensures EndsWithin(log, at, n) && Climb(log, at, n) == Climb(log, at, m)
    decreases m
  {
    if at.Some? {
      SpareTurns(log, Up(log, at), m - 1, n - 1);
    }
  }

  /** The entry an id names. */
  function EntryOf(log: seq<Entry>, id: string): Entry
    requires id in IdIndex(log)
  {
    IndexHolds(log, id);
    log[IdIndex(log)[id]]
  }

  lemma WalkUnfolds(log: seq<Entry>, id: Option<string>)
    requires WalkEnds(log, id)
    ensures id.None? || id.value !in IdIndex(log) ==> Walk(log, id) == []
    ensures id.Some? && id.value in IdIndex(log) ==>
              var e := EntryOf(log, id.value);
              e.id == id.value && WalkEnds(log, e.parent) && Walk(log, id) == Walk(log, e.parent) + [e]
  {
    var at := Position(log, id);
    if at.Some? {
      IndexHolds(log, id.value);
      SpareTurns(log, Up(log, at), |log| - 1, |log|);
    }
  }

  /** On any log, what a finished walk collects goes from parent to parent and starts where none is found. */
  lemma {:induction false} ClimbFollowsParents(log: seq<Entry>, at: nat, turns: nat)
    requires at < |log| && EndsWithin(log, Some(at), turns)
    ensures var path := Climb(log, Some(at), turns);
            && path != [] && path[|path| - 1] == log[at]
            && (forall k :: 0 < k < |path| ==> path[k].parent == Some(path[k - 1].id))
            && (path[0].parent.None? || path[0].parent.value !in IdIndex(log))
    decreases turns
  {
    var up := Up(log, Some(at));
    if up.Some? {
      ClimbFollowsParents(log, up.value, turns - 1);
    }
  }

  function Reverse<T>(s: seq<T>): (r: seq<T>)
  {
    if s == [] then [] else Reverse(s[1..]) + [s[0]]
  }

  lemma NothingReversed<T>()
    ensures Reverse<T>([]) == []
  {
  }

  lemma {:induction false} ReverseSnoc<T>(s: seq<T>, x: T)
    ensures Reverse(s + [x]) == [x] + Reverse(s)
  {
    if s == [] {
      assert s + [x] == [x] && [x][1..] == [];
    } else {
      assert (s + [x])[1..] == s[1..] + [x];
      ReverseSnoc(s[1..], x);
    }
  }

  // ---------------------------------------------------------------------------------------------
  // The tree
  // ---------------------------------------------------------------------------------------------

  class Tree {
    var entries: seq<Entry>
    var byId: map<string, nat>
    var labels: map<string, string>
    var leaf: Option<string>

    /** The index and the cache say what a scan of the log would. */
    ghost predicate Valid()
      reads this
    {
      byId == IdIndex(entries) && labels == LabelIndex(entries) && (leaf.Some? ==> leaf.value in byId)
    }

    constructor (log: seq<Entry>)
      ensures Valid() && entries == log && leaf == LastId(log)
    {
      hide IdIndex, LabelIndex;
      entries, byId, labels, leaf := [], map[], map[], None;
      NoIndexes();
      new;
      for i := 0 to |log|
        invariant Valid() && entries == log[..i] && leaf == LastId(log[..i])
      {
        Push(log[i]);
      }
    }

    method Push(e: Entry)
      requires Valid()
      modifies this
      ensures Valid() && entries == old(entries) + [e] && leaf == Some(e.id)
    {
      hide IdIndex, LabelIndex, Trim;
      IndexesSnoc(entries, e);
      if e.body.Label? {
        var name := if e.body.name.Some? then Trim(e.body.name.value) else "";
        if name != "" {
          labels := labels[e.body.target := name];
        } else {
          labels := labels - {e.body.target};
        }
      }
      byId := byId[e.id := |entries|];
      leaf := Some(e.id);
      entries := entries + [e];
    }

    method Get(id: string) returns (e: Option<Entry>)
      requires Valid()
      ensures e.Some? <==> id in IdIndex(entries)
      ensures e.Some? ==> e.value in entries && e.value.id == id
      ensures e.Some? ==> IdIndex(entries)[id] < |entries| && e.value == entries[IdIndex(entries)[id]]
    {
      IndexHolds(entries, id);
      e := if id in byId then Some(entries[byId[id]]) else None;
    }

    method SetLeaf(id: Option<string>) returns (r: Result<()>)
      requires Valid()
      modifies this`leaf
      ensures Valid()
      ensures r.Ok? <==> id.None? || id.value in IdIndex(entries)
      ensures r.Ok? ==> leaf == id
      ensures !r.Ok? ==> r == EntryNotFound(id.value) && leaf == old(leaf)
    {
      if id.Some? && id.value !in byId {
        return EntryNotFound(id.value);
      }
      leaf := id;
      r := Ok(());
    }

    /** `path_to_root`, on every log on which the walk ends at all. */
    method PathToRoot(id: Option<string>) returns (path: seq<Entry>)
      requires Valid() && WalkEnds(entries, id)
      ensures path == Walk(entries, id)
      ensures Ordered(entries) ==> path == PathTo(entries, id)
    {
      hide IdIndex, LabelIndex, Ordered, PathTo, Reverse;
      path := [];
      NothingReversed<Entry>();
      var current: Option<nat> := if id.Some? && id.value in byId then Some(byId[id.value]) else None;
      CurrentIsPosition(id);
      ghost var turns: nat := |entries|;
      while current.Some?
        invariant current.Some? ==> current.value < |entries|
        invariant EndsWithin(entries, current, turns)
        invariant Climb(entries, Position(entries, id), |entries|) == Climb(entries, current, turns) + Reverse(path)
        decreases turns
      {
        var e := entries[current.value];
        ghost var up := Up(entries, current);
        ReverseSnoc(path, e);
        path := path + [e];
        current := if e.parent.Some? && e.parent.value in byId then Some(byId[e.parent.value]) else None;
        CurrentIsPosition(e.parent);
        assert current == up;
        turns := turns - 1;
      }
      path := ReverseOf(path);
      if Ordered(entries) {
        OrderedWalk(entries, id);
      }
    }

    lemma CurrentIsPosition(id: Option<string>)
      requires Valid()
      ensures Position(entries, id) == if id.Some? && id.value in byId then Some(byId[id.value]) else None
    {
    }

    static method ReverseOf(s: seq<Entry>) returns (r: seq<Entry>)
      ensures r == Reverse(s)
    {
      r := [];
      for i := 0 to |s|
        invariant r == Reverse(s[..i])
      {
        assert s[..i + 1] == s[..i] + [s[i]];
        ReverseSnoc(s[..i], s[i]);
        r := [s[i]] + r;
      }
      assert s[..|s|] == s;
    }
  }

  /** A log written by a session: unique ids, and every parent is there before its child. */
  predicate Sound(log: seq<Entry>)
  {
    Ordered(log) && Closed(log)
  }

  /** No entry names `id` as its parent: after a lossy reopening one may, its parent's line being gone. */
  predicate NoneAwaits(log: seq<Entry>, id: string)
  {
    forall j :: 0 <= j < |log| ==> log[j].parent != Some(id)
  }

  /**
   What an append with a fresh id under a known parent does. The log stays ordered if and only if no
   entry awaits the new id; then the new entry's path is its parent's and it, and no other path changes.
   */
  ghost predicate AppendedWell(log: seq<Entry>, e: Entry)
  {
    && (Ordered(log) ==> (Ordered(log + [e]) <==> NoneAwaits(log, e.id)))
    && (Ordered(log) && Ordered(log + [e]) ==>
          && PathTo(log + [e], Some(e.id)) == PathTo(log, e.parent) + [e]
          && forall id :: id != e.id ==> PathTo(log + [e], Some(id)) == PathTo(log, Some(id)))
    && (Sound(log) ==> Sound(log + [e]))
  }

  /** What a caller says about the branch it leaves. */
  datatype BranchInput = BranchInput(summary: string, details: Option<FileLists>, fromHook: bool)

  /** `Session`: typed appends under the current leaf. New ids are assumed fresh. */
  class Session {
    const tree: Tree

    constructor (tree: Tree)
      ensures this.tree == tree
    {
      this.tree := tree;
    }

    method AppendWith(id: string, body: Body)
      requires tree.Valid() && id !in IdIndex(tree.entries)
      modifies tree
      ensures tree.Valid() && tree.leaf == Some(id)
      ensures tree.entries == old(tree.entries) + [Entry(id, old(tree.leaf), body)]
      ensures AppendedWell(old(tree.entries), Entry(id, old(tree.leaf), body))
    {
      Appends(tree.entries, Entry(id, tree.leaf, body));
      tree.Push(Entry(id, tree.leaf, body));
    }

    method AppendLabel(id: string, target: string, name: Option<string>) returns (r: Result<string>)
      requires tree.Valid() && id !in IdIndex(tree.entries)
      modifies tree
      ensures tree.Valid()
      ensures r == if target in IdIndex(old(tree.entries)) then Ok(id) else EntryNotFound(target)
      ensures r.Ok? ==> tree.leaf == Some(id) &&
                        tree.entries == old(tree.entries) + [Entry(id, old(tree.leaf), Label(target, name))] &&
                        AppendedWell(old(tree.entries), Entry(id, old(tree.leaf), Label(target, name)))
      ensures !r.Ok? ==> tree.entries == old(tree.entries) && tree.leaf == old(tree.leaf)
    {
      var found := tree.Get(target);
      if found.None? {
        return EntryNotFound(target);
      }
      AppendWith(id, Label(target, name));
      r := Ok(id);
    }

    /** `move_to`: with a summary, the new leaf is a branch-summary child of the target. */
    method MoveTo(to: Option<string>, summary: Option<BranchInput>, id: string) returns (r: Result<()>)
      requires tree.Valid() && id !in IdIndex(tree.entries)
      modifies tree
      ensures tree.Valid()
      ensures r.Ok? <==> to.None? || to.value in IdIndex(old(tree.entries))
      ensures !r.Ok? ==> r == EntryNotFound(to.value) && tree.entries == old(tree.entries) && tree.leaf == old(tree.leaf)
      ensures r.Ok? && summary.None? ==> tree.entries == old(tree.entries) && tree.leaf == to
      ensures r.Ok? && summary.Some? ==>
                var e := Entry(id, to, BranchSummary(if to.Some? then to.value else "root", summary.value.summary,
                                                     summary.value.details, summary.value.fromHook));
                tree.entries == old(tree.entries) + [e] && tree.leaf == Some(id) && AppendedWell(old(tree.entries), e)
    {
      r := tree.SetLeaf(to);
      if r.Ok? && summary.Some? {
        var from := if to.Some? then to.value else "root";
        AppendWith(id, BranchSummary(from, summary.value.summary, summary.value.details, summary.value.fromHook));
      }
    }

    method Branch(from: Option<string>) returns (path: seq<Entry>)
      requires tree.Valid() && WalkEnds(tree.entries, if from.Some? then from else tree.leaf)
      ensures path == Walk(tree.entries, if from.Some? then from else tree.leaf)
    {
      path := tree.PathToRoot(if from.Some? then from else tree.leaf);
    }
  }

  // ---------------------------------------------------------------------------------------------
  // Paths
  // ---------------------------------------------------------------------------------------------

  /** `path` runs from an entry without a parent in the log down to `id`, parent by parent, in log order. */
  predicate IsChain(log: seq<Entry>, path: seq<Entry>, id: string)
  {
    && path != [] && path[|path| - 1].id == id
    && (forall k :: 0 <= k < |path| ==> path[k].id in IdIndex(log) && IdIndex(log)[path[k].id] < |log| &&
                                        log[IdIndex(log)[path[k].id]] == path[k])
    && (forall k :: 0 < k < |path| ==> path[k].parent == Some(path[k - 1].id) &&
                                       IdIndex(log)[path[k - 1].id] < IdIndex(log)[path[k].id])
    && (path[0].parent.None? || path[0].parent.value !in IdIndex(log))
  }

  lemma {:induction false} PathAtIsChain(log: seq<Entry>, i: nat)
    requires Ordered(log) && i < |log|
    ensures IsChain(log, PathAt(log, i), log[i].id)
  {
    hide LabelIndex;
    UniqueIndex(log, i);
    var p := ParentOf(log, i);
    if p.Some? {
      PathAtIsChain(log, p.value);
      UniqueIndex(log, p.value);
      hide IdIndex, ParentOf, Ordered;
    } else if log[i].parent.Some? {
      IndexHolds(log, log[i].parent.value);
    }
  }

  /** The walk to the root ends, and gives the parent chain of the leaf in increasing log order. */
  lemma {:induction false} PathIsParentChain(log: seq<Entry>, id: string)
    requires Ordered(log)
    ensures id in IdIndex(log) ==> IsChain(log, PathTo(log, Some(id)), id)
    ensures id !in IdIndex(log) ==> PathTo(log, Some(id)) == []
  {
    IndexHolds(log, id);
    if id in IdIndex(log) {
      PathAtIsChain(log, IdIndex(log)[id]);
    }
  }

  /** There is only one such chain, so the walk is determined by what the log says. */
  lemma {:induction false} ChainIsUnique(log: seq<Entry>, a: seq<Entry>, b: seq<Entry>, id: string)
    requires IsChain(log, a, id) && IsChain(log, b, id)
    ensures a == b
    decreases |a|
  {
    hide IdIndex;
    var m, n := |a| - 1, |b| - 1;
    assert a[m] == b[n];
    assert m > 0 <==> n > 0 by {
      assert m > 0 ==> a[m].parent == Some(a[m - 1].id) && a[m - 1].id in IdIndex(log);
      assert n > 0 ==> b[n].parent == Some(b[n - 1].id) && b[n - 1].id in IdIndex(log);
    }
    if m > 0 {
      assert a[m - 1].id == b[n - 1].id;
      assert IsChain(log, a[..m], a[m - 1].id) && IsChain(log, b[..n], b[n - 1].id);
      ChainIsUnique(log, a[..m], b[..n], a[m - 1].id);
      assert a == a[..m] + [a[m]] && b == b[..n] + [b[n]];
    }
  }

  /** Exactly when an append keeps parents before children: no entry may have been waiting for its id. */
  lemma {:induction false} AppendKeepsOrder(log: seq<Entry>, e: Entry)
    requires Ordered(log) && e.id !in IdIndex(log)
    requires e.parent.Some? ==> e.parent.value in IdIndex(log)
    ensures Ordered(log + [e]) <==> NoneAwaits(log, e.id)
  {
    IndexHolds(log, e.id);
    var longer := log + [e];
    assert longer[|log|] == e;
    if !NoneAwaits(log, e.id) {
      var j :| 0 <= j < |log| && log[j].parent == Some(e.id);
      assert longer[j].parent == Some(longer[|log|].id);
    }
  }

  lemma AppendKeepsSound(log: seq<Entry>, e: Entry)
    requires Sound(log) && e.id !in IdIndex(log)
    requires e.parent.Some? ==> e.parent.value in IdIndex(log)
    ensures Sound(log + [e])
  {
    IndexHolds(log, e.id);
    if e.parent.Some? {
      IndexHolds(log, e.parent.value);
    }
    var longer := log + [e];
    forall i, j | 0 <= i < |longer| && 0 <= j < |longer| && longer[i].parent == Some(longer[j].id) ensures j < i {
      if i < |log| {
        var k :| 0 <= k < i && log[k].id == log[i].parent.value;
        assert log[k].id == longer[j].id;
      }
    }
    forall i | 0 <= i < |longer| && longer[i].parent.Some?
      ensures exists j :: 0 <= j < i && longer[j].id == longer[i].parent.value
    {
      if i < |log| {
        var j :| 0 <= j < i && log[j].id == log[i].parent.value;
        assert longer[j].id == longer[i].parent.value;
      } else {
        assert longer[IdIndex(log)[e.parent.value]].id == e.parent.value;
      }
    }
  }

  /** Entries appended later never change the path of an entry. */
  lemma {:induction false} PathAtKept(log: seq<Entry>, e: Entry, i: nat)
    requires Ordered(log) && Ordered(log + [e]) && i < |log|
    requires forall j :: 0 <= j < |log| ==> log[j].parent != Some(e.id)
    ensures PathAt(log + [e], i) == PathAt(log, i)
  {
    var longer := log + [e];
    var p, q := ParentOf(log, i), ParentOf(longer, i);
    if p.Some? {
      UniqueIndex(longer, p.value);
      PathAtKept(log, e, p.value);
      assert longer[p.value].id == log[p.value].id;
    }
    PathUnfolds(log, i);
    PathUnfolds(longer, i);
  }

  /** An append that keeps the order extends its parent's path by one and changes no other path. */
  lemma {:induction false} AppendExtendsPath(log: seq<Entry>, e: Entry)
    requires Ordered(log) && Ordered(log + [e])
    ensures PathTo(log + [e], Some(e.id)) == PathTo(log, e.parent) + [e]
    ensures forall id :: id != e.id ==> PathTo(log + [e], Some(id)) == PathTo(log, Some(id))
  {
    hide PathAt, LabelIndex, IdIndex;
    var longer := log + [e];
    assert forall j :: 0 <= j < |log| ==> longer[j] == log[j];
    assert longer[|log|] == e;
    assert forall j :: 0 <= j < |log| ==> log[j].parent != Some(e.id) by {
      assert forall j :: 0 <= j < |log| && longer[j].parent == Some(longer[|log|].id) ==> |log| < j;
    }
    forall id | id != e.id ensures PathTo(longer, Some(id)) == PathTo(log, Some(id)) {
      OtherPathKept(log, e, id);
    }
    UniqueIndex(longer, |log|);
    PathUnfolds(longer, |log|);
    if e.parent.Some? {
      IndexHolds(longer, e.parent.value);
      OtherPathKept(log, e, e.parent.value);
    }
  }

  lemma OtherPathKept(log: seq<Entry>, e: Entry, id: string)
    requires Ordered(log) && Ordered(log + [e]) && id != e.id
    requires forall j :: 0 <= j < |log| ==> log[j].parent != Some(e.id)
    ensures PathTo(log + [e], Some(id)) == PathTo(log, Some(id))
  {
    hide PathAt, LabelIndex;
    IndexesSnoc(log, e);
    IndexHolds(log, id);
    if id in IdIndex(log) {
      PathAtKept(log, e, IdIndex(log)[id]);
    }
  }

  lemma Appends(log: seq<Entry>, e: Entry)
    requires e.id !in IdIndex(log) && (e.parent.Some? ==> e.parent.value in IdIndex(log))
    ensures AppendedWell(log, e)
  {
    hide Ordered, PathTo, Closed, IdIndex;
    if Ordered(log) {
      AppendKeepsOrder(log, e);
      if Ordered(log + [e]) {
        AppendExtendsPath(log, e);
      }
    }
    if Sound(log) {
      AppendKeepsSound(log, e);
    }
  }
}
