/** Compaction: what it summarizes, what it keeps, and what repeated compactions conserve. */
module Compaction {
  import opened Prelude
  import opened Conversation
  import opened SessionTree
  import opened Context
  import opened CutPoint

  // ---------------------------------------------------------------------------------------------
  // Messages for the summarizer
  // ---------------------------------------------------------------------------------------------

  /** The messages an entry contributes to a summary: empty branch summaries count here. */
  function ReadBy(e: Entry): (s: seq<Message>)
    ensures |s| <= 1
  {
    match e.body
    case Chat(message) => [message]
    case CustomMessage(kind, text, images) => [CustomNote(kind, text, images)]
    case BranchSummary(fromId, summary, _, _) => [BranchNote(summary, fromId)]
    case _ => []
  }

  function Read(entries: seq<Entry>): seq<Message>
  {
    if entries == [] then [] else Read(entries[..|entries| - 1]) + ReadBy(entries[|entries| - 1])
  }

  /** The summarizer is sent the message for the entry. */
  predicate Reads(e: Entry, m: Message)
  {
    || e.body == Chat(m)
    || (e.body.CustomMessage? && m == CustomNote(e.body.kind, e.body.text, e.body.images))
    || (e.body.BranchSummary? && m == BranchNote(e.body.summary, e.body.fromId))
  }

  lemma ReadsOne(e: Entry)
    ensures forall m :: Reads(e, m) <==> ReadBy(e) == [m]
    ensures ReadBy(e) != [] ==> ReadBy(e) == [ReadBy(e)[0]]
  {
  }

  /** What is sent: a message for every entry that has one, in the order of the entries, and nothing else. */
  lemma {:induction false} ReadHolds(entries: seq<Entry>) returns (at: seq<nat>)
    ensures ListedAt(entries, Read(entries), at, Reads)
  {
    hide ListedAt;
    if entries == [] {
      at := [];
      NothingListed(Reads);
    } else {
      var n := |entries| - 1;
      var before := Read(entries[..n]);
      at := ReadHolds(entries[..n]);
      ReadsOne(entries[n]);
      hide Reads, ReadBy;
      assert entries == entries[..n] + [entries[n]];
      if ReadBy(entries[n]) == [] {
        ListedSame(entries[..n], before, at, Reads, entries[n]);
        assert before + [] == before;
      } else {
        ListedMore(entries[..n], before, at, Reads, entries[n], ReadBy(entries[n])[0]);
        at := at + [n];
      }
    }
  }

  /** A compaction may cut exactly before what has a message, unless that is a tool's result. */
  lemma CutPointsSpeak(e: Entry)
    ensures IsValidCut(e) <==> exists m :: Reads(e, m) && !m.ToolResult?
  {
    if IsValidCut(e) {
      ReadsOne(e);
      assert Reads(e, ReadBy(e)[0]);
    }
  }

  /** A turn starts at such an entry unless it is a reply, or a note that a message entry holds. */
  lemma TurnStartsSpeak(e: Entry)
    ensures StartsTurn(e) <==>
              IsValidCut(e) && (e.body.Chat? ==> e.body.message.User? || e.body.message.BashExecution?)
  {
  }

  lemma {:induction false} ReadJoins(a: seq<Entry>, b: seq<Entry>)
    ensures Read(a + b) == Read(a) + Read(b)
  {
    hide ReadBy;
    if b == [] {
      assert a + b == a;
    } else {
      var n := |b| - 1;
      assert (a + b)[..|a + b| - 1] == a + b[..n];
      ReadJoins(a, b[..n]);
    }
  }

  lemma ReadOne(e: Entry)
    ensures Read([e]) == ReadBy(e)
  {
    assert [e][..0] == [];
  }

  lemma ReadSplits(entries: seq<Entry>, i: nat, j: nat, k: nat)
    requires i <= j <= k <= |entries|
    ensures Read(entries[i..k]) == Read(entries[i..j]) + Read(entries[j..k])
  {
    assert entries[i..k] == entries[i..j] + entries[j..k];
    ReadJoins(entries[i..j], entries[j..k]);
  }

  predicate NoEmptyBranch(entries: seq<Entry>)
  {
    forall i :: 0 <= i < |entries| && entries[i].body.BranchSummary? ==> entries[i].body.summary != ""
  }

  /** The context and the summarizer see the same messages if and only if no branch summary is empty. */
  lemma {:induction false} ProjectionsAgree(entries: seq<Entry>)
    ensures |Shown(entries)| <= |Read(entries)|
    ensures Shown(entries) == Read(entries) <==> NoEmptyBranch(entries)
    ensures |Shown(entries)| == |Read(entries)| ==> NoEmptyBranch(entries)
  {
    hide ShownBy, ReadBy, NoEmptyBranch;
    NoEmptyBranchSnoc(entries);
    if entries != [] {
      var n := |entries| - 1;
      ProjectionsAgree(entries[..n]);
      OneAgrees(entries[n]);
      JoinedAlike(Shown(entries[..n]), ShownBy(entries[n]), Read(entries[..n]), ReadBy(entries[n]));
    }
  }

  lemma NoEmptyBranchSnoc(entries: seq<Entry>)
    ensures entries == [] ==> NoEmptyBranch(entries)
    ensures entries != [] ==>
              var last := entries[|entries| - 1].body;
              NoEmptyBranch(entries) <==>
              NoEmptyBranch(entries[..|entries| - 1]) && (last.BranchSummary? ==> last.summary != "")
  {
  }

  lemma JoinedAlike(a: seq<Message>, x: seq<Message>, b: seq<Message>, y: seq<Message>)
    requires |a| <= |b| && |x| <= |y|
    ensures a + x == b + y <==> a == b && x == y
  {
    if a + x == b + y {
      assert a == (a + x)[..|a|] && b == (b + y)[..|b|];
      assert x == (a + x)[|a|..] && y == (b + y)[|b|..];
    }
  }

  lemma OneAgrees(e: Entry)
    ensures |ShownBy(e)| <= |ReadBy(e)|
    ensures ShownBy(e) == ReadBy(e) <==> (e.body.BranchSummary? ==> e.body.summary != "")
    ensures |ShownBy(e)| == |ReadBy(e)| <==> (e.body.BranchSummary? ==> e.body.summary != "")
    ensures TokenSum(ShownBy(e)) == TokenSum(ReadBy(e))
  {
  }

  /** Either way they weigh the same. */
  lemma {:induction false} ProjectionsWeighTheSame(entries: seq<Entry>)
    ensures TokenSum(Shown(entries)) == TokenSum(Read(entries))
  {
    hide ShownBy, ReadBy, TokenSum;
    if entries != [] {
      var n := |entries| - 1;
      ProjectionsWeighTheSame(entries[..n]);
      OneAgrees(entries[n]);
      TokenSumJoins(Shown(entries[..n]), ShownBy(entries[n]));
      TokenSumJoins(Read(entries[..n]), ReadBy(entries[n]));
    }
  }

  function TokenSum(messages: seq<Message>): nat
  {
    if messages == [] then 0 else Tokens(messages[0]) + TokenSum(messages[1..])
  }

  lemma {:induction false} TokenSumJoins(a: seq<Message>, b: seq<Message>)
    ensures TokenSum(a + b) == TokenSum(a) + TokenSum(b)
  {
    if a == [] {
      assert a + b == b;
    } else {
      assert (a + b)[1..] == a[1..] + b;
      TokenSumJoins(a[1..], b);
    }
  }

  // ---------------------------------------------------------------------------------------------
  // Estimates
  // ---------------------------------------------------------------------------------------------

  /** The last reply that neither failed nor was aborted. */
  function LastUsage(messages: seq<Message>): (i: Option<nat>)
    ensures i.Some? ==> i.value < |messages| && messages[i.value].Assistant?
  {
    if messages == [] then None
    else
      var last := messages[|messages| - 1];
      if last.Assistant? && !Failed(last) then Some(|messages| - 1) else LastUsage(messages[..|messages| - 1])
  }

  /** `estimate_context_tokens`: the last reported usage and an estimate of what came after it. */
  function ContextTokens(messages: seq<Message>): nat
  {
    match LastUsage(messages)
    case None => TokenSum(messages)
    case Some(i) => messages[i].usage + TokenSum(messages[i + 1..])
  }

  /** The message is a reply that came to an end of its own. */
  predicate Answered(m: Message)
  {
    m.Assistant? && m.stop != Error && m.stop != Aborted
  }

  /** The last of them stands at `i`. */
  predicate LastAnswered(messages: seq<Message>, i: nat)
  {
    i < |messages| && Answered(messages[i]) && forall j :: i < j < |messages| ==> !Answered(messages[j])
  }

  /**
   The estimate of a context: what the provider counted with the last reply that came to an end of its
   own and the weights of the messages after it; without one, the weights of all.
   */
  lemma {:induction false} ContextTokensCount(messages: seq<Message>)
    ensures forall i: nat :: LastAnswered(messages, i) ==>
              ContextTokens(messages) == messages[i].usage + Sum(messages[i + 1..], Tokens)
    ensures (forall i: nat :: !LastAnswered(messages, i)) ==> ContextTokens(messages) == Sum(messages, Tokens)
  {
    hide Tokens, TokenSum, LastUsage, LastAnswered;
    LastUsageIsLast(messages);
    match LastUsage(messages)
    case None => TokenSumIsSum(messages);
    case Some(i) => TokenSumIsSum(messages[i + 1..]);
  }

  lemma {:induction false} LastUsageIsLast(messages: seq<Message>)
    ensures forall i: nat :: LastUsage(messages) == Some(i) <==> LastAnswered(messages, i)
  {
    if messages != [] {
      LastUsageIsLast(messages[..|messages| - 1]);
      LastAnsweredSnoc(messages);
      hide LastAnswered;
    }
  }

  lemma LastAnsweredSnoc(messages: seq<Message>)
    requires messages != []
    ensures var init, n := messages[..|messages| - 1], |messages| - 1;
            if Answered(messages[n]) then forall i: nat :: LastAnswered(messages, i) <==> i == n
            else forall i: nat :: LastAnswered(messages, i) <==> i < n && LastAnswered(init, i)
  {
    hide Answered;
    var init := messages[..|messages| - 1];
    assert forall j :: 0 <= j < |init| ==> init[j] == messages[j];
  }

  lemma {:induction false} TokenSumIsSum(messages: seq<Message>)
    ensures TokenSum(messages) == Sum(messages, Tokens)
  {
    hide Tokens;
    if messages != [] {
      TokenSumIsSum(messages[1..]);
    }
  }

  datatype Settings = Settings(enabled: bool, reserve: nat, keepRecent: nat, ratio: Option<real>)

  /**
   `should_compact`, with a ratio between 0 and 1 as a second, softer trigger; `product` is the
   floating-point product of that ratio and the window.
   */
  function ShouldCompact(tokens: nat, window: nat, settings: Settings, product: real): (fire: bool)
    ensures fire <==> settings.enabled &&
                      (window < tokens + settings.reserve ||
                       (settings.ratio.Some? && 0.0 < settings.ratio.value < 1.0 && product < tokens as real))
  {
    if !settings.enabled then false
    else
      var hard := window - settings.reserve;
      var soft := product.Floor;
      var trigger :=
        if settings.ratio.Some? && 0.0 < settings.ratio.value < 1.0 && soft < hard then soft else hard;
      tokens > trigger
  }

  // ---------------------------------------------------------------------------------------------
  // Files
  // ---------------------------------------------------------------------------------------------

  datatype Files = Files(read: set<string>, written: set<string>, edited: set<string>)

  /** The non-empty paths of the calls to the tool `name`. */
  function Paths(m: Message, name: string): set<string>
  {
    if m.Assistant? then
      set k | 0 <= k < |m.calls| && m.calls[k].name == name && m.calls[k].path != "" :: m.calls[k].path
    else {}
  }

  function PathsOfAll(messages: seq<Message>, name: string): set<string>
  {
    if messages == [] then {} else Paths(messages[0], name) + PathsOfAll(messages[1..], name)
  }

  lemma {:induction false} PathsJoin(a: seq<Message>, b: seq<Message>, name: string)
    ensures PathsOfAll(a + b, name) == PathsOfAll(a, name) + PathsOfAll(b, name)
  {
    if a == [] {
      assert a + b == b;
    } else {
      assert (a + b)[1..] == a[1..] + b;
      PathsJoin(a[1..], b, name);
    }
  }

  /** A file is among them if and only if some call to the tool in some of the messages names it. */
  lemma {:induction false} PathsOfAllHolds(messages: seq<Message>, name: string, path: string)
    ensures path in PathsOfAll(messages, name) <==>
              path != "" && exists i, k :: 0 <= i < |messages| && messages[i].Assistant? && 0 <= k < |messages[i].calls| &&
                                           messages[i].calls[k].name == name && messages[i].calls[k].path == path
  {
    if messages != [] {
      var m, rest := messages[0], messages[1..];
      PathsOfAllHolds(rest, name, path);
      hide PathsOfAll;
      assert forall i :: 0 <= i < |rest| ==> rest[i] == messages[i + 1];
    }
  }

  class FileOperations {
    var read: set<string>
    var written: set<string>
    var edited: set<string>

    constructor ()
      ensures read == {} && written == {} && edited == {}
    {
      read, written, edited := {}, {}, {};
    }

    /** `extract_file_ops_from_message`. */
    method Extract(m: Message)
      modifies this
      ensures read == old(read) + Paths(m, "Read")
      ensures written == old(written) + Paths(m, "Write")
      ensures edited == old(edited) + Paths(m, "Edit")
    {
      hide Paths, PathsUpTo;
      PathsOfCalls(m, "Read");
      PathsOfCalls(m, "Write");
      PathsOfCalls(m, "Edit");
      if !m.Assistant? {
        return;
      }
      for i := 0 to |m.calls|
        invariant read == old(read) + PathsUpTo(m.calls, i, "Read")
        invariant written == old(written) + PathsUpTo(m.calls, i, "Write")
        invariant edited == old(edited) + PathsUpTo(m.calls, i, "Edit")
      {
        NextPath(m.calls, i, "Read");
        NextPath(m.calls, i, "Write");
        NextPath(m.calls, i, "Edit");
        Record(m.calls[i]);
      }
    }

    method Record(call: ToolCall)
      modifies this
      ensures read == old(read) + (if call.name == "Read" && call.path != "" then {call.path} else {})
      ensures written == old(written) + (if call.name == "Write" && call.path != "" then {call.path} else {})
      ensures edited == old(edited) + (if call.name == "Edit" && call.path != "" then {call.path} else {})
    {
      if call.path != "" {
        if call.name == "Read" {
          read := read + {call.path};
        } else if call.name == "Write" {
          written := written + {call.path};
        } else if call.name == "Edit" {
          edited := edited + {call.path};
        }
      }
    }

    method ExtractAll(messages: seq<Message>)
      modifies this
      ensures read == old(read) + PathsOfAll(messages, "Read")
      ensures written == old(written) + PathsOfAll(messages, "Write")
      ensures edited == old(edited) + PathsOfAll(messages, "Edit")
    {
      hide Paths, PathsOfAll;
      assert messages[..0] == [];
      NoPaths();
      for i := 0 to |messages|
        invariant read == old(read) + PathsOfAll(messages[..i], "Read")
        invariant written == old(written) + PathsOfAll(messages[..i], "Write")
        invariant edited == old(edited) + PathsOfAll(messages[..i], "Edit")
      {
        PathsSnoc(messages, i, "Read");
        PathsSnoc(messages, i, "Write");
        PathsSnoc(messages, i, "Edit");
        Extract(messages[i]);
      }
      assert messages[..|messages|] == messages;
    }
  }

  function PathsUpTo(calls: seq<ToolCall>, i: nat, name: string): set<string>
    requires i <= |calls|
  {
    set k | 0 <= k < i && calls[k].name == name && calls[k].path != "" :: calls[k].path
  }

  lemma PathsOfCalls(m: Message, name: string)
    ensures !m.Assistant? ==> Paths(m, name) == {}
    ensures m.Assistant? ==> PathsUpTo(m.calls, 0, name) == {} && PathsUpTo(m.calls, |m.calls|, name) == Paths(m, name)
  {
  }

  lemma NextPath(calls: seq<ToolCall>, i: nat, name: string)
    requires i < |calls|
    ensures PathsUpTo(calls, i + 1, name) ==
            PathsUpTo(calls, i, name) +
            (if calls[i].name == name && calls[i].path != "" then {calls[i].path} else {})
  {
  }

  lemma NoPaths()
    ensures forall name :: PathsOfAll([], name) == {}
  {
  }

  lemma PathsSnoc(messages: seq<Message>, i: nat, name: string)
    requires i < |messages|
    ensures PathsOfAll(messages[..i + 1], name) == PathsOfAll(messages[..i], name) + Paths(messages[i], name)
  {
    assert messages[..i + 1] == messages[..i] + [messages[i]];
    PathsJoin(messages[..i], [messages[i]], name);
  }

  /** `compute_file_lists`: what was read and never modified, and what was modified. */
  function ComputeFileLists(files: Files): FileLists
  {
    var modified := files.edited + files.written;
    FileLists(files.read - modified, modified)
  }

  /** What a compaction that no hook made recorded. */
  function Recorded(c: Entry): FileLists
    requires c.body.Compaction?
  {
    if c.body.details.Some? && !c.body.fromHook then c.body.details.value else FileLists({}, {})
  }

  /** The files of a chain: the previous record and the tools used in the new messages. */
  function FilesFrom(previous: FileLists, messages: seq<Message>): Files
  {
    Files(previous.read + PathsOfAll(messages, "Read"), PathsOfAll(messages, "Write"),
          previous.modified + PathsOfAll(messages, "Edit"))
  }

  // ---------------------------------------------------------------------------------------------
  // Preparing a compaction
  // ---------------------------------------------------------------------------------------------

  datatype Preparation = Preparation(
    firstKept: string,
    history: seq<Message>,
    prefix: seq<Message>,
    isSplit: bool,
    tokensBefore: nat,
    previous: Option<string>,
    files: Files)

  /** Where the entries not yet summarized start. */
  function Boundary(path: seq<Entry>): (b: nat)
    ensures b <= |path|
  {
    match LastCompaction(path)
    case None => 0
    case Some(k) => if Find(path, path[k].body.firstKept) < |path| then Find(path, path[k].body.firstKept) else k + 1
  }

  function Previous(path: seq<Entry>): FileLists
  {
    match LastCompaction(path)
    case None => FileLists({}, {})
    case Some(k) => Recorded(path[k])
  }

  /** The preparation a cut gives. */
  function PreparedAt(path: seq<Entry>, cut: Cut): Option<Preparation>
    requires Boundary(path) <= cut.first <= |path|
    requires cut.isSplit ==> cut.turnStart.Some? && Boundary(path) <= cut.turnStart.value <= cut.first
  {
    if cut.first == |path| || path[cut.first].id == "" then None
    else
      var historyEnd := if cut.isSplit then cut.turnStart.value else cut.first;
      Some(Preparation(
             path[cut.first].id,
             Read(path[Boundary(path)..historyEnd]),
             Read(path[historyEnd..cut.first]),
             cut.isSplit,
             ContextTokens(Visible(path)),
             if LastCompaction(path).Some? then Some(path[LastCompaction(path).value].body.summary) else None,
             FilesFrom(Previous(path), Read(path[Boundary(path)..cut.first]))))
  }

  /** The specification of `prepare_compaction`: nothing to do right after a compaction. */
  ghost predicate IsPrepared(path: seq<Entry>, keep: nat, p: Option<Preparation>, cut: Cut, why: Reason)
  {
    if path != [] && path[|path| - 1].body.Compaction? then p.None?
    else
      && IsCut(path, Boundary(path), |path|, keep, cut, why)
      && (CutInRange(path, Boundary(path), |path|, keep, cut, why);
          p == PreparedAt(path, cut))
  }

  predicate IsCompaction(e: Entry)
  {
    e.body.Compaction?
  }

  /**
   What a preparation holds: the entry it keeps first, which has an id; the messages up to the turn it
   splits, and those of that turn up to the cut; the estimate of the context as it is; the summary of the
   last compaction; and the files of that compaction's record, unless a hook made it, and of the messages.
   */
  lemma {:induction false} PreparedHolds(path: seq<Entry>, keep: nat, p: Preparation, cut: Cut, why: Reason)
    requires IsPrepared(path, keep, Some(p), cut, why)
    ensures Boundary(path) <= cut.first < |path| && p.firstKept == path[cut.first].id && p.firstKept != ""
    ensures p.isSplit == cut.isSplit && (cut.isSplit ==> Boundary(path) <= cut.turnStart.value <= cut.first)
    ensures var b, end := Boundary(path), if p.isSplit then cut.turnStart.value else cut.first;
            p.history == Read(path[b..end]) && p.prefix == Read(path[end..cut.first])
    ensures p.tokensBefore == ContextTokens(Visible(path))
    ensures forall k: nat :: LastAt(path, IsCompaction, k) ==> p.previous == Some(path[k].body.summary)
    ensures p.previous.None? <==> forall k :: 0 <= k < |path| ==> !IsCompaction(path[k])
    ensures forall x :: x in p.files.read <==> x in Previous(path).read || x in PathsOfAll(p.history + p.prefix, "Read")
    ensures forall x :: x in p.files.written <==> x in PathsOfAll(p.history + p.prefix, "Write")
    ensures forall x :: x in p.files.edited <==>
                        x in Previous(path).modified || x in PathsOfAll(p.history + p.prefix, "Edit")
  {
    hide IsCut, Read, Visible, ContextTokens, PathsOfAll, Boundary, Previous, Find, LastCompaction;
    CutInRange(path, Boundary(path), |path|, keep, cut, why);
    var end := if cut.isSplit then cut.turnStart.value else cut.first;
    ReadSplits(path, Boundary(path), end, cut.first);
  }

  /** What the last compaction's record says, unless a hook made it. */
  lemma {:induction false} PreviousHolds(path: seq<Entry>, x: string)
    ensures x in Previous(path).read <==>
              exists k: nat :: LastAt(path, IsCompaction, k) && !path[k].body.fromHook && path[k].body.details.Some? &&
                               x in path[k].body.details.value.read
    ensures x in Previous(path).modified <==>
              exists k: nat :: LastAt(path, IsCompaction, k) && !path[k].body.fromHook && path[k].body.details.Some? &&
                               x in path[k].body.details.value.modified
  {
    hide LastCompaction;
    var last := LastCompaction(path);
    if last.Some? {
      assert LastAt(path, IsCompaction, last.value);
    }
  }

  /** Nothing is prepared exactly right after a compaction, and where no entry that has an id is kept. */
  lemma NothingPrepared(path: seq<Entry>, keep: nat, p: Option<Preparation>, cut: Cut, why: Reason)
    requires IsPrepared(path, keep, p, cut, why)
    ensures p.None? <==>
              (path != [] && path[|path| - 1].body.Compaction?) || cut.first >= |path| || path[cut.first].id == ""
  {
    hide IsCut, Read, Visible, ContextTokens, PathsOfAll, Boundary, Previous;
    if path == [] || !path[|path| - 1].body.Compaction? {
      CutInRange(path, Boundary(path), |path|, keep, cut, why);
    }
  }

  /** `prepare_compaction`. */
  method PrepareCompaction(path: seq<Entry>, keep: nat)
    returns (p: Option<Preparation>)
    ensures exists cut, why :: IsPrepared(path, keep, p, cut, why)
  {
    hide IsCut, Read, Visible, ContextTokens, PathsOfAll, FilesFrom, Previous, Recorded;
    p := None;
    if path != [] && path[|path| - 1].body.Compaction? {
      assert IsPrepared(path, keep, p, Cut(0, None, false), Nothing);
      return;
    }
    var last := LastCompaction(path);
    var previous, start := None, 0;
    if last.Some? {
      previous := Some(path[last.value].body.summary);
      var found := Find(path, path[last.value].body.firstKept);
      start := if found < |path| then found else last.value + 1;
    }
    var context := BuildSessionContext(path);
    var at := FindCutPoint(path, start, |path|, keep);
    ghost var why :| IsCut(path, start, |path|, keep, at, why);
    CutInRange(path, start, |path|, keep, at, why);
    if at.first >= |path| || path[at.first].id == "" {
      assert IsPrepared(path, keep, p, at, why);
      return;
    }
    var historyEnd := if at.isSplit then at.turnStart.value else at.first;
    var history := ReadAll(path[start..historyEnd]);
    var prefix := if at.isSplit then Read(path[historyEnd..at.first]) else [];
    var files := ExtractFileOperations(history, path, last);
    files.ExtractAll(prefix);
    NothingRead(path, at.first);
    ReadSplits(path, start, historyEnd, at.first);
    FilesOfBoth(Previous(path), history, prefix);
    p := Some(Preparation(path[at.first].id, history, prefix, at.isSplit, ContextTokens(context.messages), previous,
                          Files(files.read, files.written, files.edited)));
    assert p.value.prefix == PreparedAt(path, at).value.prefix;
    assert p.value.files == PreparedAt(path, at).value.files;
    assert IsPrepared(path, keep, p, at, why);
  }

  /** `extract_file_operations`: the previous record, unless a hook made it, and the tools used since. */
  method ExtractFileOperations(messages: seq<Message>, path: seq<Entry>, last: Option<nat>)
    returns (files: FileOperations)
    requires last == LastCompaction(path)
    ensures fresh(files)
    ensures files.read == Previous(path).read + PathsOfAll(messages, "Read")
    ensures files.written == PathsOfAll(messages, "Write")
    ensures files.edited == Previous(path).modified + PathsOfAll(messages, "Edit")
  {
    hide PathsOfAll;
    files := new FileOperations();
    if last.Some? && path[last.value].body.details.Some? && !path[last.value].body.fromHook {
      files.read := path[last.value].body.details.value.read;
      files.edited := path[last.value].body.details.value.modified;
    }
    files.ExtractAll(messages);
  }

  method ReadAll(entries: seq<Entry>) returns (messages: seq<Message>)
    ensures messages == Read(entries)
  {
    messages := [];
    for i := 0 to |entries|
      invariant messages == Read(entries[..i])
    {
      assert entries[..i + 1][..i] == entries[..i];
      messages := messages + ReadBy(entries[i]);
    }
    assert entries[..|entries|] == entries;
  }

  lemma NothingRead(entries: seq<Entry>, i: nat)
    requires i <= |entries|
    ensures Read(entries[i..i]) == []
  {
  }

  lemma FilesOfBoth(previous: FileLists, history: seq<Message>, prefix: seq<Message>)
    ensures FilesFrom(previous, history + prefix) ==
            Files(previous.read + PathsOfAll(history, "Read") + PathsOfAll(prefix, "Read"),
                  PathsOfAll(history, "Write") + PathsOfAll(prefix, "Write"),
                  previous.modified + PathsOfAll(history, "Edit") + PathsOfAll(prefix, "Edit"))
  {
    PathsJoin(history, prefix, "Read");
    PathsJoin(history, prefix, "Write");
    PathsJoin(history, prefix, "Edit");
  }
}
