/** What compactions do to the context, and what a whole run of appends and compactions conserves. */
module CompactionRuns {
  import opened Prelude
  import opened Conversation
  import opened SessionTree
  import opened Context
  import opened CutPoint
  import opened Compaction

  // ---------------------------------------------------------------------------------------------
  // One compaction
  // ---------------------------------------------------------------------------------------------

  /** The summary a context starts with. */
  function Lead(path: seq<Entry>): seq<Message>
  {
    match LastCompaction(path)
    case None => []
    case Some(k) => [Note(path[k])]
  }

  /** The entries the context shows ahead of the boundary: some only if a compaction kept an entry after itself. */
  function Gap(path: seq<Entry>): seq<Entry>
  {
    match LastCompaction(path)
    case None => []
    case Some(k) => if k < Boundary(path) then path[k + 1..Boundary(path)] else []
  }

  lemma {:induction false} FindInPrefix(entries: seq<Entry>, id: string, k: nat)
    requires k <= |entries|
    ensures Find(entries[..k], id) == if Find(entries, id) < k then Find(entries, id) else k
  {
    var i, j := Find(entries[..k], id), Find(entries, id);
    if i < k {
      assert entries[..k][i] == entries[i];
      assert i == j;
    } else {
      assert forall m :: 0 <= m < k ==> entries[..k][m] == entries[m];
    }
  }

  lemma ShowsNothing(e: Entry)
    requires e.body.Compaction?
    ensures Shown([e]) == [] && Read([e]) == []
  {
  }

  lemma VisibleParts(path: seq<Entry>)
    ensures LastCompaction(path).None? ==>
              Visible(path) == Shown(path) && Lead(path) == [] && Gap(path) == [] && Boundary(path) == 0
    ensures LastCompaction(path).Some? ==>
              var k, b := LastCompaction(path).value, Boundary(path);
              && Lead(path) == [Note(path[k])]
              && Visible(path) == Lead(path) + Shown(path[(if b < k then b else k)..k]) + Shown(path[k + 1..])
              && Gap(path) == if k < b then path[k + 1..b] else []
  {
    hide Shown, Find, LastCompaction;
    var last := LastCompaction(path);
    if last.Some? {
      FindInPrefix(path, path[last.value].body.firstKept, last.value);
    }
  }

  /** The context is the summary, the gap, and everything from the boundary on. */
  lemma {:induction false} VisibleFromBoundary(path: seq<Entry>)
    ensures Visible(path) == Lead(path) + Shown(Gap(path)) + Shown(path[Boundary(path)..])
  {
    hide Shown, Find, LastCompaction, Visible, Boundary, Gap, Lead;
    var b, last := Boundary(path), LastCompaction(path);
    ShownNone();
    VisibleParts(path);
    if last.None? {
      assert path[b..] == path;
    } else {
      var k := last.value;
      if b <= k {
        ShownAcross(path, b, k);
      } else {
        ShownAfter(path, b, k);
      }
    }
  }

  /** From before a compaction the entries show the same with it and without it. */
  lemma ShownAcross(path: seq<Entry>, b: nat, k: nat)
    requires b <= k < |path| && path[k].body.Compaction?
    ensures Shown(path[b..]) == Shown(path[b..k]) + Shown(path[k + 1..])
    ensures k == b ==> Shown(path[b..k]) == []
  {
    hide Shown;
    ShownNone();
    assert path[b..] == path[b..k] + ([path[k]] + path[k + 1..]);
    ShowsNothing(path[k]);
    ShownJoins([path[k]], path[k + 1..]);
    ShownJoins(path[b..k], [path[k]] + path[k + 1..]);
  }

  lemma ShownAfter(path: seq<Entry>, b: nat, k: nat)
    requires k < b <= |path|
    ensures Shown(path[k + 1..]) == Shown(path[k + 1..b]) + Shown(path[b..])
    ensures Shown(path[k..k]) == []
  {
    hide Shown;
    ShownNone();
    assert path[k..k] == [];
    assert path[k + 1..] == path[k + 1..b] + path[b..];
    ShownJoins(path[k + 1..b], path[b..]);
  }

  lemma ShownNone()
    ensures Shown([]) == []
  {
  }

  /** The entry a compaction appends. */
  predicate Records(e: Entry, p: Preparation)
  {
    e.body.Compaction? && e.body.firstKept == p.firstKept && e.body.tokensBefore == p.tokensBefore
  }

  lemma {:induction false} FindUnique(entries: seq<Entry>, i: nat)
    requires UniqueIds(entries) && i < |entries|
    ensures Find(entries, entries[i].id) == i
  {
  }

  /** What the context shows once the compaction has been appended. */
  lemma VisibleAfter(path: seq<Entry>, i: nat, e: Entry)
    requires UniqueIds(path) && i < |path| && e.body.Compaction? && e.body.firstKept == path[i].id
    ensures Visible(path + [e]) == [Note(e)] + Shown(path[i..])
  {
    var longer, n := path + [e], |path|;
    assert longer[..n] == path && longer[n] == e && longer[n + 1..] == [];
    FindUnique(path, i);
    assert path[i..n] == longer[i..n] == path[i..];
  }

  /**
   A compaction replaces a prefix of the context and nothing else: before, the context is the previous
   summary, the gap, the entries up to the cut, and a suffix; afterwards it is the new summary and that
   same suffix. What is sent to the summarizer is what disappears if and only if no empty branch summary
   stands in the cut part.
   */
  lemma {:induction false} ReplacesPrefix(path: seq<Entry>, keep: nat, p: Preparation, cut: Cut, why: Reason, e: Entry)
    requires UniqueIds(path) && IsPrepared(path, keep, Some(p), cut, why) && Records(e, p)
    ensures Boundary(path) <= cut.first < |path|
    ensures var dropped, suffix := path[Boundary(path)..cut.first], Shown(path[cut.first..]);
            && Visible(path) == Lead(path) + Shown(Gap(path)) + Shown(dropped) + suffix
            && Visible(path + [e]) == [Note(e)] + suffix
            && p.history + p.prefix == Read(dropped)
            && (p.history + p.prefix == Shown(dropped) <==> NoEmptyBranch(dropped))
  {
    hide Shown, Read, Visible, IsPrepared, Lead, Gap, Boundary, UniqueIds;
    var b := Boundary(path);
    PreparedFacts(path, keep, p, cut, why);
    VisibleFromBoundary(path);
    VisibleAfter(path, cut.first, e);
    assert path[b..] == path[b..cut.first] + path[cut.first..];
    ShownJoins(path[b..cut.first], path[cut.first..]);
    ProjectionsAgree(path[b..cut.first]);
  }

  lemma PreparedFacts(path: seq<Entry>, keep: nat, p: Preparation, cut: Cut, why: Reason)
    requires IsPrepared(path, keep, Some(p), cut, why)
    ensures Boundary(path) <= cut.first < |path| && p.firstKept == path[cut.first].id
    ensures p.history + p.prefix == Read(path[Boundary(path)..cut.first])
  {
    hide Read, Visible, IsCut, ContextTokens, Boundary, FilesFrom;
    CutInRange(path, Boundary(path), |path|, keep, cut, why);
    PreparedCovers(path, cut);
  }

  /** History and turn prefix are the cut part, in order, without overlap. */
  lemma PreparedCovers(path: seq<Entry>, cut: Cut)
    requires Boundary(path) <= cut.first <= |path|
    requires cut.isSplit ==> cut.turnStart.Some? && Boundary(path) <= cut.turnStart.value <= cut.first
    requires PreparedAt(path, cut).Some?
    ensures var p := PreparedAt(path, cut).value;
            p.history + p.prefix == Read(path[Boundary(path)..cut.first])
    ensures !cut.isSplit ==> PreparedAt(path, cut).value.prefix == []
  {
    hide Boundary;
    var end := if cut.isSplit then cut.turnStart.value else cut.first;
    ReadSplits(path, Boundary(path), end, cut.first);
  }

  // ---------------------------------------------------------------------------------------------
  // Tokens
  // ---------------------------------------------------------------------------------------------

  /** `compact`'s estimate of what is left. */
  function TokensAfter(p: Preparation, summary: string): nat
  {
    var left := p.tokensBefore - TokenSum(p.history + p.prefix) + (JsLen(summary) + 3) / 4;
    if left < 0 then 0 else left
  }

  /**
   The estimate carries over how far the provider's count stood from a plain sum, and, without a gap,
   counts the previous summary although it is gone: it exceeds the new context's sum by that much.
   */
  lemma {:induction false} TokensAfterCountsOldSummary(path: seq<Entry>, keep: nat, p: Preparation, cut: Cut,
                                                       why: Reason, e: Entry)
    requires UniqueIds(path) && IsPrepared(path, keep, Some(p), cut, why) && Records(e, p) && Gap(path) == []
    ensures var left := p.tokensBefore - TokenSum(Visible(path)) + TokenSum(Visible(path + [e])) + TokenSum(Lead(path));
            TokensAfter(p, e.body.summary) == if left < 0 then 0 else left
    ensures LastUsage(Visible(path)).None? ==>
              TokensAfter(p, e.body.summary) == TokenSum(Visible(path + [e])) + TokenSum(Lead(path))
  {
    hide Shown, Read, Visible, IsCut, LastUsage, PathsOfAll, Lead, Gap, FilesFrom,
         Find, LastCompaction, JsLen, NoEmptyBranch;
    var b := Boundary(path);
    ReplacesPrefix(path, keep, p, cut, why, e);
    var dropped, suffix := path[b..cut.first], Shown(path[cut.first..]);
    ShownNone();
    TokenSumJoins(Lead(path) + Shown(dropped), suffix);
    TokenSumJoins(Lead(path), Shown(dropped));
    TokenSumJoins([Note(e)], suffix);
    ProjectionsWeighTheSame(dropped);
    assert Lead(path) + [] == Lead(path);
    CutInRange(path, b, |path|, keep, cut, why);
    assert p.tokensBefore == ContextTokens(Visible(path));
    assert TokenSum([Note(e)]) == (JsLen(e.body.summary) + 3) / 4;
  }

  // ---------------------------------------------------------------------------------------------
  // What the summarizer is asked
  // ---------------------------------------------------------------------------------------------

  /** One request: the messages to summarize and the summary to update. */
  datatype Request = Request(messages: seq<Message>, previous: Option<string>)

  /** The requests `compact` makes; a split turn without history has a fixed text instead of the first. */
  function Requests(p: Preparation): seq<Request>
  {
    if p.isSplit && p.prefix != [] then
      (if p.history == [] then [] else [Request(p.history, p.previous)]) + [Request(p.prefix, None)]
    else [Request(p.history, p.previous)]
  }

  function Asked(requests: seq<Request>): seq<Message>
  {
    if requests == [] then [] else requests[0].messages + Asked(requests[1..])
  }

  /**
   Every message that disappears is in exactly one request, in order. The previous summary is in one
   too, unless a turn is split that starts the unsummarized part: then nothing carries it on.
   */
  lemma {:induction false} PreviousSummaryCarried(path: seq<Entry>, cut: Cut)
    requires Boundary(path) <= cut.first <= |path|
    requires cut.isSplit ==> cut.turnStart.Some? && Boundary(path) <= cut.turnStart.value <= cut.first
    requires PreparedAt(path, cut).Some?
    ensures var p := PreparedAt(path, cut).value;
            && Asked(Requests(p)) == Read(path[Boundary(path)..cut.first])
            && (p.previous.Some? ==>
                  ((exists i :: 0 <= i < |Requests(p)| && Requests(p)[i].previous == p.previous) <==>
                   !(cut.isSplit && p.history == [] && p.prefix != [])))
  {
    hide Read, Boundary, Requests;
    PreparedCovers(path, cut);
    RequestsCover(PreparedAt(path, cut).value);
    RequestsCarry(PreparedAt(path, cut).value);
  }

  /**
   When the last compaction kept a turn from its start and the next one cuts that same turn, no request
   carries the previous summary on: everything summarized before is lost to the new one.
   */
  lemma {:induction false} SameTurnDropsSummary(path: seq<Entry>, cut: Cut)
    requires LastCompaction(path).Some? && Boundary(path) < cut.first < |path| && path[cut.first].id != ""
    requires StartsTurn(path[Boundary(path)])
    requires forall i :: Boundary(path) < i <= cut.first ==> !StartsTurn(path[i])
    requires Turn(path, Boundary(path), cut)
    ensures cut.turnStart == Some(Boundary(path)) && PreparedAt(path, cut).Some?
    ensures PreparedAt(path, cut).value.previous.Some?
    ensures forall i :: 0 <= i < |Requests(PreparedAt(path, cut).value)| ==>
                          Requests(PreparedAt(path, cut).value)[i].previous.None?
  {
    hide Read, Boundary, ContextTokens, Visible, FilesFrom, Find;
    var b := Boundary(path);
    assert !IsUser(path[cut.first]);
    assert TurnStart(path, cut.first, b) == Some(b);
    NothingRead(path, b);
    assert ReadBy(path[b]) != [];
    hide StartsTurn, IsUser;
    assert path[b..cut.first] == [path[b]] + path[b + 1..cut.first];
    ReadJoins([path[b]], path[b + 1..cut.first]);
    ReadOne(path[b]);
  }

  /** Such a path: a turn, its summary, a second turn kept whole, and a first reply in that turn. */
  lemma SummaryDroppedExample(question: Entry, kept: Entry, note: Entry, reply: Entry)
    requires IsUser(question) && IsUser(kept) && reply.body.Chat? && reply.body.message.Assistant?
    requires kept.id != question.id && reply.id != ""
    requires note.body.Compaction? && note.body.firstKept == kept.id
    ensures var path := [question, kept, note, reply];
            var cut := Cut(3, Some(1), true);
            && IsCut(path, Boundary(path), 4, Tokens(reply.body.message), cut, Reached(3, 3))
            && PreparedAt(path, cut).Some?
            && forall i :: 0 <= i < |Requests(PreparedAt(path, cut).value)| ==>
                             Requests(PreparedAt(path, cut).value)[i].previous.None?
  {
    var path := [question, kept, note, reply];
    assert path[..3] == [question, kept, note];
    assert LastCompaction(path[..3]) == Some(2);
    assert LastCompaction(path) == Some(2);
    assert path[1..] == [kept, note, reply];
    assert Find(path, kept.id) == 1;
    assert Kept(path, 4, 4) == 0;
    assert Crosses(path, 3, 4, Tokens(reply.body.message));
    assert TurnStart(path, 3, 1) == Some(1);
    hide Kept, TurnStart, Find, LastCompaction, Requests, PreparedAt;
    SameTurnDropsSummary(path, Cut(3, Some(1), true));
  }

  lemma RequestsCover(p: Preparation)
    requires !p.isSplit ==> p.prefix == []
    ensures Asked(Requests(p)) == p.history + p.prefix
  {
    var requests := Requests(p);
    if p.isSplit && p.prefix != [] && p.history != [] {
      assert requests == [Request(p.history, p.previous), Request(p.prefix, None)];
      assert requests[1..] == [Request(p.prefix, None)] && requests[1..][1..] == [];
      assert Asked(requests[1..]) == p.prefix;
    } else {
      assert |requests| == 1 && requests[1..] == [];
    }
  }

  lemma RequestsCarry(p: Preparation)
    ensures p.previous.Some? ==>
              ((exists i :: 0 <= i < |Requests(p)| && Requests(p)[i].previous == p.previous) <==>
               !(p.isSplit && p.history == [] && p.prefix != []))
  {
    var requests := Requests(p);
    if !(p.isSplit && p.history == [] && p.prefix != []) {
      assert requests[0] == Request(p.history, p.previous);
    }
  }

  // ---------------------------------------------------------------------------------------------
  // The gap
  // ---------------------------------------------------------------------------------------------

  /** There is a gap exactly when the last compaction names a kept entry more than one place after itself. */
  lemma GapWhenKeptLater(path: seq<Entry>, k: nat)
    requires LastCompaction(path) == Some(k)
    ensures Gap(path) != [] <==> k + 1 < Find(path, path[k].body.firstKept) < |path|
  {
    hide Find, LastCompaction;
  }

  lemma {:induction false} ShownFrom(entries: seq<Entry>, m: Message)
    requires forall i :: 0 <= i < |entries| ==> m !in ShownBy(entries[i])
    ensures m !in Shown(entries)
  {
    if entries != [] {
      ShownFrom(entries[..|entries| - 1], m);
    }
  }

  lemma {:induction false} ReadFrom(entries: seq<Entry>, m: Message)
    requires forall i :: 0 <= i < |entries| ==> m !in ReadBy(entries[i])
    ensures m !in Read(entries)
  {
    if entries != [] {
      ReadFrom(entries[..|entries| - 1], m);
    }
  }

  /** No entry from position `b` on contributes the message, to a context or to a summary. */
  predicate OnlyBefore(path: seq<Entry>, b: nat, m: Message)
  {
    forall i :: b <= i < |path| ==> m !in ShownBy(path[i]) && m !in ReadBy(path[i])
  }

  /**
   What the gap shows is lost by the next compaction: the model has been shown it, no request asks for
   it to be summarized, and the context afterwards does not show it. Nothing else is lost, so what is
   visible is the last summary, what is summarized and what is kept if and only if the gap shows nothing.
   */
  lemma {:induction false} GapIsLost(path: seq<Entry>, keep: nat, p: Preparation, cut: Cut, why: Reason, e: Entry)
    requires UniqueIds(path) && IsPrepared(path, keep, Some(p), cut, why) && Records(e, p)
    ensures Boundary(path) <= cut.first < |path|
    ensures forall m :: m in Shown(Gap(path)) && OnlyBefore(path, Boundary(path), m) && m != Note(e) ==>
              m in Visible(path) && m !in Asked(Requests(p)) && m !in Visible(path + [e])
    ensures Visible(path) == Lead(path) + Shown(path[Boundary(path)..cut.first]) + Shown(path[cut.first..])
            <==> Shown(Gap(path)) == []
  {
    hide Shown, Read, Visible, IsPrepared, Lead, Gap, Boundary, UniqueIds, Requests, ShownBy, ReadBy;
    ReplacesPrefix(path, keep, p, cut, why, e);
    PreparedAsks(path, keep, p, cut, why);
    var b := Boundary(path);
    var lead, gap, dropped, suffix := Lead(path), Shown(Gap(path)), path[b..cut.first], path[cut.first..];
    assert |Visible(path)| == |lead| + |gap| + |Shown(dropped)| + |Shown(suffix)|;
    if gap == [] {
      assert lead + gap == lead;
    }
    forall m | m in gap && OnlyBefore(path, b, m) && m != Note(e)
      ensures m in Visible(path) && m !in Asked(Requests(p)) && m !in Visible(path + [e])
    {
      assert forall i :: 0 <= i < |dropped| ==> dropped[i] == path[b + i];
      assert forall i :: 0 <= i < |suffix| ==> suffix[i] == path[cut.first + i];
      ReadFrom(dropped, m);
      ShownFrom(suffix, m);
    }
  }

  lemma PreparedAsks(path: seq<Entry>, keep: nat, p: Preparation, cut: Cut, why: Reason)
    requires IsPrepared(path, keep, Some(p), cut, why)
    ensures Boundary(path) <= cut.first < |path| && Asked(Requests(p)) == Read(path[Boundary(path)..cut.first])
  {
    hide Read, Visible, IsCut, ContextTokens, Boundary, FilesFrom, Requests;
    CutInRange(path, Boundary(path), |path|, keep, cut, why);
    PreviousSummaryCarried(path, cut);
  }

  /** Such a path: the compaction names an entry two places after itself; the one between is still shown. */
  lemma GapExample(note: Entry, between: Entry, kept: Entry)
    requires note.body.Compaction? && note.body.firstKept == kept.id
    requires note.id != kept.id && between.id != kept.id && !kept.body.Compaction?
    requires between.body.Chat?
    ensures Shown(Gap([note, between, kept])) == [between.body.message] && Boundary([note, between, kept]) == 2
  {
    var path := [note, between, kept];
    assert path[..2] == [note, between] && path[..1] == [note] && path[..2][..1] == [note];
    assert LastCompaction(path[..1]) == Some(0);
    assert LastCompaction(path[..2]) == Some(0);
    assert LastCompaction(path) == Some(0);
    assert path[1..] == [between, kept] && path[1..][1..] == [kept];
    assert Find(path[1..][1..], kept.id) == 0;
    assert Find(path, kept.id) == 2;
    assert Gap(path) == path[1..2] == [between];
    assert [between][..0] == [];
    assert Shown([between]) == ShownBy(between);
  }

  // ---------------------------------------------------------------------------------------------
  // Runs
  // ---------------------------------------------------------------------------------------------

  datatype Range = Range(from: nat, to: nat)

  /**
   A path in the making: what was appended to it, the messages of every compaction so far, the ranges
   they came from, and those summarized since a hook last compacted.
   */
  datatype Run = Run(path: seq<Entry>, added: seq<Message>, summarized: seq<Message>, sinceHook: seq<Message>,
                     ranges: seq<Range>)

  const EMPTY := Run([], [], [], [], [])

  /** `hook` holds the details of a compaction an extension made; `cut` and `why` are where it was cut. */
  datatype Step =
    | Add(entry: Entry)
    | Compact(id: string, keep: nat, summary: string, hook: Option<Option<FileLists>>, cut: Cut, why: Reason)

  predicate Fresh(path: seq<Entry>, id: string)
  {
    forall i :: 0 <= i < |path| ==> path[i].id != id
  }

  predicate InRange(path: seq<Entry>, cut: Cut)
  {
    && Boundary(path) <= cut.first <= |path|
    && (cut.isSplit ==> cut.turnStart.Some? && Boundary(path) <= cut.turnStart.value <= cut.first)
  }

  /** Anything but a compaction is appended as it comes; a compaction is prepared first. */
  ghost predicate Legal(path: seq<Entry>, step: Step)
  {
    match step
    case Add(e) => !e.body.Compaction? && Fresh(path, e.id)
    case Compact(id, keep, _, _, cut, why) =>
      && Fresh(path, id) && (path == [] || !path[|path| - 1].body.Compaction?)
      && IsCut(path, Boundary(path), |path|, keep, cut, why)
      && InRange(path, cut) && PreparedAt(path, cut).Some?
  }

  function CompactionOf(path: seq<Entry>, step: Step, p: Preparation): Entry
    requires step.Compact?
  {
    Entry(step.id, LastId(path),
          Compaction(step.summary, p.firstKept, p.tokensBefore,
                     if step.hook.Some? then step.hook.value else Some(ComputeFileLists(p.files)), step.hook.Some?))
  }

  ghost function Next(run: Run, step: Step): Run
    requires Legal(run.path, step)
  {
    match step
    case Add(e) => run.(path := run.path + [e], added := run.added + ReadBy(e))
    case Compact(_, _, _, hook, cut, _) =>
      var p := PreparedAt(run.path, cut).value;
      Run(run.path + [CompactionOf(run.path, step, p)],
          run.added,
          run.summarized + p.history + p.prefix,
          if hook.Some? then [] else run.sinceHook + p.history + p.prefix,
          run.ranges + [Range(Boundary(run.path), cut.first)])
  }

  ghost predicate IsRun(steps: seq<Step>)
    decreases |steps|, 0
  {
    steps == [] || (IsRun(steps[..|steps| - 1]) && Legal(Played(steps[..|steps| - 1]).path, steps[|steps| - 1]))
  }

  ghost function Played(steps: seq<Step>): Run
    requires IsRun(steps)
    decreases |steps|, 1
  {
    if steps == [] then EMPTY else Next(Played(steps[..|steps| - 1]), steps[|steps| - 1])
  }

  /** One range starts where the one before it ended. */
  predicate Consecutive(ranges: seq<Range>, end: nat)
  {
    if ranges == [] then end == 0
    else
      var last := ranges[|ranges| - 1];
      last.from <= last.to == end && Consecutive(ranges[..|ranges| - 1], last.from)
  }

  /** The last compaction kept an entry that stands before it. */
  predicate KeepsEarlier(path: seq<Entry>)
  {
    match LastCompaction(path)
    case None => true
    case Some(k) => Find(path, path[k].body.firstKept) < k
  }

  predicate Recorders(run: Run)
  {
    match LastCompaction(run.path)
    case None => run.sinceHook == []
    case Some(k) =>
      if run.path[k].body.fromHook then run.sinceHook == []
      else run.path[k].body.details == Some(ComputeFileLists(FilesFrom(FileLists({}, {}), run.sinceHook)))
  }

  predicate Inv(run: Run)
  {
    && UniqueIds(run.path)
    && KeepsEarlier(run.path)
    && run.summarized == Read(run.path[..Boundary(run.path)])
    && run.added == Read(run.path)
    && Consecutive(run.ranges, Boundary(run.path))
    && Recorders(run)
  }

  lemma {:induction false} FindAppended(path: seq<Entry>, e: Entry, id: string)
    ensures Find(path, id) < |path| ==> Find(path + [e], id) == Find(path, id)
  {
    assert (path + [e])[..|path|] == path;
    FindInPrefix(path + [e], id, |path|);
  }

  lemma LastCompactionAppended(path: seq<Entry>, e: Entry)
    ensures LastCompaction(path + [e]) == if e.body.Compaction? then Some(|path|) else LastCompaction(path)
  {
    assert (path + [e])[..|path|] == path;
  }

  lemma {:induction false} UniqueAppended(path: seq<Entry>, e: Entry)
    requires UniqueIds(path) && Fresh(path, e.id)
    ensures UniqueIds(path + [e])
  {
  }

  lemma {:induction false} AddKept(run: Run, e: Entry)
    requires Inv(run) && Legal(run.path, Add(e))
    ensures Inv(Next(run, Add(e)))
  {
    hide Read, Find, LastCompaction, PathsOfAll;
    var path, next := run.path, Next(run, Add(e)).path;
    UniqueAppended(path, e);
    LastCompactionAppended(path, e);
    var last := LastCompaction(path);
    if last.Some? {
      FindAppended(path, e, path[last.value].body.firstKept);
    }
    var b := Boundary(path);
    assert next[..b] == path[..b];
    ReadJoins(path, [e]);
    ReadOne(e);
  }

  /** Where the next part starts once a compaction is appended. */
  lemma BoundaryMoves(path: seq<Entry>, i: nat, e: Entry)
    requires UniqueIds(path) && i < |path| && e.body.Compaction? && e.body.firstKept == path[i].id
    ensures Boundary(path + [e]) == i && KeepsEarlier(path + [e])
  {
    LastCompactionAppended(path, e);
    FindUnique(path, i);
    FindAppended(path, e, path[i].id);
  }

  /** A record only holds the difference, and still the records of a chain add up. */
  lemma {:induction false} RecordsTelescope(before: seq<Message>, more: seq<Message>)
    ensures ComputeFileLists(FilesFrom(ComputeFileLists(FilesFrom(FileLists({}, {}), before)), more)) ==
            ComputeFileLists(FilesFrom(FileLists({}, {}), before + more))
  {
    hide PathsOfAll;
    PathsJoin(before, more, "Read");
    PathsJoin(before, more, "Write");
    PathsJoin(before, more, "Edit");
    DifferencesAddUp(PathsOfAll(before, "Read"), PathsOfAll(before, "Write"), PathsOfAll(before, "Edit"),
                     PathsOfAll(more, "Read"), PathsOfAll(more, "Write"), PathsOfAll(more, "Edit"));
  }

  lemma DifferencesAddUp(r: set<string>, w: set<string>, e: set<string>, r': set<string>, w': set<string>, e': set<string>)
    ensures ComputeFileLists(Files((r - (e + w)) + r', w', (e + w) + e')) ==
            ComputeFileLists(Files(r + r', w + w', e + e'))
    ensures {} + r == r && {} + e == e && {} + (r + r') == r + r' && {} + (e + e') == e + e'
  {
  }

  lemma {:induction false} CompactKept(run: Run, step: Step)
    requires Inv(run) && step.Compact? && Legal(run.path, step)
    ensures Inv(Next(run, step))
  {
    hide Read, Find, LastCompaction, PathsOfAll, IsCut, ContextTokens, Visible, ComputeFileLists, FilesFrom, Recorders,
         Boundary, KeepsEarlier;
    var path, cut := run.path, step.cut;
    var p := PreparedAt(path, cut).value;
    var e := CompactionOf(path, step, p);
    var next := Next(run, step);
    SummarizedGrows(path, cut);
    CompactRecords(run, step);
    hide PreparedAt;
    UniqueAppended(path, e);
    BoundaryMoves(path, cut.first, e);
    assert next.path[..cut.first] == path[..cut.first];
    ReadJoins(path, [e]);
    ReadOne(e);
    assert next.ranges[..|run.ranges|] == run.ranges;
  }

  lemma SummarizedGrows(path: seq<Entry>, cut: Cut)
    requires InRange(path, cut) && PreparedAt(path, cut).Some?
    ensures cut.first < |path| && PreparedAt(path, cut).value.firstKept == path[cut.first].id
    ensures var p := PreparedAt(path, cut).value;
            Read(path[..Boundary(path)]) + p.history + p.prefix == Read(path[..cut.first])
  {
    hide Read, Boundary, ContextTokens, Visible, FilesFrom;
    var b := Boundary(path);
    PreparedCovers(path, cut);
    ReadSplits(path, 0, b, cut.first);
    assert path[0..b] == path[..b] && path[0..cut.first] == path[..cut.first];
  }

  lemma {:induction false} CompactRecords(run: Run, step: Step)
    requires Recorders(run) && step.Compact? && Legal(run.path, step)
    ensures Recorders(Next(run, step))
  {
    hide Read, Find, PathsOfAll, IsCut, ContextTokens, Visible, FilesFrom, ComputeFileLists;
    var path, p := run.path, PreparedAt(run.path, step.cut).value;
    LastCompactionAppended(path, CompactionOf(path, step, p));
    if step.hook.None? {
      var more := p.history + p.prefix;
      PreparedCovers(path, step.cut);
      assert run.sinceHook + p.history + p.prefix == run.sinceHook + more;
      RecordsTelescope(run.sinceHook, more);
      if Previous(path) == FileLists({}, {}) && run.sinceHook == [] {
        assert [] + more == more;
      }
    }
  }

  lemma {:induction false} RunsKeepInv(steps: seq<Step>)
    requires IsRun(steps)
    ensures Inv(Played(steps))
  {
    hide Legal, Inv, Next;
    if steps == [] {
      StartsSound();
    } else {
      var n := |steps| - 1;
      RunsKeepInv(steps[..n]);
      if steps[n].Add? {
        AddKept(Played(steps[..n]), steps[n].entry);
      } else {
        CompactKept(Played(steps[..n]), steps[n]);
      }
    }
  }

  lemma StartsSound()
    ensures Inv(EMPTY)
  {
  }

  /**
   Repeated compaction conserves the conversation: however appends and compactions alternate, the ranges
   summarized are consecutive, the summarized messages followed by those not yet summarized are exactly
   the messages appended, and the context is the last summary followed by what is not yet summarized.
   */
  lemma {:induction false} ConversationConserved(steps: seq<Step>)
    requires IsRun(steps)
    ensures var run := Played(steps);
            var b := Boundary(run.path);
            && run.summarized + Read(run.path[b..]) == run.added
            && Consecutive(run.ranges, b)
            && Visible(run.path) == Lead(run.path) + Shown(run.path[b..])
  {
    hide Read, Shown, Find, LastCompaction, IsRun, Played;
    RunsKeepInv(steps);
    var run := Played(steps);
    var b := Boundary(run.path);
    ReadSplits(run.path, 0, b, |run.path|);
    assert run.path[0..b] == run.path[..b] && run.path[b..|run.path|] == run.path[b..]
        && run.path[0..|run.path|] == run.path;
    VisibleFromBoundary(run.path);
    assert Gap(run.path) == [];
    ShownNone();
    assert Lead(run.path) + [] == Lead(run.path);
  }

  /**
   The summary the context starts with is that of the last compaction step, with the size of the context it
   replaced; before any compaction there is none.
   */
  lemma {:induction false} LeadIsLastSummary(steps: seq<Step>, k: nat)
    requires IsRun(steps) && k < |steps| && steps[k].Compact?
    requires forall j :: k < j < |steps| ==> steps[j].Add?
    ensures IsRun(steps[..k])
    ensures Lead(Played(steps).path) ==
            [CompactionNote(steps[k].summary, ContextTokens(Visible(Played(steps[..k]).path)))]
    decreases |steps|
  {
    hide Legal, ContextTokens, Visible, Played, IsRun, Lead;
    var n := |steps| - 1;
    LastStep(steps);
    if k < n {
      LeadIsLastSummary(steps[..n], k);
      assert steps[..n][..k] == steps[..k];
      AddKeepsLead(Played(steps[..n]), steps[n].entry);
    } else {
      CompactSetsLead(Played(steps[..n]), steps[n]);
    }
  }

  lemma LastStep(steps: seq<Step>)
    requires IsRun(steps) && steps != []
    ensures var n := |steps| - 1;
            && IsRun(steps[..n]) && Legal(Played(steps[..n]).path, steps[n])
            && Played(steps) == Next(Played(steps[..n]), steps[n])
  {
  }

  lemma AddKeepsLead(run: Run, e: Entry)
    requires Legal(run.path, Add(e))
    ensures Lead(Next(run, Add(e)).path) == Lead(run.path)
  {
    hide LastCompaction;
    LastCompactionAppended(run.path, e);
  }

  lemma CompactSetsLead(run: Run, step: Step)
    requires step.Compact? && Legal(run.path, step)
    ensures Lead(Next(run, step).path) == [CompactionNote(step.summary, ContextTokens(Visible(run.path)))]
  {
    hide LastCompaction, ContextTokens, Visible, Read, IsCut, FilesFrom, Boundary, ComputeFileLists;
    var p := PreparedAt(run.path, step.cut).value;
    LastCompactionAppended(run.path, CompactionOf(run.path, step, p));
  }

  predicate NoHooks(steps: seq<Step>)
  {
    forall i :: 0 <= i < |steps| && steps[i].Compact? ==> steps[i].hook.None?
  }

  lemma {:induction false} SinceHookIsAll(steps: seq<Step>)
    requires IsRun(steps) && NoHooks(steps)
    ensures Played(steps).sinceHook == Played(steps).summarized
  {
    hide Legal, PreparedAt;
    if steps != [] {
      SinceHookIsAll(steps[..|steps| - 1]);
    }
  }

  /**
   The last compaction's record, unless a hook made it, lists as modified exactly what was written or
   edited in the messages summarized since a hook last compacted, and as read exactly what was read
   there and never modified. Without hooks those are all the messages summarized so far.
   */
  lemma {:induction false} FileListsTelescope(steps: seq<Step>, k: nat)
    requires IsRun(steps) && LastCompaction(Played(steps).path) == Some(k)
    requires !Played(steps).path[k].body.fromHook
    ensures var run := Played(steps);
            var modified := PathsOfAll(run.sinceHook, "Write") + PathsOfAll(run.sinceHook, "Edit");
            && run.path[k].body.details == Some(FileLists(PathsOfAll(run.sinceHook, "Read") - modified, modified))
            && (NoHooks(steps) ==> run.sinceHook == run.summarized)
  {
    hide Legal, IsRun, Played, PathsOfAll, Read;
    RunsKeepInv(steps);
    if NoHooks(steps) {
      SinceHookIsAll(steps);
    }
    var run := Played(steps);
    assert Recorders(run);
    assert {} + PathsOfAll(run.sinceHook, "Edit") + PathsOfAll(run.sinceHook, "Write") ==
           PathsOfAll(run.sinceHook, "Write") + PathsOfAll(run.sinceHook, "Edit");
    assert {} + PathsOfAll(run.sinceHook, "Read") == PathsOfAll(run.sinceHook, "Read");
  }
}
