/** What the model is shown: the context built from a root-to-leaf path of entries. */
module Context {
  import opened Prelude
  import opened Conversation
  import opened SessionTree

  datatype SessionContext = SessionContext(messages: seq<Message>, thinking: string, model: Option<ModelRef>)

  /** The messages an entry contributes to the context: at most one. */
  function ShownBy(e: Entry): (s: seq<Message>)
    ensures |s| <= 1
  {
    match e.body
    case Chat(message) => [message]
    case CustomMessage(kind, text, images) => [CustomNote(kind, text, images)]
    case BranchSummary(fromId, summary, _, _) => if summary == "" then [] else [BranchNote(summary, fromId)]
    case _ => []
  }

  function Shown(entries: seq<Entry>): seq<Message>
  {
    if entries == [] then [] else Shown(entries[..|entries| - 1]) + ShownBy(entries[|entries| - 1])
  }

  /** The entry shows the model the message. */
  predicate Shows(e: Entry, m: Message)
  {
    || e.body == Chat(m)
    || (e.body.CustomMessage? && m == CustomNote(e.body.kind, e.body.text, e.body.images))
    || (e.body.BranchSummary? && e.body.summary != "" && m == BranchNote(e.body.summary, e.body.fromId))
  }

  /**
   `at` are the positions of the entries that stand in the relation to some message, in order, and
   `messages` holds the message of each.
   */
  ghost predicate ListedAt(entries: seq<Entry>, messages: seq<Message>, at: seq<nat>, p: (Entry, Message) -> bool)
  {
    && |at| == |messages|
    && (forall i, j :: 0 <= i < j < |at| ==> at[i] < at[j])
    && (forall i :: 0 <= i < |at| ==> at[i] < |entries| && p(entries[at[i]], messages[i]))
    && (forall k: nat, m :: k < |entries| && p(entries[k], m) ==> k in at)
  }

  lemma NothingListed(p: (Entry, Message) -> bool)
    ensures ListedAt([], [], [], p)
  {
  }

  lemma ListedSame(entries: seq<Entry>, messages: seq<Message>, at: seq<nat>, p: (Entry, Message) -> bool, e: Entry)
    requires ListedAt(entries, messages, at, p) && forall m :: !p(e, m)
    ensures ListedAt(entries + [e], messages, at, p)
  {
  }

  lemma ListedMore(entries: seq<Entry>, messages: seq<Message>, at: seq<nat>, p: (Entry, Message) -> bool,
                   e: Entry, m: Message)
    requires ListedAt(entries, messages, at, p) && p(e, m)
    ensures ListedAt(entries + [e], messages + [m], at + [|entries|], p)
  {
    var longer := at + [|entries|];
    assert longer[|at|] == |entries|;
    forall k: nat, x | k < |entries + [e]| && p((entries + [e])[k], x) ensures k in longer {
      if k < |entries| {
        assert k in at;
      }
    }
  }

  /** What is shown: a message for every entry that shows one, in the order of the entries, and nothing else. */
  lemma {:induction false} ShownHolds(entries: seq<Entry>) returns (at: seq<nat>)
    ensures ListedAt(entries, Shown(entries), at, Shows)
  {
    hide ListedAt;
    if entries == [] {
      at := [];
      NothingListed(Shows);
    } else {
      var n := |entries| - 1;
      var before := Shown(entries[..n]);
      at := ShownHolds(entries[..n]);
      ShowsOne(entries[n]);
      hide Shows, ShownBy;
      assert entries == entries[..n] + [entries[n]];
      if ShownBy(entries[n]) == [] {
        ListedSame(entries[..n], before, at, Shows, entries[n]);
        assert before + [] == before;
      } else {
        ListedMore(entries[..n], before, at, Shows, entries[n], ShownBy(entries[n])[0]);
        at := at + [n];
      }
    }
  }

  lemma ShowsOne(e: Entry)
    ensures forall m :: Shows(e, m) <==> ShownBy(e) == [m]
    ensures ShownBy(e) != [] ==> ShownBy(e) == [ShownBy(e)[0]]
  {
  }

  lemma {:induction false} ShownJoins(a: seq<Entry>, b: seq<Entry>)
    ensures Shown(a + b) == Shown(a) + Shown(b)
  {
    if b == [] {
      assert a + b == a;
    } else {
      var n := |b| - 1;
      assert (a + b)[..|a + b| - 1] == a + b[..n];
      ShownJoins(a, b[..n]);
    }
  }

  lemma NothingShown()
    ensures Shown([]) == []
  {
  }

  lemma ShownSnoc(entries: seq<Entry>, from: nat, i: nat)
    requires from <= i < |entries|
    ensures Shown(entries[from..i + 1]) == Shown(entries[from..i]) + ShownBy(entries[i])
    ensures from == i ==> Shown(entries[from..i + 1]) == ShownBy(entries[i])
  {
    assert entries[from..i + 1][..i - from] == entries[from..i];
  }

  /** The thinking level in force: the last change counts, `off` when there is none. */
  function Thinking(entries: seq<Entry>): string
  {
    if entries == [] then "off"
    else
      var last := entries[|entries| - 1].body;
      if last.ThinkingLevelChange? then last.thinking else Thinking(entries[..|entries| - 1])
  }

  /** The model an entry selects: by a change, or by the reply it holds. */
  function Selects(body: Body): Option<ModelRef>
  {
    match body
    case ModelChange(to) => Some(to)
    case Chat(Assistant(_, _, model, _, _, _)) => Some(model)
    case _ => None
  }

  function Selected(entries: seq<Entry>): Option<ModelRef>
  {
    if entries == [] then None
    else
      var last := Selects(entries[|entries| - 1].body);
      if last.Some? then last else Selected(entries[..|entries| - 1])
  }

  /** The last of the entries on which `p` holds is at `k`. */
  predicate LastAt(entries: seq<Entry>, p: Entry -> bool, k: nat)
  {
    k < |entries| && p(entries[k]) && forall j :: k < j < |entries| ==> !p(entries[j])
  }

  lemma LastAtSnoc(entries: seq<Entry>, p: Entry -> bool)
    requires entries != []
    ensures var init, n := entries[..|entries| - 1], |entries| - 1;
            if p(entries[n]) then forall k: nat :: LastAt(entries, p, k) <==> k == n
            else forall k: nat :: LastAt(entries, p, k) <==> k < n && LastAt(init, p, k)
  {
    var init := entries[..|entries| - 1];
    assert forall j :: 0 <= j < |init| ==> init[j] == entries[j];
  }

  predicate HoldsModel(e: Entry)
  {
    e.body.ModelChange? || (e.body.Chat? && e.body.message.Assistant?)
  }

  /** The model named there: the one changed to, or the one that replied. */
  function ModelNamed(e: Entry): ModelRef
    requires HoldsModel(e)
  {
    if e.body.ModelChange? then e.body.to else e.body.message.model
  }

  predicate HoldsThinking(e: Entry)
  {
    e.body.ThinkingLevelChange?
  }

  /** The context's model is that of the last model change or reply on the path, if there is one. */
  lemma {:induction false} ModelIsLast(entries: seq<Entry>)
    ensures forall x :: Selected(entries) == Some(x) <==>
                        exists k: nat :: LastAt(entries, HoldsModel, k) && ModelNamed(entries[k]) == x
  {
    if entries != [] {
      ModelIsLast(entries[..|entries| - 1]);
      LastAtSnoc(entries, HoldsModel);
      hide LastAt;
    }
  }

  /** The thinking level is that of the last change on the path, and `off` if and only if that says so or is missing. */
  lemma {:induction false} ThinkingIsLast(entries: seq<Entry>)
    ensures forall k: nat :: LastAt(entries, HoldsThinking, k) ==> Thinking(entries) == entries[k].body.thinking
    ensures Thinking(entries) == "off" <==>
            forall k: nat :: LastAt(entries, HoldsThinking, k) ==> entries[k].body.thinking == "off"
  {
    if entries != [] {
      ThinkingIsLast(entries[..|entries| - 1]);
      LastAtSnoc(entries, HoldsThinking);
      hide LastAt;
    }
  }

  /** The position of the last compaction. */
  function LastCompaction(entries: seq<Entry>): (k: Option<nat>)
    ensures k.Some? ==> k.value < |entries| && entries[k.value].body.Compaction?
    ensures k.Some? ==> forall j :: k.value < j < |entries| ==> !entries[j].body.Compaction?
    ensures k.None? ==> forall j :: 0 <= j < |entries| ==> !entries[j].body.Compaction?
  {
    if entries == [] then None
    else if entries[|entries| - 1].body.Compaction? then Some(|entries| - 1)
    else LastCompaction(entries[..|entries| - 1])
  }

  /** The first position of `id`, or the length when there is none. */
  function Find(entries: seq<Entry>, id: string): (i: nat)
    ensures i <= |entries|
    ensures i < |entries| ==> entries[i].id == id
    ensures forall j :: 0 <= j < i ==> entries[j].id != id
  {
    if entries == [] then 0
    else if entries[0].id == id then 0
    else 1 + Find(entries[1..], id)
  }

  function Note(c: Entry): Message
    requires c.body.Compaction?
  {
    CompactionNote(c.body.summary, c.body.tokensBefore)
  }

  /**
   What the path shows: the last compaction's summary, the entries before it from the one it kept, and
   everything after it; without a compaction, everything.
   */
  function Visible(path: seq<Entry>): seq<Message>
  {
    match LastCompaction(path)
    case None => Shown(path)
    case Some(k) =>
      [Note(path[k])] + Shown(path[Find(path[..k], path[k].body.firstKept)..k]) + Shown(path[k + 1..])
  }

  /** `build_session_context`. */
  method BuildSessionContext(entries: seq<Entry>) returns (context: SessionContext)
    ensures context == SessionContext(Visible(entries), Thinking(entries), Selected(entries))
    ensures forall x :: context.model == Some(x) <==>
                        exists k: nat :: LastAt(entries, HoldsModel, k) && ModelNamed(entries[k]) == x
    ensures forall k: nat :: LastAt(entries, HoldsThinking, k) ==> context.thinking == entries[k].body.thinking
    ensures (forall k: nat :: !LastAt(entries, HoldsThinking, k)) ==> context.thinking == "off"
  {
    hide Shown, LastAt;
    var thinking, model, compaction := "off", None, None;
    for i := 0 to |entries|
      invariant thinking == Thinking(entries[..i]) && model == Selected(entries[..i])
      invariant compaction == LastCompaction(entries[..i])
    {
      assert entries[..i + 1][..i] == entries[..i];
      match entries[i].body
      case ThinkingLevelChange(level) => thinking := level;
      case ModelChange(to) => model := Some(to);
      case Chat(message) =>
        if message.Assistant? {
          model := Some(message.model);
        }
      case Compaction(_, _, _, _, _) => compaction := Some(i);
      case _ =>
    }
    assert entries[..|entries|] == entries;
    var messages: seq<Message>;
    if compaction.Some? {
      var k := compaction.value;
      var before := ShowFrom(entries[..k], entries[k].body.firstKept);
      var after := ShowAll(entries[k + 1..]);
      assert entries[..k][Find(entries[..k], entries[k].body.firstKept)..]
          == entries[Find(entries[..k], entries[k].body.firstKept)..k];
      messages := [Note(entries[k])] + before + after;
    } else {
      messages := ShowAll(entries);
    }
    context := SessionContext(messages, thinking, model);
    ModelIsLast(entries);
    ThinkingIsLast(entries);
  }

  /** The messages from the first entry with the kept id on; none when it is not there. */
  method ShowFrom(entries: seq<Entry>, firstKept: string) returns (messages: seq<Message>)
    ensures messages == Shown(entries[Find(entries, firstKept)..])
  {
    hide Shown, ShownBy;
    messages := [];
    var found := false;
    var f := Find(entries, firstKept);
    for i := 0 to |entries|
      invariant found <==> f < i
      invariant !found ==> messages == []
      invariant found ==> messages == Shown(entries[f..i])
    {
      if entries[i].id == firstKept {
        found := true;
      }
      if found {
        ShownSnoc(entries, f, i);
        messages := messages + ShownBy(entries[i]);
      }
    }
    assert entries[f..|entries|] == entries[f..];
    NothingShown();
  }

  method ShowAll(entries: seq<Entry>) returns (messages: seq<Message>)
    ensures messages == Shown(entries)
  {
    messages := [];
    for i := 0 to |entries|
      invariant messages == Shown(entries[..i])
    {
      assert entries[..i + 1][..i] == entries[..i];
      messages := messages + ShownBy(entries[i]);
    }
    assert entries[..|entries|] == entries;
  }
}
