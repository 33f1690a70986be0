/** Where a compaction cuts a path: the token estimate, the valid points, and the search from the end. */
module CutPoint {
  import opened Prelude
  import opened Conversation
  import opened SessionTree

  // ---------------------------------------------------------------------------------------------
  // Token estimates
  // ---------------------------------------------------------------------------------------------

  /** The length in UTF-16 code units. */
  function JsLen(s: string): nat
  {
    if s == "" then 0 else (if s[0] as int >= 0x10000 then 2 else 1) + JsLen(s[1..])
  }

  const IMAGE_CHARS: nat := 4800

  function CallChars(calls: seq<ToolCall>): nat
  {
    if calls == [] then 0 else JsLen(calls[0].name) + JsLen(calls[0].arguments) + CallChars(calls[1..])
  }

  function Chars(m: Message): nat
  {
    match m
    case User(text) => JsLen(text)
    case Assistant(text, calls, _, _, _, _) => JsLen(text) + CallChars(calls)
    case ToolResult(_, text, images, _) => JsLen(text) + IMAGE_CHARS * images
    case BashExecution(command, output) => JsLen(command) + JsLen(output)
    case CustomNote(_, text, images) => JsLen(text) + IMAGE_CHARS * images
    case BranchNote(summary, _) => JsLen(summary)
    case CompactionNote(summary, _) => JsLen(summary)
  }

  /** `estimate_tokens`: a quarter of the characters, rounded up. */
  function Tokens(m: Message): nat
  {
    (Chars(m) + 3) / 4
  }

  /** The number of tokens is that of the units, four to a token, rounded up. */
  predicate RoundsUp(units: nat, tokens: nat)
  {
    units <= 4 * tokens < units + 4
  }

  lemma {:induction false} CallsCount(calls: seq<ToolCall>)
    ensures CallChars(calls) == Sum(calls, (c: ToolCall) => JsLen(c.name) + JsLen(c.arguments))
  {
    if calls != [] {
      CallsCount(calls[1..]);
    }
  }

  /** What a message weighs: all the text it holds, and 4800 units for each image but those of a user. */
  lemma {:induction false} TokensCount(m: Message)
    ensures m.User? ==> RoundsUp(JsLen(m.text), Tokens(m))
    ensures m.Assistant? ==>
              RoundsUp(JsLen(m.text) + Sum(m.calls, (c: ToolCall) => JsLen(c.name) + JsLen(c.arguments)), Tokens(m))
    ensures m.ToolResult? || m.CustomNote? ==> RoundsUp(JsLen(m.text) + 4800 * m.images, Tokens(m))
    ensures m.BashExecution? ==> RoundsUp(JsLen(m.command) + JsLen(m.output), Tokens(m))
    ensures m.BranchNote? || m.CompactionNote? ==> RoundsUp(JsLen(m.summary), Tokens(m))
  {
    if m.Assistant? {
      CallsCount(m.calls);
    }
  }

  /** The characters outside the basic plane, which take two units each. */
  function Wide(s: string): set<nat>
  {
    set i: nat | i < |s| && s[i] as int >= 0x10000
  }

  lemma {:induction false} JsLenJoins(a: string, b: string)
    ensures JsLen(a + b) == JsLen(a) + JsLen(b)
  {
    if a == "" {
      assert a + b == b;
    } else {
      assert (a + b)[1..] == a[1..] + b;
      JsLenJoins(a[1..], b);
    }
  }

  /** A string has one unit for each of its characters and one more for each wide one. */
  lemma {:induction false} JsLenCounts(s: string)
    ensures JsLen(s) == |s| + |Wide(s)| && |s| <= JsLen(s) <= 2 * |s|
  {
    if s != "" {
      var n := |s| - 1;
      JsLenCounts(s[..n]);
      assert s == s[..n] + [s[n]];
      JsLenJoins(s[..n], [s[n]]);
      OneUnit(s[n]);
      WideSnoc(s);
      hide JsLen, Wide;
    }
  }

  lemma OneUnit(c: char)
    ensures JsLen([c]) == if c as int >= 0x10000 then 2 else 1
  {
    assert [c][1..] == "";
  }

  lemma WideSnoc(s: string)
    requires s != ""
    ensures var n := |s| - 1; |Wide(s)| == |Wide(s[..n])| + if s[n] as int >= 0x10000 then 1 else 0
  {
    var n := |s| - 1;
    assert Wide(s) == Wide(s[..n]) + (if s[n] as int >= 0x10000 then {n} else {});
  }

  /** More text never weighs less, here of a user and of a tool's result. */
  lemma {:induction false} MoreTextWeighsMore(id: string, a: string, b: string, images: nat, isError: bool)
    ensures Tokens(User(a)) <= Tokens(User(a + b))
    ensures Tokens(ToolResult(id, a, images, isError)) <= Tokens(ToolResult(id, a + b, images, isError))
  {
    JsLenJoins(a, b);
  }

  // ---------------------------------------------------------------------------------------------
  // The cut
  // ---------------------------------------------------------------------------------------------

  predicate IsResult(e: Entry)
  {
    e.body.Chat? && e.body.message.ToolResult?
  }

  predicate IsUser(e: Entry)
  {
    e.body.Chat? && e.body.message.User?
  }

  predicate IsValidCut(e: Entry)
  {
    (e.body.Chat? && !e.body.message.ToolResult?) || e.body.BranchSummary? || e.body.CustomMessage?
  }

  /** A message or entry that can start a turn. */
  predicate StartsTurn(e: Entry)
  {
    e.body.BranchSummary? || e.body.CustomMessage? ||
    (e.body.Chat? && (e.body.message.User? || e.body.message.BashExecution?))
  }

  /** `find_valid_cut_points`: the positions in `start..end` a compaction may cut at, in order. */
  function ValidCuts(entries: seq<Entry>, start: nat, end: nat): (cuts: seq<nat>)
    requires end <= |entries|
    ensures forall k :: 0 <= k < |cuts| ==> start <= cuts[k] < end && IsValidCut(entries[cuts[k]])
    ensures forall j, k :: 0 <= j < k < |cuts| ==> cuts[j] < cuts[k]
    ensures forall i :: start <= i < end && IsValidCut(entries[i]) ==> i in cuts
    decreases end - start
  {
    if start >= end then []
    else (if IsValidCut(entries[start]) then [start] else []) + ValidCuts(entries, start + 1, end)
  }

  /** `find_turn_start_index`: the last entry up to `at` that can start a turn. */
  function TurnStart(entries: seq<Entry>, at: nat, start: nat): (t: Option<nat>)
    requires at < |entries|
    ensures t.Some? ==> start <= t.value <= at && StartsTurn(entries[t.value])
    ensures t.Some? ==> forall i :: t.value < i <= at ==> !StartsTurn(entries[i])
    ensures t.None? ==> forall i :: start <= i <= at ==> !StartsTurn(entries[i])
  {
    if at < start then None
    else if StartsTurn(entries[at]) then Some(at)
    else if at == 0 then None
    else TurnStart(entries, at - 1, start)
  }

  /** The tokens of the message entries from `i` to `end`. */
  function Kept(entries: seq<Entry>, i: nat, end: nat): nat
    requires end <= |entries|
    decreases end - i
  {
    if i >= end then 0
    else (if entries[i].body.Chat? then Tokens(entries[i].body.message) else 0) + Kept(entries, i + 1, end)
  }

  /** That is the sum of the weights of the message entries, and of nothing else. */
  lemma {:induction false} KeptIsSum(entries: seq<Entry>, i: nat, end: nat)
    requires i <= end <= |entries|
    ensures Kept(entries, i, end) == Sum(entries[i..end], (e: Entry) => if e.body.Chat? then Tokens(e.body.message) else 0)
    decreases end - i
  {
    hide Tokens;
    if i < end {
      KeptIsSum(entries, i + 1, end);
      assert entries[i..end][1..] == entries[i + 1..end];
    }
  }

  /** The backwards count reaches `keep` at the message entry `i`, and not after it. */
  predicate Crosses(entries: seq<Entry>, i: nat, end: nat, keep: nat)
    requires i < end <= |entries|
  {
    && entries[i].body.Chat?
    && keep <= Kept(entries, i, end)
    && (Kept(entries, i + 1, end) < keep || forall j :: i < j < end ==> !entries[j].body.Chat?)
  }

  /** The closest valid point at or after the crossing. */
  predicate ClosestTo(entries: seq<Entry>, t: nat, end: nat, c: nat)
    requires end <= |entries|
  {
    && t <= c < end && IsValidCut(entries[c])
    && forall i :: t <= i < c ==> !IsValidCut(entries[i])
  }

  /** Neither a message nor a compaction: what the cut steps back over. */
  predicate IsLoose(e: Entry)
  {
    !e.body.Chat? && !e.body.Compaction?
  }

  /** `cut` is `c`, moved back over every loose entry just before it. */
  predicate SlidBack(entries: seq<Entry>, start: nat, c: nat, cut: nat)
    requires c <= |entries|
  {
    && start <= cut <= c
    && (forall i :: cut <= i < c ==> IsLoose(entries[i]))
    && (cut == start || !IsLoose(entries[cut - 1]))
  }

  datatype Cut = Cut(first: nat, turnStart: Option<nat>, isSplit: bool)

  /** What decided the cut. */
  datatype Reason = Nothing | Fallback(point: nat) | Reached(crossing: nat, point: nat)

  /** The point chosen, before stepping back. */
  ghost predicate Chosen(entries: seq<Entry>, start: nat, end: nat, keep: nat, why: Reason)
    requires end <= |entries|
  {
    match why
    case Nothing => forall i :: start <= i < end ==> !IsValidCut(entries[i])
    case Fallback(c) =>
      && start <= c && ClosestTo(entries, start, end, c)
      && (forall t :: start <= t < end && Crosses(entries, t, end, keep) ==>
            forall i :: t <= i < end ==> !IsValidCut(entries[i]))
    case Reached(t, c) =>
      start <= t < end && Crosses(entries, t, end, keep) && ClosestTo(entries, t, end, c)
  }

  /** The specification of `find_cut_point`. */
  ghost predicate IsCut(entries: seq<Entry>, start: nat, end: nat, keep: nat, cut: Cut, why: Reason)
    requires end <= |entries|
  {
    && Chosen(entries, start, end, keep, why)
    && (why.Nothing? ==> cut == Cut(start, None, false))
    && (!why.Nothing? ==> SlidBack(entries, start, why.point, cut.first) && Turn(entries, start, cut))
  }

  /** A cut off a user message splits the turn that holds it, when that turn starts in range. */
  predicate Turn(entries: seq<Entry>, start: nat, cut: Cut)
    requires cut.first < |entries|
  {
    && cut.turnStart == (if IsUser(entries[cut.first]) then None else TurnStart(entries, cut.first, start))
    && cut.isSplit == cut.turnStart.Some?
  }

  /** `find_cut_point`. */
  method FindCutPoint(entries: seq<Entry>, start: nat, end: nat, keep: nat) returns (cut: Cut)
    requires end <= |entries|
    ensures exists why :: IsCut(entries, start, end, keep, cut, why)
  {
    var cuts := ValidCuts(entries, start, end);
    if cuts == [] {
      cut := Cut(start, None, false);
      assert IsCut(entries, start, end, keep, cut, Nothing);
      return;
    }
    var point;
    ghost var why;
    point, why := WalkBack(entries, cuts, start, end, keep);
    var first := StepBack(entries, start, point);
    var turn := if IsUser(entries[first]) then None else TurnStart(entries, first, start);
    cut := Cut(first, turn, !IsUser(entries[first]) && turn.Some?);
    assert IsCut(entries, start, end, keep, cut, why);
  }

  /** Counts tokens from the newest message back; without a usable crossing the first point counts. */
  method WalkBack(entries: seq<Entry>, cuts: seq<nat>, start: nat, end: nat, keep: nat)
    returns (point: nat, ghost why: Reason)
    requires end <= |entries| && cuts == ValidCuts(entries, start, end) && cuts != []
    ensures Chosen(entries, start, end, keep, why) && !why.Nothing? && why.point == point
  {
    hide Tokens, IsValidCut, Chosen;
    var accumulated := 0;
    for i := end downto start
      invariant accumulated == Kept(entries, i, end)
      invariant forall t :: i <= t < end ==> !Crosses(entries, t, end, keep)
      invariant accumulated < keep || forall j :: i <= j < end ==> !entries[j].body.Chat?
    {
      if entries[i].body.Chat? {
        accumulated := accumulated + Tokens(entries[i].body.message);
        if accumulated >= keep {
          point, why := Settle(entries, cuts, start, end, keep, i);
          return;
        }
      }
    }
    point, why := cuts[0], Fallback(cuts[0]);
    NeverCrossed(entries, start, end, keep, cuts);
  }

  lemma NeverCrossed(entries: seq<Entry>, start: nat, end: nat, keep: nat, cuts: seq<nat>)
    requires end <= |entries| && cuts == ValidCuts(entries, start, end) && cuts != []
    requires forall t :: start <= t < end ==> !Crosses(entries, t, end, keep)
    ensures Chosen(entries, start, end, keep, Fallback(cuts[0]))
  {
  }

  /** The closest valid point at or after the crossing, or the first one when nothing is left after it. */
  method Settle(entries: seq<Entry>, cuts: seq<nat>, start: nat, end: nat, keep: nat, i: nat)
    returns (point: nat, ghost why: Reason)
    requires end <= |entries| && cuts == ValidCuts(entries, start, end) && cuts != []
    requires start <= i < end && Crosses(entries, i, end, keep)
    ensures Chosen(entries, start, end, keep, why) && !why.Nothing? && why.point == point
  {
    hide Crosses, IsValidCut, ClosestTo, AllBelow;
    var next := AtOrAfter(cuts, i);
    if next.Some? {
      point, why := next.value, Reached(i, next.value);
      FirstAfter(entries, cuts, start, end, i, point);
    } else {
      point, why := cuts[0], Fallback(cuts[0]);
      OnlyCrossing(entries, i, end, keep);
      NothingAfter(entries, cuts, start, end, i);
    }
  }

  lemma FirstAfter(entries: seq<Entry>, cuts: seq<nat>, start: nat, end: nat, i: nat, c: nat)
    requires start <= i <= c && end <= |entries| && cuts == ValidCuts(entries, start, end)
    requires exists k :: 0 <= k < |cuts| && cuts[k] == c && AllBelow(cuts, k, i)
    ensures ClosestTo(entries, i, end, c)
  {
    hide IsValidCut;
    var k :| 0 <= k < |cuts| && cuts[k] == c && AllBelow(cuts, k, i);
    forall j: nat | i <= j < c ensures !IsValidCut(entries[j]) {
      NotBetween(cuts, k, i, j);
    }
  }

  lemma NotBetween(cuts: seq<nat>, k: nat, i: nat, j: nat)
    requires k < |cuts| && AllBelow(cuts, k, i) && i <= j < cuts[k]
    requires forall x, y :: 0 <= x < y < |cuts| ==> cuts[x] < cuts[y]
    ensures j !in cuts
  {
  }

  lemma NothingAfter(entries: seq<Entry>, cuts: seq<nat>, start: nat, end: nat, i: nat)
    requires start <= i && end <= |entries| && cuts == ValidCuts(entries, start, end) && AllBelow(cuts, |cuts|, i)
    ensures forall j :: i <= j < end ==> !IsValidCut(entries[j])
    ensures cuts != [] ==> ClosestTo(entries, start, end, cuts[0])
  {
    hide IsValidCut;
    if cuts != [] {
      assert AllBelow(cuts, 0, start);
      FirstAfter(entries, cuts, start, end, start, cuts[0]);
    }
  }

  /** Keeps the settings just before the cut. */
  method StepBack(entries: seq<Entry>, start: nat, c: nat) returns (cut: nat)
    requires start <= c <= |entries|
    ensures SlidBack(entries, start, c, cut)
  {
    cut := c;
    while start < cut && IsLoose(entries[cut - 1])
      invariant start <= cut <= c
      invariant forall j :: cut <= j < c ==> IsLoose(entries[j])
    {
      cut := cut - 1;
    }
  }

  predicate AllBelow(cuts: seq<nat>, k: nat, i: nat)
    requires k <= |cuts|
  {
    forall j :: 0 <= j < k ==> cuts[j] < i
  }

  /** The first of `cuts` that is not before `i`. */
  method AtOrAfter(cuts: seq<nat>, i: nat) returns (c: Option<nat>)
    ensures c.Some? ==> i <= c.value && exists k :: 0 <= k < |cuts| && cuts[k] == c.value && AllBelow(cuts, k, i)
    ensures c.None? ==> AllBelow(cuts, |cuts|, i)
  {
    for k := 0 to |cuts|
      invariant AllBelow(cuts, k, i)
    {
      if i <= cuts[k] {
        return Some(cuts[k]);
      }
    }
    c := None;
  }

  lemma {:induction false} KeptShrinks(entries: seq<Entry>, i: nat, j: nat, end: nat)
    requires i <= j && end <= |entries|
    ensures Kept(entries, j, end) <= Kept(entries, i, end)
    decreases j - i
  {
    if i < j {
      KeptShrinks(entries, i + 1, j, end);
    }
  }

  /** The count reaches `keep` at one entry only. */
  lemma OnlyCrossing(entries: seq<Entry>, i: nat, end: nat, keep: nat)
    requires i < end <= |entries| && Crosses(entries, i, end, keep)
    ensures forall t :: 0 <= t < end && Crosses(entries, t, end, keep) ==> t == i
  {
    forall t | 0 <= t < end && Crosses(entries, t, end, keep) ensures t == i {
      if t < i {
        KeptShrinks(entries, t + 1, i, end);
      } else if i < t {
        KeptShrinks(entries, i + 1, t, end);
      }
    }
  }

  // ---------------------------------------------------------------------------------------------
  // What a cut keeps
  // ---------------------------------------------------------------------------------------------

  /** There is one cut, so the specification leaves no choice. */
  lemma {:induction false} CutIsUnique(entries: seq<Entry>, start: nat, end: nat, keep: nat,
                                       a: Cut, why: Reason, b: Cut, because: Reason)
    requires end <= |entries|
    requires IsCut(entries, start, end, keep, a, why) && IsCut(entries, start, end, keep, b, because)
    ensures a == b && why == because
  {
    if why.Reached? {
      OnlyCrossing(entries, why.crossing, end, keep);
      assert IsValidCut(entries[why.point]);
    }
    if because.Reached? {
      OnlyCrossing(entries, because.crossing, end, keep);
      assert IsValidCut(entries[because.point]);
    }
    if !why.Nothing? && !because.Nothing? {
      assert why.point == because.point;
      SlideIsUnique(entries, start, why.point, a.first, b.first);
    }
  }

  lemma SlideIsUnique(entries: seq<Entry>, start: nat, c: nat, x: nat, y: nat)
    requires c <= |entries| && SlidBack(entries, start, c, x) && SlidBack(entries, start, c, y)
    ensures x == y
  {
  }

  /** Stepping back over loose entries keeps no more message tokens. */
  lemma {:induction false} LooseKeepsNothing(entries: seq<Entry>, from: nat, c: nat, end: nat)
    requires from <= c <= end <= |entries|
    requires forall i :: from <= i < c ==> IsLoose(entries[i])
    ensures Kept(entries, from, end) == Kept(entries, c, end)
    decreases c - from
  {
    if from < c {
      LooseKeepsNothing(entries, from + 1, c, end);
    }
  }

  /**
   The bound on what is kept. A cut that reached the threshold keeps fewer than `keep` tokens beyond the
   message that crossed it (none, if `keep` is zero); for a positive `keep` it keeps at
   least `keep` exactly when the crossing message is itself a valid point.
   */
  lemma {:induction false} KeptBound(entries: seq<Entry>, start: nat, end: nat, keep: nat, cut: Cut, why: Reason)
    requires end <= |entries| && IsCut(entries, start, end, keep, cut, why) && why.Reached?
    ensures Kept(entries, cut.first, end) <= keep + Tokens(entries[why.crossing].body.message)
    ensures keep > 0 ==> Kept(entries, cut.first, end) < keep + Tokens(entries[why.crossing].body.message)
    ensures keep > 0 ==> (keep <= Kept(entries, cut.first, end) <==> IsValidCut(entries[why.crossing]))
  {
    var t, c := why.crossing, why.point;
    LooseKeepsNothing(entries, cut.first, c, end);
    KeptShrinks(entries, t, c, end);
    assert Kept(entries, t, end) == Tokens(entries[t].body.message) + Kept(entries, t + 1, end);
    if forall j :: t < j < end ==> !entries[j].body.Chat? {
      NoChatKeepsNothing(entries, t + 1, end);
    }
    if !IsValidCut(entries[t]) {
      KeptShrinks(entries, t + 1, c, end);
    } else {
      assert c == t;
    }
  }

  lemma {:induction false} NoChatKeepsNothing(entries: seq<Entry>, from: nat, end: nat)
    requires end <= |entries| && forall j :: from <= j < end ==> !entries[j].body.Chat?
    ensures Kept(entries, from, end) == 0
    decreases end - from
  {
    if from < end {
      NoChatKeepsNothing(entries, from + 1, end);
    }
  }

  /** The cut is in range; nothing valid was passed over between it and the point chosen but loose entries. */
  lemma CutInRange(entries: seq<Entry>, start: nat, end: nat, keep: nat, cut: Cut, why: Reason)
    requires start <= end <= |entries| && IsCut(entries, start, end, keep, cut, why)
    ensures start <= cut.first <= end
    ensures start < end ==> cut.first < end
    ensures cut.isSplit ==> start <= cut.turnStart.value <= cut.first
    ensures cut.isSplit <==> cut.turnStart.Some?
    ensures cut.first < end && !why.Nothing? ==> !IsResult(entries[cut.first])
  {
  }

  /** `r` is a tool result, `a` the reply that made its call, and only tool results stand between. */
  predicate Answers(entries: seq<Entry>, a: nat, r: nat)
    requires a < r < |entries|
  {
    && IsResult(entries[r])
    && entries[a].body.Chat? && entries[a].body.message.Assistant?
    && (exists k :: 0 <= k < |entries[a].body.message.calls| &&
                    entries[a].body.message.calls[k].id == entries[r].body.message.callId)
    && forall i :: a < i < r ==> !IsValidCut(entries[i])
  }

  /** Every tool result follows its call with nothing but results (and settings) between. */
  predicate Paired(entries: seq<Entry>)
  {
    forall r :: 0 <= r < |entries| && IsResult(entries[r]) ==> exists a :: 0 <= a < r && Answers(entries, a, r)
  }

  /**
   The kept part never starts with the results of calls that were cut: every tool result in it has its
   call in it, if and only if there was a point to cut at or there are no results at all.
   */
  lemma {:induction false} CutKeepsPairs(entries: seq<Entry>, start: nat, end: nat, keep: nat, cut: Cut, why: Reason)
    requires start <= end <= |entries| && IsCut(entries, start, end, keep, cut, why) && Paired(entries)
    ensures (forall r :: cut.first <= r < end && IsResult(entries[r]) ==>
               exists a :: cut.first <= a < r && Answers(entries, a, r))
            <==> (!why.Nothing? || forall r :: start <= r < end ==> !IsResult(entries[r]))
  {
    if why.Nothing? {
      if r :| start <= r < end && IsResult(entries[r]) {
        forall a | start <= a < r ensures !Answers(entries, a, r) {
          assert !IsValidCut(entries[a]);
        }
      }
    } else {
      assert IsValidCut(entries[why.point]);
      forall r | cut.first <= r < end && IsResult(entries[r])
        ensures exists a :: cut.first <= a < r && Answers(entries, a, r)
      {
        var a :| 0 <= a < r && Answers(entries, a, r);
        assert r > why.point;
      }
    }
  }

  /**
   What lies between the cut and the point chosen are entries the model's messages are not made of, and
   before the cut, unless it is where the range starts, stands a message or a compaction.
   */
  lemma StepsBackOverSettings(entries: seq<Entry>, start: nat, end: nat, keep: nat, cut: Cut, why: Reason)
    requires end <= |entries| && IsCut(entries, start, end, keep, cut, why) && !why.Nothing?
    ensures start <= cut.first <= why.point
    ensures forall i :: cut.first <= i < why.point ==> !entries[i].body.Chat? && !entries[i].body.Compaction?
    ensures cut.first > start ==> entries[cut.first - 1].body.Chat? || entries[cut.first - 1].body.Compaction?
  {
  }

  /** A turn is split exactly when the first entry kept is no user message and a turn starts there or before, in range. */
  lemma SplitsTurn(entries: seq<Entry>, start: nat, end: nat, keep: nat, cut: Cut, why: Reason)
    requires start <= end <= |entries| && IsCut(entries, start, end, keep, cut, why)
    ensures cut.isSplit <==>
              && !why.Nothing?
              && !(entries[cut.first].body.Chat? && entries[cut.first].body.message.User?)
              && exists t :: start <= t <= cut.first && StartsTurn(entries[t])
    ensures cut.isSplit ==> cut.turnStart.Some? && start <= cut.turnStart.value <= cut.first &&
                            StartsTurn(entries[cut.turnStart.value]) &&
                            forall i :: cut.turnStart.value < i <= cut.first ==> !StartsTurn(entries[i])
  {
    hide StartsTurn, Chosen;
  }

  predicate LooseFrom(entries: seq<Entry>, from: nat, c: nat)
    requires c <= |entries|
  {
    forall i :: from <= i < c ==> IsLoose(entries[i])
  }

  /** The step back passes over an entry exactly when the one before it and all up to the point are loose. */
  lemma SlideStopsAt(entries: seq<Entry>, start: nat, c: nat, first: nat, t: nat)
    requires c <= |entries| && SlidBack(entries, start, c, first) && start <= t < c && first < c
    ensures t <= first <==> t == start || !LooseFrom(entries, t - 1, c)
  {
    if start < t <= first {
      assert !IsLoose(entries[first - 1]);
    }
  }

  /**
   Where the point chosen is a user message, a new turn starts there and nothing is split. The turn
   before is reported as split all the same if and only if the cut steps back (there is a loose entry
   just before the point) and a turn starts in range that the step back does not pass over.
   */
  lemma {:induction false} SplitReported(entries: seq<Entry>, start: nat, end: nat, keep: nat, cut: Cut, why: Reason)
    requires end <= |entries| && IsCut(entries, start, end, keep, cut, why) && !why.Nothing?
    requires IsUser(entries[why.point])
    ensures cut.isSplit <==>
            && start < why.point && IsLoose(entries[why.point - 1])
            && exists t :: start <= t < why.point && StartsTurn(entries[t]) &&
                           (t == start || !LooseFrom(entries, t - 1, why.point))
  {
    var first, c := cut.first, why.point;
    hide StartsTurn, Chosen;
    if first == c {
      assert IsUser(entries[first]);
    } else {
      assert IsLoose(entries[first]);
      forall t: nat | start <= t < c && StartsTurn(entries[t])
        ensures t <= first <==> t == start || !LooseFrom(entries, t - 1, c)
      {
        SlideStopsAt(entries, start, c, first, t);
      }
    }
  }

  /** A question, a setting and a question: the cut keeps the setting and the last question, and says it splits. */
  lemma SplitExample(q: Entry, s: Entry, u: Entry)
    requires IsUser(q) && IsUser(u) && s.body.ModelChange?
    ensures IsCut([q, s, u], 0, 3, Tokens(u.body.message), Cut(1, Some(0), true), Reached(2, 2))
  {
    hide Tokens;
    var entries := [q, s, u];
    assert Kept(entries, 3, 3) == 0 && Kept(entries, 2, 3) == Tokens(u.body.message);
    assert entries[0] == q && entries[1] == s && entries[2] == u;
    assert TurnStart(entries, 1, 0) == TurnStart(entries, 0, 0) == Some(0);
  }

  /**
   A result too long to keep: the cut is after it. Its call is cut with it, and the turn is split.
   */
  lemma LongResultExample(question: Entry, call: Entry, result: Entry, reply: Entry, next: Entry, keep: nat)
    requires IsUser(question) && IsUser(next) && IsResult(result)
    requires call.body.Chat? && call.body.message.Assistant? && reply.body.Chat? && reply.body.message.Assistant?
    requires 4 * keep <= |result.body.message.text|
    requires Tokens(reply.body.message) + Tokens(next.body.message) < keep
    ensures IsCut([question, call, result, reply, next], 0, 5, keep, Cut(3, Some(0), true), Reached(2, 3))
  {
    var entries := [question, call, result, reply, next];
    JsLenCounts(result.body.message.text);
    TokensCount(result.body.message);
    hide Tokens, JsLen;
    assert Kept(entries, 5, 5) == 0 && Kept(entries, 4, 5) == Tokens(next.body.message);
    assert Kept(entries, 3, 5) == Tokens(reply.body.message) + Kept(entries, 4, 5);
    assert Kept(entries, 2, 5) == Tokens(result.body.message) + Kept(entries, 3, 5);
    hide Kept;
    assert Crosses(entries, 2, 5, keep);
    assert TurnStart(entries, 3, 0) == TurnStart(entries, 2, 0) == TurnStart(entries, 1, 0) == TurnStart(entries, 0, 0);
    assert ClosestTo(entries, 2, 5, 3);
  }
}
