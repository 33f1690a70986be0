/** The guard under the stdio transport: reading fails once a line has grown past a limit. */
module LineLimit {
  import opened Prelude

  type Byte = b: nat | b < 256

  const NEWLINE: Byte := 10

  /** The bytes since the last newline. */
  function Unterminated(s: seq<Byte>): (n: nat)
    ensures n <= |s|
  {
    if s == [] || s[|s| - 1] == NEWLINE then 0 else 1 + Unterminated(s[..|s| - 1])
  }

  /** The position of the last newline. */
  function LastNewline(s: seq<Byte>): (at: Option<nat>)
    ensures at.Some? ==> at.value < |s| && s[at.value] == NEWLINE && NEWLINE !in s[at.value + 1..]
    ensures at.None? ==> NEWLINE !in s
  {
    if s == [] then None
    else if s[|s| - 1] == NEWLINE then Some(|s| - 1)
    else
      var at := LastNewline(s[..|s| - 1]);
      assert at.Some? ==> s[at.value + 1..] == s[..|s| - 1][at.value + 1..] + [s[|s| - 1]];
      assert at.None? ==> s == s[..|s| - 1] + [s[|s| - 1]];
      at
  }

  /** A read: nothing yet, an error of its own, some bytes, or a line that is too long. */
  datatype Polled = Pending | Failed | Data(bytes: seq<Byte>) | TooLong

  class Guard {
    const limit: nat
    var run: nat
    /** Everything read so far. */
    ghost var seen: seq<Byte>

    ghost predicate Valid()
      reads this
    {
      run == Unterminated(seen)
    }

    constructor (limit: nat)
      ensures Valid() && this.limit == limit && seen == []
    {
      this.limit, run, seen := limit, 0, [];
    }

    /** `poll_read`, given what the inner reader answers. */
    method PollRead(inner: Polled) returns (r: Polled)
      requires Valid()
      modifies this
      ensures Valid() && seen == old(seen) + (if inner.Data? then inner.bytes else [])
      ensures r == if inner.Data? && Unterminated(seen) > limit then TooLong else inner
    {
      if !inner.Data? {
        return inner;
      }
      var added := inner.bytes;
      RunAfter(seen, added);
      match LastNewline(added) {
        case Some(at) => run := |added| - at - 1;
        case None => run := run + |added|;
      }
      seen := seen + added;
      r := if run > limit then TooLong else inner;
    }
  }

  /** How one chunk moves the counter. */
  lemma {:induction false} RunAfter(s: seq<Byte>, added: seq<Byte>)
    ensures var at := LastNewline(added);
            Unterminated(s + added) == if at.Some? then |added| - at.value - 1 else Unterminated(s) + |added|
  {
    if added == [] {
      assert s + added == s;
    } else {
      var n := |added| - 1;
      RunAfter(s, added[..n]);
      assert (s + added)[..|s| + n] == s + added[..n];
    }
  }

  /** What came in with the first `k` chunks. */
  function Prefix(chunks: seq<seq<Byte>>, k: nat): seq<Byte>
    requires k <= |chunks|
  {
    if k == 0 then [] else Prefix(chunks, k - 1) + chunks[k - 1]
  }

  /** The run at the end of the chunk is too long. */
  predicate Overruns(chunks: seq<seq<Byte>>, k: nat, limit: nat)
    requires k < |chunks|
  {
    Unterminated(Prefix(chunks, k + 1)) > limit
  }

  /** Reads until the end or the first failure, which ends the connection. */
  method Feed(chunks: seq<seq<Byte>>, limit: nat) returns (passed: seq<Byte>, count: nat, failed: bool)
    ensures count <= |chunks| && passed == Prefix(chunks, count)
    ensures failed <==> count < |chunks|
    ensures forall k :: 0 <= k < count ==> !Overruns(chunks, k, limit)
    ensures failed ==> Overruns(chunks, count, limit)
  {
    var guard := new Guard(limit);
    passed, count := [], 0;
    for i := 0 to |chunks|
      invariant guard.Valid() && guard.limit == limit && guard.seen == passed == Prefix(chunks, i) && count == i
      invariant forall k :: 0 <= k < i ==> !Overruns(chunks, k, limit)
      invariant fresh(guard)
    {
      var r := guard.PollRead(Data(chunks[i]));
      if r.TooLong? {
        failed := true;
        return;
      }
      passed, count := passed + r.bytes, count + 1;
    }
    failed := false;
  }

  /** No line, finished or not, is longer than `n`. */
  predicate LinesFit(s: seq<Byte>, n: nat)
  {
    forall p :: 0 <= p <= |s| ==> Unterminated(s[..p]) <= n
  }

  lemma {:induction false} PrefixIsPart(chunks: seq<seq<Byte>>, k: nat, n: nat)
    requires k <= n <= |chunks|
    ensures |Prefix(chunks, k)| <= |Prefix(chunks, n)|
    ensures Prefix(chunks, k) == Prefix(chunks, n)[..|Prefix(chunks, k)|]
    decreases n
  {
    if k < n {
      PrefixIsPart(chunks, k, n - 1);
    }
  }

  /** A stream whose lines all fit never fails, however it is split; a failure has a long line behind it. */
  lemma {:induction false} FittingLinesPass(chunks: seq<seq<Byte>>, limit: nat, k: nat)
    requires k < |chunks| && Overruns(chunks, k, limit)
    ensures !LinesFit(Prefix(chunks, |chunks|), limit)
  {
    PrefixIsPart(chunks, k + 1, |chunks|);
    var whole, p := Prefix(chunks, |chunks|), |Prefix(chunks, k + 1)|;
    assert Unterminated(whole[..p]) > limit;
  }

  /** A part of a chunk adds no more than its length to the run. */
  lemma {:induction false} RunGrowsByLength(s: seq<Byte>, added: seq<Byte>)
    ensures Unterminated(s + added) <= Unterminated(s) + |added|
  {
    RunAfter(s, added);
  }

  /**
   With chunks of at most `m` bytes no line above `limit + m - 1` bytes is passed on: only a line that
   ends within the chunk that made it too long gets through.
   */
  lemma {:induction false} PassedLinesBounded(chunks: seq<seq<Byte>>, count: nat, limit: nat, m: nat)
    requires count <= |chunks| && m > 0
    requires forall k :: 0 <= k < |chunks| ==> |chunks[k]| <= m
    requires forall k :: 0 <= k < count ==> !Overruns(chunks, k, limit)
    ensures LinesFit(Prefix(chunks, count), limit + m - 1)
    decreases count
  {
    var s := Prefix(chunks, count);
    if count > 0 {
      var before, last := Prefix(chunks, count - 1), chunks[count - 1];
      PassedLinesBounded(chunks, count - 1, limit, m);
      assert !Overruns(chunks, count - 1, limit);
      forall p | 0 <= p <= |s| ensures Unterminated(s[..p]) <= limit + m - 1 {
        if p <= |before| {
          assert s[..p] == before[..p];
        } else if p < |s| {
          assert s[..p] == before + last[..p - |before|];
          RunGrowsByLength(before, last[..p - |before|]);
          if count > 1 {
            assert !Overruns(chunks, count - 2, limit);
          }
        } else {
          assert s[..p] == s;
        }
      }
    }
  }

  // ---------------------------------------------------------------------------------------------
  // Which lines get through
  // ---------------------------------------------------------------------------------------------

  /** A line of `s`, without its newline: from the start or a newline to the next newline or the end. */
  predicate IsLine(s: seq<Byte>, a: nat, b: nat)
  {
    && a <= b <= |s|
    && (a == 0 || s[a - 1] == NEWLINE)
    && (forall i :: a <= i < b ==> s[i] != NEWLINE)
    && (b == |s| || s[b] == NEWLINE)
  }

  /** Where the `k`th chunk ends. */
  function EndOf(chunks: seq<seq<Byte>>, k: nat): nat
    requires k < |chunks|
  {
    |Prefix(chunks, k + 1)|
  }

  function Whole(chunks: seq<seq<Byte>>): seq<Byte>
  {
    Prefix(chunks, |chunks|)
  }

  /** Within a line the run is the distance from the line's start. */
  lemma {:induction false} RunInLine(s: seq<Byte>, a: nat, c: nat)
    requires a <= c <= |s| && (a == 0 || s[a - 1] == NEWLINE) && forall i :: a <= i < c ==> s[i] != NEWLINE
    ensures Unterminated(s[..c]) == c - a
    decreases c
  {
    if a < c {
      RunInLine(s, a, c - 1);
      assert s[..c][..c - 1] == s[..c - 1];
    }
  }

  /** Every position of a stream is in a line. */
  lemma {:induction false} LineStart(s: seq<Byte>, c: nat) returns (a: nat)
    requires c <= |s|
    ensures a <= c && (a == 0 || s[a - 1] == NEWLINE) && forall i :: a <= i < c ==> s[i] != NEWLINE
  {
    if c == 0 || s[c - 1] == NEWLINE {
      a := c;
    } else {
      a := LineStart(s, c - 1);
    }
  }

  lemma {:induction false} LineEnd(s: seq<Byte>, c: nat) returns (b: nat)
    requires c <= |s|
    ensures c <= b <= |s| && (b == |s| || s[b] == NEWLINE) && forall i :: c <= i < b ==> s[i] != NEWLINE
    decreases |s| - c
  {
    if c == |s| || s[c] == NEWLINE {
      b := c;
    } else {
      b := LineEnd(s, c + 1);
    }
  }

  /** A chunk ends within the line, more than `limit` bytes after its start. */
  predicate Trips(chunks: seq<seq<Byte>>, limit: nat, a: nat, b: nat, k: nat)
    requires k < |chunks|
  {
    a + limit < EndOf(chunks, k) <= b
  }

  /** The read fails within a line if and only if some chunk ends there, above the limit. */
  lemma {:induction false} LineFailsIffTripped(chunks: seq<seq<Byte>>, limit: nat, a: nat, b: nat, k: nat)
    requires k < |chunks| && IsLine(Whole(chunks), a, b) && a <= EndOf(chunks, k) <= b
    ensures Overruns(chunks, k, limit) <==> Trips(chunks, limit, a, b, k)
  {
    hide Prefix;
    PrefixIsPart(chunks, k + 1, |chunks|);
    RunInLine(Whole(chunks), a, EndOf(chunks, k));
  }

  /**
   Which streams get through: exactly those with no chunk ending inside a line where that line is
   already above the limit. A line of any length gets through when no chunk ends in its part above it.
   */
  lemma {:induction false} PassesIffNothingTrips(chunks: seq<seq<Byte>>, limit: nat)
    ensures (forall k :: 0 <= k < |chunks| ==> !Overruns(chunks, k, limit)) <==>
            (forall a, b, k :: IsLine(Whole(chunks), a, b) && 0 <= k < |chunks| ==> !Trips(chunks, limit, a, b, k))
  {
    hide Prefix, Overruns;
    var s := Whole(chunks);
    forall k | 0 <= k < |chunks| && Overruns(chunks, k, limit)
      ensures exists a, b :: IsLine(s, a, b) && Trips(chunks, limit, a, b, k)
    {
      PrefixIsPart(chunks, k + 1, |chunks|);
      var a := LineStart(s, EndOf(chunks, k));
      var b := LineEnd(s, EndOf(chunks, k));
      assert IsLine(s, a, b);
      LineFailsIffTripped(chunks, limit, a, b, k);
    }
    forall a, b, k | IsLine(s, a, b) && 0 <= k < |chunks| && Trips(chunks, limit, a, b, k)
      ensures Overruns(chunks, k, limit)
    {
      LineFailsIffTripped(chunks, limit, a, b, k);
    }
  }

  /** `n` chunks of one byte each. */
  function Singles(n: nat): seq<seq<Byte>>
  {
    seq(n, i => [0])
  }

  lemma {:induction false} SinglesPrefix(n: nat, last: seq<Byte>, k: nat)
    requires k <= n
    ensures Prefix(Singles(n) + [last], k) == seq(k, i => 0)
  {
    if k > 0 {
      SinglesPrefix(n, last, k - 1);
      assert seq(k, i => 0 as Byte) == seq(k - 1, i => 0 as Byte) + [0];
    }
  }

  lemma {:induction false} RunOfZeros(n: nat)
    ensures Unterminated(seq(n, i => 0)) == n
  {
    var s: seq<Byte> := seq(n, i => 0);
    RunInLine(s, 0, n);
    assert s[..n] == s;
  }

  /**
   The bound is met for every limit and every chunk size: `limit` chunks of one byte and then one of `m`
   bytes whose last byte ends the line pass, and with them a line of `limit + m - 1` bytes.
   */
  lemma {:induction false} LongLinePasses(limit: nat, m: nat)
    requires m > 0
    ensures var last: seq<Byte> := seq(m - 1, i => 0) + [NEWLINE];
            var chunks := Singles(limit) + [last];
            && (forall k :: 0 <= k < |chunks| ==> |chunks[k]| <= m)
            && (forall k :: 0 <= k < |chunks| ==> !Overruns(chunks, k, limit))
            && IsLine(Whole(chunks), 0, limit + m - 1)
  {
    var last: seq<Byte> := seq(m - 1, i => 0) + [NEWLINE];
    var chunks := Singles(limit) + [last];
    var n := limit + 1;
    forall k | 0 <= k < n ensures !Overruns(chunks, k, limit) {
      if k < limit {
        SinglesPrefix(limit, last, k + 1);
        RunOfZeros(k + 1);
      }
    }
    SinglesPrefix(limit, last, limit);
    assert Whole(chunks) == seq(limit, i => 0) + last;
  }
}
