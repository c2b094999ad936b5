/** Overlap trimming: clip a device's intervals to a window, sort, sweep and sum.

The sweep is specified by what it covers.  A list of blocks is separated when its
blocks are non-empty, ascending and never touch; only one separated list covers
a given set of instants, so the result depends on nothing but the union. */
module Trim {

  /** Times are in nanoseconds, durations are reported in whole seconds. */
  const SECOND := 1_000_000_000

  /** Half-open, [start, end). */
  datatype Interval = Interval(start: int, end: int)

  predicate Proper(e: Interval) { e.start < e.end }

  predicate AllProper(events: seq<Interval>) { forall e :: e in events ==> Proper(e) }

  predicate Contains(e: Interval, t: int) { e.start <= t < e.end }

  ghost predicate Covered(events: seq<Interval>, t: int) { exists e :: e in events && Contains(e, t) }

  ghost predicate SameCover(a: seq<Interval>, b: seq<Interval>) { forall t :: Covered(a, t) <==> Covered(b, t) }

  /** int64(d.Seconds()): truncation toward zero. */
  function Seconds(e: Interval): int {
    if e.end >= e.start then (e.end - e.start) / SECOND else -((e.start - e.end) / SECOND)
  }

  function SumSeconds(blocks: seq<Interval>): int {
    if blocks == [] then 0 else Seconds(blocks[0]) + SumSeconds(blocks[1..])
  }

  predicate Separated(b: seq<Interval>) {
    (forall i :: 0 <= i < |b| ==> Proper(b[i]))
    && (forall i, j :: 0 <= i < j < |b| ==> b[i].end < b[j].start)
  }

  /** The maximal connected pieces of the union of the events, in order. */
  ghost predicate BlocksOf(b: seq<Interval>, events: seq<Interval>) { Separated(b) && SameCover(b, events) }

  // ---- Uniqueness

  lemma FirstBlockStarts(a: seq<Interval>, b: seq<Interval>)
    requires Separated(a) && Separated(b) && SameCover(a, b) && a != [] && b != []
    ensures b[0].start <= a[0].start
  {
    assert Contains(a[0], a[0].start);
    assert Covered(a, a[0].start);
    assert Covered(b, a[0].start);
    var e :| e in b && Contains(e, a[0].start);
    var i :| 0 <= i < |b| && b[i] == e;
  }

  lemma EndOfFirstIsOpen(a: seq<Interval>)
    requires Separated(a) && a != []
    ensures !Covered(a, a[0].end)
  {
    forall e | e in a ensures !Contains(e, a[0].end) {
      var i :| 0 <= i < |a| && a[i] == e;
    }
  }

  lemma FirstBlockEnds(a: seq<Interval>, b: seq<Interval>)
    requires Separated(a) && Separated(b) && SameCover(a, b) && a != [] && b != [] && a[0].start == b[0].start
    ensures b[0].end <= a[0].end
  {
    EndOfFirstIsOpen(a);
    assert !Covered(b, a[0].end);
    assert b[0] in b;
  }

  lemma RestCover(a: seq<Interval>, t: int)
    requires Separated(a) && a != []
    ensures Covered(a[1..], t) <==> Covered(a, t) && !Contains(a[0], t)
  {
    if e :| e in a && Contains(e, t) {
      var i :| 0 <= i < |a| && a[i] == e;
      if i > 0 {
        assert a[1..][i - 1] == e;
      }
    }
    if e :| e in a[1..] && Contains(e, t) {
      var i :| 0 <= i < |a[1..]| && a[1..][i] == e;
      assert a[i + 1] == e && a[0].end < e.start;
    }
  }

  lemma SomethingCovered(b: seq<Interval>)
    requires Separated(b) && b != []
    ensures Covered(b, b[0].start)
  {
    assert b[0] in b && Contains(b[0], b[0].start);
  }

  lemma NothingCovered(a: seq<Interval>, b: seq<Interval>)
    requires a == [] && Separated(b) && SameCover(a, b)
    ensures b == []
  {
    if b != [] { SomethingCovered(b); }
  }

  lemma {:induction false} BlocksAreUnique(a: seq<Interval>, b: seq<Interval>)
    requires Separated(a) && Separated(b) && SameCover(a, b)
    ensures a == b
  {
    if a == [] {
      NothingCovered(a, b);
    } else if b == [] {
      NothingCovered(b, a);
    } else {
      FirstBlockStarts(a, b);
      FirstBlockStarts(b, a);
      FirstBlockEnds(a, b);
      FirstBlockEnds(b, a);
      RestsCoverTheSame(a, b);
      BlocksAreUnique(a[1..], b[1..]);
      assert a == [a[0]] + a[1..] && b == [b[0]] + b[1..];
    }
  }

  lemma RestsCoverTheSame(a: seq<Interval>, b: seq<Interval>)
    requires Separated(a) && Separated(b) && SameCover(a, b) && a != [] && b != [] && a[0] == b[0]
    ensures Separated(a[1..]) && Separated(b[1..]) && SameCover(a[1..], b[1..])
  {
    forall t ensures Covered(a[1..], t) <==> Covered(b[1..], t) {
      RestCover(a, t);
      RestCover(b, t);
    }
  }

  // ---- The sweep

  predicate ByStart(s: seq<Interval>) { forall i, j :: 0 <= i < j < |s| ==> s[i].start <= s[j].start }

  function SweepFrom(cur: Interval, rest: seq<Interval>): (b: seq<Interval>)
    ensures |b| > 0
    decreases |rest|
  {
    if rest == [] then [cur]
    else if rest[0].start > cur.end then [cur] + SweepFrom(rest[0], rest[1..])
    else SweepFrom(Join(cur, rest[0]), rest[1..])
  }

  function Sweep(s: seq<Interval>): seq<Interval> { if s == [] then [] else SweepFrom(s[0], s[1..]) }

  lemma CoverCons(e: Interval, s: seq<Interval>, t: int)
    ensures Covered([e] + s, t) <==> Contains(e, t) || Covered(s, t)
  {
    if Contains(e, t) { assert e in [e] + s; }
    if f :| f in s && Contains(f, t) { assert f in [e] + s; }
  }

  function Join(a: Interval, b: Interval): Interval { Interval(a.start, if b.end > a.end then b.end else a.end) }

  lemma JoinCovers(a: Interval, b: Interval, t: int)
    requires Proper(a) && Proper(b) && a.start <= b.start <= a.end
    ensures Contains(Join(a, b), t) <==> Contains(a, t) || Contains(b, t)
  {
  }

  lemma ByStartCons(e: Interval, s: seq<Interval>)
    ensures ByStart([e] + s) <==> ByStart(s) && forall i :: 0 <= i < |s| ==> e.start <= s[i].start
  {
    var t := [e] + s;
    if ByStart(t) {
      forall i | 0 <= i < |s| ensures e.start <= s[i].start {
        assert t[0] == e && t[i + 1] == s[i];
      }
      forall i, j | 0 <= i < j < |s| ensures s[i].start <= s[j].start {
        assert t[i + 1] == s[i] && t[j + 1] == s[j];
      }
    }
  }

  lemma ByStartTail(cur: Interval, rest: seq<Interval>)
    requires ByStart([cur] + rest) && rest != []
    ensures cur.start <= rest[0].start
    ensures ByStart([rest[0]] + rest[1..]) && ByStart([Join(cur, rest[0])] + rest[1..])
  {
    assert rest == [rest[0]] + rest[1..];
    ByStartCons(cur, rest);
    ByStartCons(rest[0], rest[1..]);
    ByStartCons(Join(cur, rest[0]), rest[1..]);
  }

  lemma {:induction false} SweepCovers(cur: Interval, rest: seq<Interval>, t: int)
    requires Proper(cur) && AllProper(rest) && ByStart([cur] + rest)
    ensures Covered(SweepFrom(cur, rest), t) <==> Contains(cur, t) || Covered(rest, t)
    decreases |rest|
  {
    if rest == [] {
      CoverCons(cur, [], t);
      assert [cur] + [] == [cur];
    } else {
      var next, more := rest[0], rest[1..];
      ByStartTail(cur, rest);
      assert rest == [next] + more;
      CoverCons(next, more, t);
      if next.start > cur.end {
        CoverCons(cur, SweepFrom(next, more), t);
        SweepCovers(next, more, t);
      } else {
        JoinCovers(cur, next, t);
        SweepCovers(Join(cur, next), more, t);
      }
    }
  }

  lemma {:induction false} SweepSeparates(cur: Interval, rest: seq<Interval>)
    requires Proper(cur) && AllProper(rest) && ByStart([cur] + rest)
    ensures Separated(SweepFrom(cur, rest)) && SweepFrom(cur, rest)[0].start == cur.start
    decreases |rest|
  {
    if rest != [] {
      ByStartTail(cur, rest);
      if rest[0].start > cur.end {
        SweepSeparates(rest[0], rest[1..]);
      } else {
        SweepSeparates(Join(cur, rest[0]), rest[1..]);
      }
    }
  }

  lemma SweepFindsBlocks(s: seq<Interval>)
    requires AllProper(s) && ByStart(s)
    ensures BlocksOf(Sweep(s), s)
  {
    if s != [] {
      assert s == [s[0]] + s[1..];
      SweepSeparates(s[0], s[1..]);
      forall t ensures Covered(Sweep(s), t) <==> Covered(s, t) {
        SweepCovers(s[0], s[1..], t);
        CoverCons(s[0], s[1..], t);
      }
    }
  }

  // ---- Any order of the input

  function InsertByStart(e: Interval, s: seq<Interval>): seq<Interval> {
    if s == [] then [e]
    else if e.start <= s[0].start then [e] + s
    else [s[0]] + InsertByStart(e, s[1..])
  }

  function Ordered(s: seq<Interval>): seq<Interval> {
    if s == [] then [] else InsertByStart(s[0], Ordered(s[1..]))
  }

  lemma {:induction false} InsertKeeps(e: Interval, s: seq<Interval>)
    requires ByStart(s)
    ensures ByStart(InsertByStart(e, s))
    ensures forall f :: f in InsertByStart(e, s) <==> f == e || f in s
  {
    if s != [] && e.start > s[0].start {
      InsertKeeps(e, s[1..]);
      var t := InsertByStart(e, s[1..]);
      assert forall i :: 0 <= i < |t| ==> t[i] in t;
      assert forall f :: f in s <==> f == s[0] || f in s[1..];
      assert forall f :: f in s[1..] ==> s[0].start <= f.start;
    }
  }

  lemma {:induction false} OrderedKeeps(s: seq<Interval>)
    ensures ByStart(Ordered(s)) && forall f :: f in Ordered(s) <==> f in s
  {
    if s != [] {
      OrderedKeeps(s[1..]);
      InsertKeeps(s[0], Ordered(s[1..]));
    }
  }

  lemma SameMembersSameCover(a: seq<Interval>, b: seq<Interval>)
    requires forall e :: e in a <==> e in b
    ensures SameCover(a, b)
  {
  }

  /** The blocks of any list of events. */
  function Blocks(events: seq<Interval>): (b: seq<Interval>)
    ensures AllProper(events) ==> BlocksOf(b, events)
  {
    OrderedKeeps(events);
    SameMembersSameCover(Ordered(events), events);
    if AllProper(events) then SweepFindsBlocks(Ordered(events)); Sweep(Ordered(events)) else []
  }

  /** Whatever order the sort leaves equal starts in, the sweep finds the same blocks. */
  lemma AnySortedOrder(sorted: seq<Interval>, events: seq<Interval>)
    requires AllProper(events) && ByStart(sorted) && forall e :: e in sorted <==> e in events
    ensures Sweep(sorted) == Blocks(events)
  {
    SweepFindsBlocks(sorted);
    BlocksAreUnique(Sweep(sorted), Blocks(events));
  }

  // ---- The imperative form

  function ClipOne(lo: int, hi: int, e: Interval): Interval {
    Interval(if e.start < lo then lo else e.start, if e.end > hi then hi else e.end)
  }

  function Clip(lo: int, hi: int, events: seq<Interval>): seq<Interval> {
    if events == [] then [] else
      var init, e := Clip(lo, hi, events[..|events| - 1]), ClipOne(lo, hi, events[|events| - 1]);
      if Proper(e) then init + [e] else init
  }

  method ClipToWindow(windowStart: int, windowEnd: int, events: seq<Interval>) returns (clipped: seq<Interval>)
    ensures clipped == Clip(windowStart, windowEnd, events)
  {
    clipped := [];
    for i := 0 to |events|
      invariant clipped == Clip(windowStart, windowEnd, events[..i])
    {
      assert events[..i + 1][..i] == events[..i];
      var start := events[i].start;
      if start < windowStart {
        start := windowStart;
      }
      var end := events[i].end;
      if end > windowEnd {
        end := windowEnd;
      }
      if !(start < end) {
        continue;
      }
      clipped := clipped + [Interval(start, end)];
    }
    assert events[..|events|] == events;
  }

  function Swapped(s: seq<Interval>, j: nat): seq<Interval>
    requires 0 < j < |s|
  {
    s[j - 1 := s[j]][j := s[j - 1]]
  }

  lemma SwapKeepsContents(s: seq<Interval>, j: nat)
    requires 0 < j < |s|
    ensures multiset(Swapped(s, j)) == multiset(s)
  {
    assert s == s[..j - 1] + [s[j - 1], s[j]] + s[j + 1..];
    assert Swapped(s, j) == s[..j - 1] + [s[j], s[j - 1]] + s[j + 1..];
    assert multiset([s[j], s[j - 1]]) == multiset([s[j - 1], s[j]]);
  }

  /** The first n + 1 are in order but for the element at j, which no later one precedes. */
  predicate SortedBut(s: seq<Interval>, n: nat, j: nat) {
    j <= n < |s| && forall p, q :: 0 <= p < q <= n && q != j ==> s[p].start <= s[q].start
  }

  lemma SwapSinks(s: seq<Interval>, n: nat, j: nat)
    requires SortedBut(s, n, j) && 0 < j && s[j - 1].start > s[j].start
    ensures SortedBut(Swapped(s, j), n, j - 1)
  {
  }

  lemma StartsSorted(s: seq<Interval>, n: nat)
    requires n < |s| && ByStart(s[..n])
    ensures SortedBut(s, n, n)
  {
    assert forall p :: 0 <= p < n ==> s[..n][p] == s[p];
  }

  lemma SunkIsSorted(s: seq<Interval>, n: nat, j: nat)
    requires SortedBut(s, n, j) && (j == 0 || s[j - 1].start <= s[j].start)
    ensures ByStart(s[..n + 1])
  {
  }

  /** Move element n down to its place among the first n, which are sorted. */
  method SinkInto(a: array<Interval>, n: nat)
    requires n < a.Length && ByStart(a[..n])
    modifies a
    ensures ByStart(a[..n + 1]) && multiset(a[..]) == multiset(old(a[..]))
  {
    var j := n;
    ghost var s := a[..];
    assert a[..n] == s[..n];
    StartsSorted(s, n);
    while j > 0 && a[j - 1].start > a[j].start
      invariant 0 <= j <= n
      invariant a[..] == s && multiset(s) == multiset(old(a[..]))
      invariant SortedBut(s, n, j)
    {
      a[j - 1], a[j] := a[j], a[j - 1];
      SwapKeepsContents(s, j);
      SwapSinks(s, n, j);
      s := Swapped(s, j);
      j := j - 1;
    }
    SunkIsSorted(s, n, j);
    assert a[..n + 1] == s[..n + 1];
  }

  /** Sort in place by start; equal starts may end up in any order. */
  method SortByStart(a: array<Interval>)
    modifies a
    ensures ByStart(a[..]) && multiset(a[..]) == multiset(old(a[..]))
  {
    for n := 0 to a.Length
      invariant ByStart(a[..n]) && multiset(a[..]) == multiset(old(a[..]))
    {
      SinkInto(a, n);
    }
    assert a[..a.Length] == a[..];
  }

  method MergeAndSum(events: array<Interval>) returns (total: int)
    modifies events
    ensures AllProper(old(events[..])) ==> total == SumSeconds(Blocks(old(events[..])))
    ensures multiset(events[..]) == multiset(old(events[..]))
  {
    ghost var given := events[..];
    if events.Length == 0 {
      return 0;
    }
    SortByStart(events);
    ghost var s := events[..];
    total := 0;
    var cur := events[0];
    for i := 1 to events.Length
      invariant events[..] == s
      invariant total + SumSeconds(SweepFrom(cur, s[i..])) == SumSeconds(Sweep(s))
    {
      var ev := events[i];
      assert s[i..][0] == ev && s[i..][1..] == s[i + 1..];
      if ev.start > cur.end {
        total := total + Seconds(cur);
        cur := ev;
        continue;
      }
      if ev.end > cur.end {
        cur := Interval(cur.start, ev.end);
      }
    }
    total := total + Seconds(cur);
    SameMembers(s, given);
    if AllProper(given) {
      AnySortedOrder(s, given);
    }
  }

  lemma SameMembers(a: seq<Interval>, b: seq<Interval>)
    requires multiset(a) == multiset(b)
    ensures forall e :: e in a <==> e in b
  {
    forall e ensures e in a <==> e in b {
      assert e in a <==> e in multiset(a);
      assert e in b <==> e in multiset(b);
    }
  }
}
