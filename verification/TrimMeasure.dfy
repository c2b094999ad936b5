/** What the trimmed total is: the measure of a union.  Hence it adds up over any
ordered partition of the range, up to the second a cut can lose. */
module TrimMeasure {
  import opened Sums
  import opened Trim

  /** One device's total for the window [lo, hi). */
  function Trimmed(lo: int, hi: int, events: seq<Interval>): int { SumSeconds(Blocks(Clip(lo, hi, events))) }

  /** The instants of the window that some event covers. */
  ghost function CoveredIn(lo: int, hi: int, events: seq<Interval>): set<int> {
    set t: int | lo <= t < hi && Covered(events, t)
  }

  predicate Whole(t: int) { t % SECOND == 0 }

  predicate WholeEvents(events: seq<Interval>) { forall e :: e in events ==> Whole(e.start) && Whole(e.end) }

  // ---- Clipping

  lemma {:induction false} ClipCovers(lo: int, hi: int, events: seq<Interval>, t: int)
    ensures Covered(Clip(lo, hi, events), t) <==> lo <= t < hi && Covered(events, t)
  {
    if events != [] {
      var init, last := events[..|events| - 1], events[|events| - 1];
      ClipCovers(lo, hi, init, t);
      assert forall e :: e in events <==> e in init || e == last;
      var kept := Clip(lo, hi, init);
      assert forall e :: e in kept + [ClipOne(lo, hi, last)] <==> e in kept || e == ClipOne(lo, hi, last);
      assert Contains(ClipOne(lo, hi, last), t) <==> lo <= t < hi && Contains(last, t);
    }
  }

  lemma {:induction false} ClipIsInside(lo: int, hi: int, events: seq<Interval>)
    ensures forall e :: e in Clip(lo, hi, events) ==> Proper(e) && lo <= e.start && e.end <= hi
    ensures Whole(lo) && Whole(hi) && WholeEvents(events) ==> WholeEvents(Clip(lo, hi, events))
  {
    if events != [] {
      var init, last := events[..|events| - 1], events[|events| - 1];
      ClipIsInside(lo, hi, init);
      assert forall e :: e in init ==> e in events;
      assert last in events;
    }
  }

  lemma BlocksCover(lo: int, hi: int, events: seq<Interval>, t: int)
    ensures Separated(Blocks(Clip(lo, hi, events)))
    ensures Covered(Blocks(Clip(lo, hi, events)), t) <==> lo <= t < hi && Covered(events, t)
  {
    ClipIsInside(lo, hi, events);
    ClipCovers(lo, hi, events, t);
    assert AllProper(Clip(lo, hi, events));
  }

  lemma BlocksAreInside(lo: int, hi: int, events: seq<Interval>)
    ensures forall b :: b in Blocks(Clip(lo, hi, events)) ==> Proper(b) && lo <= b.start && b.end <= hi
  {
    var blocks := Blocks(Clip(lo, hi, events));
    forall b | b in blocks ensures Proper(b) && lo <= b.start && b.end <= hi {
      BlocksCover(lo, hi, events, b.start);
      BlocksCover(lo, hi, events, b.end - 1);
      assert Contains(b, b.start) && Contains(b, b.end - 1);
    }
  }

  /** A window's blocks are determined by what they cover. */
  lemma BlocksByCover(lo: int, hi: int, events: seq<Interval>, b: seq<Interval>)
    requires Separated(b) && forall t :: Covered(b, t) <==> lo <= t < hi && Covered(events, t)
    ensures Blocks(Clip(lo, hi, events)) == b
  {
    var blocks := Blocks(Clip(lo, hi, events));
    BlocksCover(lo, hi, events, 0);
    forall t ensures Covered(blocks, t) <==> Covered(b, t) { BlocksCover(lo, hi, events, t); }
    BlocksAreUnique(blocks, b);
  }

  // ---- Measure

  function Length(e: Interval): int { e.end - e.start }

  function SumLengths(b: seq<Interval>): int {
    if b == [] then 0 else Length(b[0]) + SumLengths(b[1..])
  }

  ghost function Instants(e: Interval): set<int> { set t: int | e.start <= t < e.end && Contains(e, t) }

  lemma {:induction false} InstantsCount(e: Interval)
    requires e.start <= e.end
    ensures |Instants(e)| == Length(e)
    decreases e.end - e.start
  {
    if e.start == e.end {
      assert Instants(e) == {};
    } else {
      var shorter := Interval(e.start, e.end - 1);
      InstantsCount(shorter);
      assert Instants(e) == Instants(shorter) + {e.end - 1};
    }
  }

  lemma FirstAndRest(lo: int, hi: int, b: seq<Interval>, t: int)
    requires Separated(b) && b != [] && lo <= b[0].start && b[0].end <= hi
    ensures t in CoveredIn(lo, hi, b) <==> t in Instants(b[0]) || t in CoveredIn(b[0].end, hi, b[1..])
    ensures t in Instants(b[0]) ==> t !in CoveredIn(b[0].end, hi, b[1..])
  {
    RestCover(b, t);
    RestStartsLater(b, t);
    assert b[0] in b;
  }

  lemma {:induction false} Measure(lo: int, hi: int, b: seq<Interval>)
    requires Separated(b) && forall i :: 0 <= i < |b| ==> lo <= b[i].start && b[i].end <= hi
    ensures |CoveredIn(lo, hi, b)| == SumLengths(b)
    decreases |b|
  {
    if b == [] {
      assert CoveredIn(lo, hi, b) == {};
    } else {
      InstantsCount(b[0]);
      Measure(b[0].end, hi, b[1..]);
      var first, later := Instants(b[0]), CoveredIn(b[0].end, hi, b[1..]);
      forall t ensures t in CoveredIn(lo, hi, b) <==> t in first || t in later
        ensures t in first ==> t !in later
      {
        FirstAndRest(lo, hi, b, t);
      }
      DisjointUnion(CoveredIn(lo, hi, b), first, later);
    }
  }

  lemma DisjointUnion(all: set<int>, a: set<int>, b: set<int>)
    requires forall t :: t in all <==> t in a || t in b
    requires forall t :: t in a ==> t !in b
    ensures |all| == |a| + |b|
  {
    assert forall t :: t !in a * b;
    assert a * b == {};
    assert forall t :: t in all <==> t in a + b;
    assert all == a + b;
  }

  lemma RestStartsLater(b: seq<Interval>, t: int)
    requires Separated(b) && b != []
    ensures Covered(b[1..], t) ==> b[0].end < t
  {
    if e :| e in b[1..] && Contains(e, t) {
      var i :| 0 <= i < |b[1..]| && b[1..][i] == e;
      assert b[i + 1] == e;
    }
  }

  lemma {:induction false} RoundingBounds(b: seq<Interval>)
    requires AllProper(b)
    ensures SECOND * SumSeconds(b) <= SumLengths(b) <= SECOND * SumSeconds(b) + (SECOND - 1) * |b|
    ensures WholeEvents(b) ==> SECOND * SumSeconds(b) == SumLengths(b)
  {
    if b != [] {
      assert b[0] in b && forall e :: e in b[1..] ==> e in b;
      RoundingBounds(b[1..]);
      BlockRounds(b[0]);
      AddBlock(Seconds(b[0]), Length(b[0]), SumSeconds(b[1..]), SumLengths(b[1..]), |b[1..]|);
    }
  }

  lemma BlockRounds(e: Interval)
    requires Proper(e)
    ensures SECOND * Seconds(e) <= Length(e) <= SECOND * Seconds(e) + (SECOND - 1)
    ensures Whole(e.start) && Whole(e.end) ==> SECOND * Seconds(e) == Length(e)
  {
  }

  lemma AddBlock(s: int, l: int, seconds: int, lengths: int, n: nat)
    requires SECOND * s <= l <= SECOND * s + (SECOND - 1)
    requires SECOND * seconds <= lengths <= SECOND * seconds + (SECOND - 1) * n
    ensures SECOND * (s + seconds) <= l + lengths <= SECOND * (s + seconds) + (SECOND - 1) * (n + 1)
    ensures SECOND * s == l && SECOND * seconds == lengths ==> SECOND * (s + seconds) == l + lengths
  {
  }

  lemma SeparatedIsProper(b: seq<Interval>)
    requires Separated(b)
    ensures AllProper(b)
  {
  }

  /** Blocks of whole-second events begin and end on whole seconds: each end of a block is an end of an event. */
  lemma BlocksAreWhole(b: seq<Interval>, events: seq<Interval>)
    requires BlocksOf(b, events) && WholeEvents(events)
    ensures WholeEvents(b)
  {
    forall i | 0 <= i < |b| ensures Whole(b[i].start) && Whole(b[i].end) {
      BlockEdges(b, i);
      assert Contains(b[i], b[i].start) && Contains(b[i], b[i].end - 1);
      assert Covered(events, b[i].start) && Covered(events, b[i].end - 1);
      var e :| e in events && Contains(e, b[i].start);
      assert !Covered(events, b[i].start - 1);
      assert !Contains(e, b[i].start - 1);
      var f :| f in events && Contains(f, b[i].end - 1);
      assert !Covered(events, b[i].end);
      assert !Contains(f, b[i].end);
    }
  }

  lemma BlockEdges(b: seq<Interval>, i: nat)
    requires Separated(b) && i < |b|
    ensures !Covered(b, b[i].start - 1) && !Covered(b, b[i].end)
  {
    forall e | e in b ensures !Contains(e, b[i].start - 1) && !Contains(e, b[i].end) {
      var j :| 0 <= j < |b| && b[j] == e;
    }
  }

  /** One device, one window, any order of the events: the total is the time covered, each block rounded down to
      whole seconds; exactly the time covered when all times are whole seconds; never more than the window. */
  lemma ExactTrimming(lo: int, hi: int, events: seq<Interval>)
    ensures var n, blocks := |CoveredIn(lo, hi, events)|, Blocks(Clip(lo, hi, events));
            SECOND * Trimmed(lo, hi, events) <= n <= SECOND * Trimmed(lo, hi, events) + (SECOND - 1) * |blocks|
    ensures Whole(lo) && Whole(hi) && WholeEvents(events) ==>
              SECOND * Trimmed(lo, hi, events) == |CoveredIn(lo, hi, events)|
    ensures lo <= hi ==> 0 <= SECOND * Trimmed(lo, hi, events) <= hi - lo
  {
    var blocks := Blocks(Clip(lo, hi, events));
    BlocksAreInside(lo, hi, events);
    BlocksCover(lo, hi, events, 0);
    Measure(lo, hi, blocks);
    forall t ensures t in CoveredIn(lo, hi, blocks) <==> t in CoveredIn(lo, hi, events) {
      BlocksCover(lo, hi, events, t);
    }
    assert CoveredIn(lo, hi, blocks) == CoveredIn(lo, hi, events);
    SeparatedIsProper(blocks);
    RoundingBounds(blocks);
    ClipIsInside(lo, hi, events);
    if Whole(lo) && Whole(hi) && WholeEvents(events) {
      BlocksAreWhole(blocks, Clip(lo, hi, events));
    }
    if lo <= hi { WindowBounds(lo, hi, events); }
    NonNegative(blocks);
  }

  lemma WindowBounds(lo: int, hi: int, events: seq<Interval>)
    requires lo <= hi
    ensures |CoveredIn(lo, hi, events)| <= hi - lo
  {
    InstantsCount(Interval(lo, hi));
    assert CoveredIn(lo, hi, events) <= Instants(Interval(lo, hi));
    SubsetSize(CoveredIn(lo, hi, events), Instants(Interval(lo, hi)));
  }

  lemma {:induction false} NonNegative(b: seq<Interval>)
    requires AllProper(b)
    ensures SumSeconds(b) >= 0
  {
    if b != [] {
      assert b[0] in b && forall e :: e in b[1..] ==> e in b;
      NonNegative(b[1..]);
    }
  }

  /** The total depends on the covered instants alone: not on order, duplicates, or how the union is cut into events. */
  lemma OnlyTheUnionMatters(lo: int, hi: int, a: seq<Interval>, b: seq<Interval>)
    requires CoveredIn(lo, hi, a) == CoveredIn(lo, hi, b)
    ensures Trimmed(lo, hi, a) == Trimmed(lo, hi, b)
  {
    var blocks := Blocks(Clip(lo, hi, b));
    forall t ensures Covered(blocks, t) <==> lo <= t < hi && Covered(a, t) {
      BlocksCover(lo, hi, b, t);
      assert lo <= t < hi && Covered(a, t) <==> t in CoveredIn(lo, hi, a);
      assert lo <= t < hi && Covered(b, t) <==> t in CoveredIn(lo, hi, b);
    }
    BlocksCover(lo, hi, b, 0);
    BlocksByCover(lo, hi, a, blocks);
  }

  // ---- Cutting the window

  function Before(b: seq<Interval>, m: int): seq<Interval> {
    if b == [] || b[0].start >= m then []
    else if b[0].end <= m then [b[0]] + Before(b[1..], m)
    else [Interval(b[0].start, m)]
  }

  function From(b: seq<Interval>, m: int): seq<Interval> {
    if b == [] || b[0].start >= m then b
    else if b[0].end <= m then From(b[1..], m)
    else [Interval(m, b[0].end)] + b[1..]
  }

  lemma {:induction false} BeforeCovers(b: seq<Interval>, m: int, t: int)
    requires Separated(b)
    ensures Covered(Before(b, m), t) <==> t < m && Covered(b, t)
  {
    if b != [] {
      assert b == [b[0]] + b[1..];
      CoverCons(b[0], b[1..], t);
      if b[0].start >= m {
        LaterStarts(b, t);
      } else if b[0].end <= m {
        BeforeCovers(b[1..], m, t);
        CoverCons(b[0], Before(b[1..], m), t);
      } else {
        CoverCons(Interval(b[0].start, m), [], t);
        assert [Interval(b[0].start, m)] + [] == [Interval(b[0].start, m)];
        LaterStarts(b, t);
        RestStartsLater(b, t);
      }
    }
  }

  lemma LaterStarts(b: seq<Interval>, t: int)
    requires Separated(b) && b != []
    ensures Covered(b, t) ==> b[0].start <= t
  {
    if e :| e in b && Contains(e, t) {
      var i :| 0 <= i < |b| && b[i] == e;
    }
  }

  lemma {:induction false} FromCovers(b: seq<Interval>, m: int, t: int)
    requires Separated(b)
    ensures Covered(From(b, m), t) <==> m <= t && Covered(b, t)
  {
    if b != [] {
      assert b == [b[0]] + b[1..];
      CoverCons(b[0], b[1..], t);
      if b[0].start >= m {
        LaterStarts(b, t);
      } else if b[0].end <= m {
        FromCovers(b[1..], m, t);
      } else {
        CoverCons(Interval(m, b[0].end), b[1..], t);
        RestStartsLater(b, t);
      }
    }
  }

  lemma {:induction false} BeforeSeparated(b: seq<Interval>, m: int)
    requires Separated(b)
    ensures Separated(Before(b, m))
    ensures b != [] && Before(b, m) != [] ==> Before(b, m)[0].start == b[0].start
  {
    if b != [] && b[0].start < m && b[0].end <= m {
      BeforeSeparated(b[1..], m);
      assert b[1..] != [] ==> b[1..][0] == b[1];
    }
  }

  lemma {:induction false} FromSeparated(b: seq<Interval>, m: int)
    requires Separated(b)
    ensures Separated(From(b, m))
  {
    if b != [] && b[0].start < m && b[0].end <= m {
      FromSeparated(b[1..], m);
    }
  }

  /** The block the cut falls into has odd parts that make up a second between them. */
  predicate CutLosesSecond(b: seq<Interval>, m: int) {
    exists e :: e in b && e.start < m < e.end && (m - e.start) % SECOND + (e.end - m) % SECOND >= SECOND
  }

  function Carry(e: Interval, m: int): int {
    if (m - e.start) % SECOND + (e.end - m) % SECOND >= SECOND then 1 else 0
  }

  function CutLoss(b: seq<Interval>, m: int): int {
    if b == [] || b[0].start >= m then 0
    else if b[0].end <= m then CutLoss(b[1..], m)
    else Carry(b[0], m)
  }

  lemma {:induction false} CutLossIs(b: seq<Interval>, m: int)
    requires Separated(b)
    ensures CutLoss(b, m) == if CutLosesSecond(b, m) then 1 else 0
  {
    if b != [] {
      forall e | e in b ensures e == b[0] || (e in b[1..] && b[0].end < e.start) {
        var i :| 0 <= i < |b| && b[i] == e;
        assert i > 0 ==> b[1..][i - 1] == e;
      }
      if b[0].end <= m {
        CutLossIs(b[1..], m);
        assert forall e :: e in b[1..] ==> e in b;
      } else {
        assert b[0] in b;
      }
    }
  }

  lemma {:induction false} CutSeconds(b: seq<Interval>, m: int)
    requires Separated(b)
    ensures SumSeconds(b) == SumSeconds(Before(b, m)) + SumSeconds(From(b, m)) + CutLoss(b, m)
  {
    if b != [] && b[0].start < m {
      if b[0].end <= m {
        CutSeconds(b[1..], m);
        assert ([b[0]] + Before(b[1..], m))[1..] == Before(b[1..], m);
      } else {
        assert ([Interval(m, b[0].end)] + b[1..])[1..] == b[1..];
        CutOne(b[0].start, m, b[0].end);
      }
    }
  }

  lemma CutOne(a: int, m: int, z: int)
    requires a < m < z
    ensures (z - a) / SECOND
            == (m - a) / SECOND + (z - m) / SECOND + if (m - a) % SECOND + (z - m) % SECOND >= SECOND then 1 else 0
  {
  }

  lemma CutBlocks(a: int, m: int, z: int, events: seq<Interval>)
    requires a <= m <= z
    ensures var blocks := Blocks(Clip(a, z, events));
            Separated(blocks)
            && Blocks(Clip(a, m, events)) == Before(blocks, m) && Blocks(Clip(m, z, events)) == From(blocks, m)
  {
    var blocks := Blocks(Clip(a, z, events));
    BlocksCover(a, z, events, 0);
    BeforeSeparated(blocks, m);
    FromSeparated(blocks, m);
    forall t ensures Covered(Before(blocks, m), t) <==> a <= t < m && Covered(events, t) {
      BeforeCovers(blocks, m, t);
      BlocksCover(a, z, events, t);
    }
    forall t ensures Covered(From(blocks, m), t) <==> m <= t < z && Covered(events, t) {
      FromCovers(blocks, m, t);
      BlocksCover(a, z, events, t);
    }
    BlocksByCover(a, m, events, Before(blocks, m));
    BlocksByCover(m, z, events, From(blocks, m));
  }

  /** Cutting a window in two loses at most one second per device, and exactly when the cut falls inside a block
      whose two odd parts make up a second; nothing is lost when all times are whole seconds. */
  lemma SplitAdditivity(a: int, m: int, z: int, events: seq<Interval>)
    requires a <= m <= z
    ensures Trimmed(a, z, events) == Trimmed(a, m, events) + Trimmed(m, z, events)
                                     + if CutLosesSecond(Blocks(Clip(a, z, events)), m) then 1 else 0
    ensures Whole(a) && Whole(m) && Whole(z) && WholeEvents(events) ==>
              Trimmed(a, z, events) == Trimmed(a, m, events) + Trimmed(m, z, events)
  {
    var blocks := Blocks(Clip(a, z, events));
    CutBlocks(a, m, z, events);
    CutSeconds(blocks, m);
    CutLossIs(blocks, m);
    if Whole(a) && Whole(m) && Whole(z) && WholeEvents(events) {
      ClipIsInside(a, z, events);
      BlocksAreWhole(blocks, Clip(a, z, events));
      WholeCutsAreFree(blocks, m);
    }
  }

  lemma WholeCutsAreFree(b: seq<Interval>, m: int)
    requires Whole(m) && WholeEvents(b)
    ensures !CutLosesSecond(b, m)
  {
    forall e | e in b ensures (m - e.start) % SECOND + (e.end - m) % SECOND == 0 {
      assert Whole(e.start) && Whole(e.end);
    }
  }

  // ---- Any ordered partition

  predicate Cuts(c: seq<int>) { |c| >= 2 && forall i, j :: 0 <= i < j < |c| ==> c[i] <= c[j] }

  predicate WholeCuts(c: seq<int>) { forall i :: 0 <= i < |c| ==> Whole(c[i]) }

  function SumOverParts(c: seq<int>, events: seq<Interval>): int
    requires |c| >= 1
  {
    if |c| == 1 then 0 else Trimmed(c[0], c[1], events) + SumOverParts(c[1..], events)
  }

  /** Totals over the parts of any ordered partition add up to the total over the range, short by at most one second
      per inner cut, and exactly for whole seconds. */
  lemma {:induction false} PartitionAdditivity(c: seq<int>, events: seq<Interval>)
    requires Cuts(c)
    ensures SumOverParts(c, events) <= Trimmed(c[0], c[|c| - 1], events) <= SumOverParts(c, events) + |c| - 2
    ensures WholeCuts(c) && WholeEvents(events) ==> SumOverParts(c, events) == Trimmed(c[0], c[|c| - 1], events)
  {
    PartitionLoss(c, events);
    if WholeCuts(c) && WholeEvents(events) { WholePartition(c, events); }
  }

  lemma {:induction false} PartitionLoss(c: seq<int>, events: seq<Interval>)
    requires Cuts(c)
    ensures SumOverParts(c, events) <= Trimmed(c[0], c[|c| - 1], events) <= SumOverParts(c, events) + |c| - 2
  {
    if |c| > 2 {
      LaterCuts(c, events);
      PartitionLoss(c[1..], events);
      CutFirst(c[0], c[1], c[|c| - 1], events);
    } else {
      OnePart(c, events);
    }
  }

  lemma {:induction false} WholePartition(c: seq<int>, events: seq<Interval>)
    requires Cuts(c) && WholeCuts(c) && WholeEvents(events)
    ensures SumOverParts(c, events) == Trimmed(c[0], c[|c| - 1], events)
  {
    if |c| > 2 {
      LaterCuts(c, events);
      WholePartition(c[1..], events);
      CutFirst(c[0], c[1], c[|c| - 1], events);
    } else {
      OnePart(c, events);
    }
  }

  lemma LaterCuts(c: seq<int>, events: seq<Interval>)
    requires Cuts(c) && |c| > 2
    ensures Cuts(c[1..]) && c[1..][0] == c[1] && c[1..][|c[1..]| - 1] == c[|c| - 1] && |c[1..]| == |c| - 1
    ensures WholeCuts(c) ==> WholeCuts(c[1..])
    ensures SumOverParts(c, events) == Trimmed(c[0], c[1], events) + SumOverParts(c[1..], events)
    ensures c[0] <= c[1] <= c[|c| - 1]
  {
  }

  lemma OnePart(c: seq<int>, events: seq<Interval>)
    requires |c| == 2
    ensures SumOverParts(c, events) == Trimmed(c[0], c[1], events)
  {
    assert SumOverParts(c[1..], events) == 0;
  }

  lemma CutFirst(a: int, m: int, z: int, events: seq<Interval>)
    requires a <= m <= z
    ensures 0 <= Trimmed(a, z, events) - Trimmed(a, m, events) - Trimmed(m, z, events) <= 1
    ensures Whole(a) && Whole(m) && Whole(z) && WholeEvents(events) ==>
              Trimmed(a, z, events) == Trimmed(a, m, events) + Trimmed(m, z, events)
  {
    SplitAdditivity(a, m, z, events);
  }
}
