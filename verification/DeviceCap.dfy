/** One device: the cap of the aggregate, LEAST of summed durations and window, against the exact merged seconds. */
module DeviceCap {
  import opened Trim
  import opened TrimMeasure
  import opened Sums
  import opened Reports

  // ---- Durations against lengths

  lemma {:induction false} UnionBound(lo: int, hi: int, spans: seq<Interval>)
    requires forall s :: s in spans ==> s.start <= s.end
    ensures |CoveredIn(lo, hi, spans)| <= TotalLength(spans)
  {
    if spans == [] {
      assert CoveredIn(lo, hi, spans) == {};
    } else {
      var init, last := spans[..|spans| - 1], spans[|spans| - 1];
      assert spans == init + [last];
      UnionBound(lo, hi, init);
      InstantsCount(last);
      assert CoveredIn(lo, hi, spans) <= CoveredIn(lo, hi, init) + Instants(last);
      SubsetSize(CoveredIn(lo, hi, spans), CoveredIn(lo, hi, init) + Instants(last));
      UnionSize(CoveredIn(lo, hi, init), Instants(last));
    }
  }

  lemma UnionSize(a: set<int>, b: set<int>)
    ensures |a + b| <= |a| + |b|
  {
    assert a + b == a + (b - a);
    SubsetSize(b - a, b);
  }

  function TotalLength(spans: seq<Interval>): int {
    if spans == [] then 0 else TotalLength(spans[..|spans| - 1]) + Length(spans[|spans| - 1])
  }

  const HALF_SECOND := SECOND / 2

  lemma {:induction false} DurationsAgainstLength(spans: seq<Interval>)
    requires forall s :: s in spans ==> s.start <= s.end
    ensures TotalLength(spans) <= SECOND * SumDurations(spans) + HALF_SECOND * |spans|
    ensures WholeEvents(spans) ==> TotalLength(spans) == SECOND * SumDurations(spans)
    ensures SumDurations(spans) >= 0
  {
    if spans != [] {
      var init, last := spans[..|spans| - 1], spans[|spans| - 1];
      assert last in spans && forall s :: s in init ==> s in spans;
      DurationsAgainstLength(init);
      OneDuration(last);
      AddDuration(TotalLength(init), SumDurations(init), |init|, Length(last), DurationSeconds(last));
      assert WholeEvents(spans) ==> WholeEvents(init) && WholeEvents([last]);
    }
  }

  lemma AddDuration(length: int, durations: int, n: nat, more: int, d: int)
    requires length <= SECOND * durations + HALF_SECOND * n && more <= SECOND * d + HALF_SECOND
    ensures length + more <= SECOND * (durations + d) + HALF_SECOND * (n + 1)
    ensures length == SECOND * durations && more == SECOND * d ==> length + more == SECOND * (durations + d)
  {
  }

  lemma OneDuration(e: Interval)
    requires e.start <= e.end
    ensures 0 <= DurationSeconds(e) && Length(e) <= SECOND * DurationSeconds(e) + HALF_SECOND
    ensures WholeEvents([e]) ==> Length(e) == SECOND * DurationSeconds(e)
  {
    assert [e][0] == e;
  }

  // ---- The bound

  /** Rounding the durations one by one gives at least the whole seconds they can cover of the window, `carried` more
      of it being covered by events the sum does not count. */
  predicate DurationsSuffice(w: Interval, spans: seq<Interval>, carried: int) {
    LeastOf((TotalLength(spans) + carried) / SECOND, WindowSeconds(w)) <= SumDurations(spans)
  }

  /** Half a second for each event the sum rounds, and what it does not count. */
  function Shortfall(n: nat, carried: int): int { (HALF_SECOND * n + carried) / SECOND }

  lemma UnderLength(seconds: int, length: int, carried: int, durations: int, n: nat)
    requires SECOND * seconds <= length + carried && length <= SECOND * durations + HALF_SECOND * n
    ensures seconds <= durations + Shortfall(n, carried)
    ensures seconds <= (length + carried) / SECOND
  {
  }

  lemma UnderLeast(seconds: int, durations: int, window: int, extra: int)
    requires seconds <= durations + extra && seconds <= window && extra >= 0
    ensures seconds <= LeastOf(durations, window) + extra
  {
  }

  lemma SufficientLeast(seconds: int, most: int, durations: int, window: int)
    requires seconds <= most && seconds <= window && LeastOf(most, window) <= durations
    ensures seconds <= LeastOf(durations, window)
  {
  }

  lemma ShortfallIsPositive(n: nat, carried: nat)
    ensures Shortfall(n, carried) >= 0 && Shortfall(n, 0) == n / 2
  {
  }

  lemma CoverUnderWindow(w: Interval, live: seq<Interval>)
    requires Proper(w)
    ensures SECOND * Trimmed(w.start, w.end, live) <= |CoveredIn(w.start, w.end, live)|
    ensures Trimmed(w.start, w.end, live) <= WindowSeconds(w)
  {
    ExactTrimming(w.start, w.end, live);
  }

  /** Whatever covers at most the length of the counted events and `carried` more stays under their cap. */
  lemma CoverUnderCap(w: Interval, live: seq<Interval>, counted: seq<Interval>, carried: nat)
    requires Proper(w) && |CoveredIn(w.start, w.end, live)| <= TotalLength(counted) + carried
    requires forall s :: s in counted ==> s.start <= s.end
    ensures Trimmed(w.start, w.end, live)
            <= LeastOf(SumDurations(counted), WindowSeconds(w)) + Shortfall(|counted|, carried)
    ensures DurationsSuffice(w, counted, carried) ==>
              Trimmed(w.start, w.end, live) <= LeastOf(SumDurations(counted), WindowSeconds(w))
  {
    var seconds, length, durations := Trimmed(w.start, w.end, live), TotalLength(counted), SumDurations(counted);
    CoverUnderWindow(w, live);
    DurationsAgainstLength(counted);
    UnderLength(seconds, length, carried, durations, |counted|);
    ShortfallIsPositive(|counted|, carried);
    UnderLeast(seconds, durations, WindowSeconds(w), Shortfall(|counted|, carried));
    if DurationsSuffice(w, counted, carried) {
      SufficientLeast(seconds, (length + carried) / SECOND, durations, WindowSeconds(w));
    }
  }

  /** For one device and any window, the exact merge is at most the window and, up to half a second of rounding per
      event, at most the cap; and at most the cap itself if the durations suffice. */
  lemma CapBoundsExact(w: Interval, spans: seq<Interval>)
    requires Proper(w) && forall s :: s in spans ==> s.start <= s.end
    ensures Trimmed(w.start, w.end, spans) <= LeastOf(SumDurations(spans), WindowSeconds(w)) + |spans| / 2
    ensures Trimmed(w.start, w.end, spans) <= WindowSeconds(w)
    ensures DurationsSuffice(w, spans, 0) ==>
              Trimmed(w.start, w.end, spans) <= LeastOf(SumDurations(spans), WindowSeconds(w))
  {
    UnionBound(w.start, w.end, spans);
    CoverUnderWindow(w, spans);
    CoverUnderCap(w, spans, spans, 0);
    ShortfallIsPositive(|spans|, 0);
  }

  /** Whole-second events always suffice. */
  lemma WholeDurationsSuffice(w: Interval, spans: seq<Interval>)
    requires WholeEvents(spans) && forall s :: s in spans ==> s.start <= s.end
    ensures DurationsSuffice(w, spans, 0)
  {
    DurationsAgainstLength(spans);
  }

  // ---- When the bound holds however the events are placed

  /** The same lengths, moved about inside the window. */
  predicate Placement(w: Interval, spans: seq<Interval>, placed: seq<Interval>) {
    |placed| == |spans|
    && forall i :: 0 <= i < |spans| ==>
         Length(placed[i]) == Length(spans[i]) >= 0 && w.start <= placed[i].start && placed[i].end <= w.end
  }

  lemma {:induction false} PlacementKeepsSums(w: Interval, spans: seq<Interval>, placed: seq<Interval>)
    requires Placement(w, spans, placed)
    ensures TotalLength(placed) == TotalLength(spans) && SumDurations(placed) == SumDurations(spans)
  {
    if spans != [] {
      var n := |spans| - 1;
      PlacementKeepsSums(w, spans[..n], placed[..n]);
      assert Length(placed[n]) == Length(spans[n]);
    }
  }

  /** Where the spans end when laid end to end from the start of the window, and no further than its end. */
  function LaidUpTo(w: Interval, spans: seq<Interval>): int {
    if w.start + TotalLength(spans) < w.end then w.start + TotalLength(spans) else w.end
  }

  function LayAt(w: Interval, at: int, length: int): Interval {
    var start := if at <= w.end - length then at else w.end - length;
    Interval(start, start + length)
  }

  function Laid(w: Interval, spans: seq<Interval>): seq<Interval> {
    if spans == [] then []
    else
      var init, last := spans[..|spans| - 1], spans[|spans| - 1];
      Laid(w, init) + [LayAt(w, LaidUpTo(w, init), Length(last))]
  }

  predicate Fit(w: Interval, spans: seq<Interval>) { forall s :: s in spans ==> 0 <= Length(s) <= Length(w) }

  lemma {:induction false} LaidIsPlacement(w: Interval, spans: seq<Interval>)
    requires Proper(w) && Fit(w, spans)
    ensures Placement(w, spans, Laid(w, spans)) && TotalLength(spans) >= 0
  {
    if spans != [] {
      var init, last := spans[..|spans| - 1], spans[|spans| - 1];
      assert last in spans && forall s :: s in init ==> s in spans;
      LaidIsPlacement(w, init);
    }
  }

  lemma LayOneMore(w: Interval, at: int, length: int, t: int)
    requires w.start <= at <= w.end && 0 <= length <= Length(w)
    ensures w.start <= t < (if at + length < w.end then at + length else w.end)
            <==> w.start <= t < at || Contains(LayAt(w, at, length), t)
  {
  }

  /** Laid end to end they cover the window from its start without a gap. */
  lemma {:induction false} LaidCovers(w: Interval, spans: seq<Interval>, t: int)
    requires Proper(w) && Fit(w, spans)
    ensures Covered(Laid(w, spans), t) <==> w.start <= t < LaidUpTo(w, spans)
  {
    if spans != [] {
      var init, last := spans[..|spans| - 1], spans[|spans| - 1];
      assert last in spans && forall s :: s in init ==> s in spans;
      LaidCovers(w, init, t);
      LaidIsPlacement(w, init);
      LayOneMore(w, LaidUpTo(w, init), Length(last), t);
      var e := LayAt(w, LaidUpTo(w, init), Length(last));
      assert forall s :: s in Laid(w, init) + [e] <==> s in Laid(w, init) || s == e;
    }
  }

  /** The one block they form. */
  function LaidBlock(w: Interval, spans: seq<Interval>): seq<Interval>
    requires Proper(w) && Fit(w, spans)
  {
    if w.start < LaidUpTo(w, spans) then [Interval(w.start, LaidUpTo(w, spans))] else []
  }

  lemma LaidIsOneBlock(w: Interval, spans: seq<Interval>)
    requires Proper(w) && Whole(w.start) && Whole(w.end) && Fit(w, spans)
    ensures Trimmed(w.start, w.end, Laid(w, spans)) == SumSeconds(LaidBlock(w, spans))
  {
    LaidIsPlacement(w, spans);
    var block := LaidBlock(w, spans);
    forall t ensures Covered(block, t) <==> w.start <= t < w.end && Covered(Laid(w, spans), t) {
      LaidCovers(w, spans, t);
      assert block != [] ==> block[0] in block;
    }
    BlocksByCover(w.start, w.end, Laid(w, spans), block);
  }

  lemma LaidSeconds(w: Interval, spans: seq<Interval>)
    requires Proper(w) && Whole(w.start) && Whole(w.end) && Fit(w, spans)
    ensures Trimmed(w.start, w.end, Laid(w, spans)) == LeastOf(TotalLength(spans) / SECOND, WindowSeconds(w))
  {
    LaidIsPlacement(w, spans);
    LaidIsOneBlock(w, spans);
    var block, end := LaidBlock(w, spans), LaidUpTo(w, spans);
    assert SumSeconds(block) == (end - w.start) / SECOND by {
      assert block != [] ==> block[1..] == [];
    }
    WholeWindow(w);
    LaidLength(TotalLength(spans), Length(w), WindowSeconds(w));
  }

  lemma LaidLength(total: int, length: int, window: int)
    requires total >= 0 && length == SECOND * window
    ensures (if total < length then total else length) / SECOND == LeastOf(total / SECOND, window)
  {
  }

  /** However events of these lengths are placed in a whole-second window, the exact merge stays under the cap, if and
      only if their durations suffice. */
  lemma CapBoundsEveryPlacementIff(w: Interval, spans: seq<Interval>)
    requires Proper(w) && Whole(w.start) && Whole(w.end) && Fit(w, spans)
    ensures (forall placed: seq<Interval> :: Placement(w, spans, placed) ==>
               Trimmed(w.start, w.end, placed) <= LeastOf(SumDurations(placed), WindowSeconds(w)))
            <==> DurationsSuffice(w, spans, 0)
  {
    if DurationsSuffice(w, spans, 0) {
      forall placed: seq<Interval> | Placement(w, spans, placed)
        ensures Trimmed(w.start, w.end, placed) <= LeastOf(SumDurations(placed), WindowSeconds(w))
      {
        PlacementKeepsSums(w, spans, placed);
        assert forall s :: s in placed ==> s.start <= s.end;
        CapBoundsExact(w, placed);
      }
    } else {
      LaidIsPlacement(w, spans);
      LaidSeconds(w, spans);
      PlacementKeepsSums(w, spans, Laid(w, spans));
      assert Placement(w, spans, Laid(w, spans));
    }
  }

  // ---- When the cap is exact

  /** No instant falls into two of the spans. */
  ghost predicate Disjoint(spans: seq<Interval>) {
    forall i, j, t :: 0 <= i < j < |spans| && Contains(spans[i], t) ==> !Contains(spans[j], t)
  }

  lemma DisjointAppend(init: seq<Interval>, last: Interval)
    ensures Disjoint(init + [last]) <==> Disjoint(init) && forall t :: Covered(init, t) ==> !Contains(last, t)
  {
    var all := init + [last];
    assert all[|init|] == last && forall i :: 0 <= i < |init| ==> all[i] == init[i];
    assert forall i :: 0 <= i < |init| ==> init[i] in init;
  }

  /** The union is as long as the spans together exactly when they are disjoint. */
  lemma {:induction false} UnionIsFullIff(lo: int, hi: int, spans: seq<Interval>)
    requires forall s :: s in spans ==> lo <= s.start <= s.end <= hi
    ensures |CoveredIn(lo, hi, spans)| == TotalLength(spans) <==> Disjoint(spans)
  {
    if spans == [] {
      assert CoveredIn(lo, hi, spans) == {};
    } else {
      var init, last := spans[..|spans| - 1], spans[|spans| - 1];
      assert spans == init + [last];
      assert last in spans && forall s :: s in init ==> s in spans;
      UnionIsFullIff(lo, hi, init);
      UnionBound(lo, hi, init);
      DisjointAppend(init, last);
      AddSpan(lo, hi, init, last);
    }
  }

  lemma AddSpan(lo: int, hi: int, init: seq<Interval>, last: Interval)
    requires forall s :: s in init ==> lo <= s.start <= s.end <= hi
    requires lo <= last.start <= last.end <= hi
    ensures |CoveredIn(lo, hi, init + [last])| <= |CoveredIn(lo, hi, init)| + Length(last)
    ensures |CoveredIn(lo, hi, init + [last])| == |CoveredIn(lo, hi, init)| + Length(last)
            <==> forall t :: Covered(init, t) ==> !Contains(last, t)
  {
    var spans, before, added := init + [last], CoveredIn(lo, hi, init), Instants(last);
    assert forall s :: s in spans <==> s in init || s == last;
    assert CoveredIn(lo, hi, spans) == before + added;
    assert forall t :: Covered(init, t) ==> t in before;
    InstantsCount(last);
    assert |before + added| == |before| + |added| - |before * added|;
    if before * added != {} {
      var t :| t in before * added;
      assert Covered(init, t) && Contains(last, t);
    } else {
      forall t | Covered(init, t) ensures !Contains(last, t) {
        assert t in before;
        assert Contains(last, t) ==> t in added && t in before * added;
      }
    }
  }

  ghost predicate Fills(spans: seq<Interval>, w: Interval) { forall t :: Contains(w, t) ==> Covered(spans, t) }

  lemma FillsIff(w: Interval, spans: seq<Interval>)
    requires Proper(w)
    ensures |CoveredIn(w.start, w.end, spans)| <= Length(w)
    ensures |CoveredIn(w.start, w.end, spans)| == Length(w) <==> Fills(spans, w)
  {
    var covered := CoveredIn(w.start, w.end, spans);
    InstantsCount(w);
    assert covered <= Instants(w);
    var missed := Instants(w) - covered;
    assert Instants(w) == covered + missed;
    assert |Instants(w)| == |covered| + |missed|;
    forall t ensures t in missed <==> Contains(w, t) && !Covered(spans, t) {}
    assert missed == {} <==> forall t :: t !in missed;
  }

  /** For whole-second events inside the window the cap is exact if and only if the device's events do not overlap or
      their union fills the window. */
  lemma CapIsExactIff(w: Interval, spans: seq<Interval>)
    requires Proper(w) && Whole(w.start) && Whole(w.end) && WholeEvents(spans)
    requires forall s :: s in spans ==> w.start <= s.start <= s.end <= w.end
    ensures Trimmed(w.start, w.end, spans) == LeastOf(SumDurations(spans), WindowSeconds(w))
            <==> Disjoint(spans) || Fills(spans, w)
  {
    ExactTrimming(w.start, w.end, spans);
    DurationsAgainstLength(spans);
    UnionBound(w.start, w.end, spans);
    UnionIsFullIff(w.start, w.end, spans);
    FillsIff(w, spans);
    WholeWindow(w);
    LeastIsMet(Trimmed(w.start, w.end, spans), SumDurations(spans), WindowSeconds(w),
               |CoveredIn(w.start, w.end, spans)|, TotalLength(spans), Length(w));
  }

  lemma WholeWindow(w: Interval)
    requires Proper(w) && Whole(w.start) && Whole(w.end)
    ensures Length(w) == SECOND * WindowSeconds(w)
  {
  }

  lemma LeastIsMet(seconds: int, durations: int, window: int, covered: int, total: int, length: int)
    requires covered == SECOND * seconds && total == SECOND * durations && length == SECOND * window
    requires covered <= total && covered <= length
    ensures seconds == LeastOf(durations, window) <==> covered == total || covered == length
  {
  }

  /** Of two coverages, one within the other, the totals agree exactly when the coverages do. */
  lemma SameTotalIff(w: Interval, live: seq<Interval>, counted: seq<Interval>)
    requires Proper(w) && Whole(w.start) && Whole(w.end) && WholeEvents(live) && WholeEvents(counted)
    requires CoveredIn(w.start, w.end, live) <= CoveredIn(w.start, w.end, counted)
    ensures Trimmed(w.start, w.end, live) <= Trimmed(w.start, w.end, counted)
    ensures Trimmed(w.start, w.end, live) == Trimmed(w.start, w.end, counted)
            <==> forall t :: Contains(w, t) && Covered(counted, t) ==> Covered(live, t)
  {
    var some, all := CoveredIn(w.start, w.end, live), CoveredIn(w.start, w.end, counted);
    ExactTrimming(w.start, w.end, live);
    ExactTrimming(w.start, w.end, counted);
    var missed := all - some;
    assert all == some + missed;
    assert |all| == |some| + |missed|;
    forall t ensures t in missed <==> Contains(w, t) && Covered(counted, t) && !Covered(live, t) {}
    assert missed == {} <==> forall t :: t !in missed;
  }

  /** The chain from the exact total to the cap loses nothing: not in rounding the merged blocks, not to tombstones,
      not to overlaps, not in rounding the durations.  `seen` and `all` are the instants of the window covered by live
      events and by any event. */
  ghost predicate NothingLost(w: Interval, live: seq<Interval>, seen: set<int>, all: set<int>, counted: seq<Interval>,
                              carried: int) {
    Trimmed(w.start, w.end, live) == |seen| / SECOND == |all| / SECOND
    && |all| / SECOND == LeastOf((TotalLength(counted) + carried) / SECOND, WindowSeconds(w))
    && LeastOf((TotalLength(counted) + carried) / SECOND, WindowSeconds(w))
       == LeastOf(SumDurations(counted), WindowSeconds(w))
  }

  lemma FloorChain(seconds: int, seen: int, all: int, total: int, window: int, durations: int)
    requires SECOND * seconds <= seen <= all <= total && all <= SECOND * window + (SECOND - 1)
    requires LeastOf(total / SECOND, window) <= durations
    ensures seconds == LeastOf(durations, window)
            <==> seconds == seen / SECOND == all / SECOND && all / SECOND == LeastOf(total / SECOND, window)
                 && LeastOf(total / SECOND, window) == LeastOf(durations, window)
  {
  }

  /** For any times: where the durations suffice the cap is exact if and only if nothing is lost. */
  lemma CapIsExactIffNothingLost(w: Interval, live: seq<Interval>, all: set<int>, counted: seq<Interval>, carried: nat)
    requires Proper(w) && Whole(w.start) && Whole(w.end) && DurationsSuffice(w, counted, carried)
    requires CoveredIn(w.start, w.end, live) <= all <= Instants(w) && |all| <= TotalLength(counted) + carried
    ensures Trimmed(w.start, w.end, live) == LeastOf(SumDurations(counted), WindowSeconds(w))
            <==> NothingLost(w, live, CoveredIn(w.start, w.end, live), all, counted, carried)
  {
    var seen := CoveredIn(w.start, w.end, live);
    CoverUnderWindow(w, live);
    SubsetSize(seen, all);
    SubsetSize(all, Instants(w));
    InstantsCount(w);
    WholeWindow(w);
    FloorChain(Trimmed(w.start, w.end, live), |seen|, |all|, TotalLength(counted) + carried, WindowSeconds(w),
               SumDurations(counted));
  }
}
