/** The report over a split range against the exact total of the whole range, whatever the times. */
module ReportSplit {
  import opened Trim
  import opened TrimMeasure
  import opened Sums
  import opened Window
  import opened Reports
  import opened ReportBounds

  lemma LiveSpansAreWhole(events: seq<Event>, dim: Dimension, id: nat, d: nat)
    requires WholeTimes(events)
    ensures WholeEvents(LiveSpans(events, dim, id, d))
  {
    forall s | s in LiveSpans(events, dim, id, d) ensures Whole(s.start) && Whole(s.end) {
      LiveSpansAre(events, dim, id, d, s);
    }
  }

  /** Cutting [a, z) at m costs the device a second: one of its merged blocks is split into odd parts making one up. */
  predicate LosesSecond(events: seq<Event>, dim: Dimension, id: nat, a: int, m: int, z: int, d: nat) {
    CutLosesSecond(Blocks(Clip(a, z, LiveSpans(events, dim, id, d))), m)
  }

  function LostBy(events: seq<Event>, dim: Dimension, id: nat, a: int, m: int, z: int): nat -> int {
    (d: nat) => if LosesSecond(events, dim, id, a, m, z, d) then 1 else 0
  }

  /** The seconds a bucket loses by cutting [a, z) at m, at most one per device. */
  ghost function Lost(events: seq<Event>, dim: Dimension, id: nat, a: int, m: int, z: int): int {
    Sum(Devices(events), LostBy(events, dim, id, a, m, z))
  }

  function PartsBy(events: seq<Event>, dim: Dimension, id: nat, a: int, m: int, z: int): nat -> int {
    (d: nat) => LiveBy(events, dim, id, a, m)(d) + LiveBy(events, dim, id, m, z)(d)
  }

  /** Whatever the times: the whole is the parts and what the cut loses. */
  lemma ExactSplits(events: seq<Event>, dim: Dimension, id: nat, a: int, m: int, z: int)
    requires a <= m <= z
    ensures ExactSeconds(events, dim, id, a, z)
            == ExactSeconds(events, dim, id, a, m) + ExactSeconds(events, dim, id, m, z)
                + Lost(events, dim, id, a, m, z)
  {
    var f, g, h := LiveBy(events, dim, id, a, m), LiveBy(events, dim, id, m, z), LiveBy(events, dim, id, a, z);
    var parts, lost := PartsBy(events, dim, id, a, m, z), LostBy(events, dim, id, a, m, z);
    forall d: nat ensures h(d) == parts(d) + lost(d) {
      SplitAdditivity(a, m, z, LiveSpans(events, dim, id, d));
    }
    SumOfSum(Devices(events), f, g, parts);
    SumOfSum(Devices(events), parts, lost, h);
  }

  lemma LostIsFew(events: seq<Event>, dim: Dimension, id: nat, a: int, m: int, z: int)
    requires a <= m <= z
    ensures 0 <= Lost(events, dim, id, a, m, z) <= |Devices(events)|
    ensures Lost(events, dim, id, a, m, z) == 0
            <==> forall d :: d in Devices(events) ==> !LosesSecond(events, dim, id, a, m, z, d)
    ensures Whole(a) && Whole(m) && Whole(z) && WholeTimes(events) ==> Lost(events, dim, id, a, m, z) == 0
    ensures a == m || m == z ==> Lost(events, dim, id, a, m, z) == 0
  {
    SumOfUnits(Devices(events), LostBy(events, dim, id, a, m, z));
    if Whole(a) && Whole(m) && Whole(z) && WholeTimes(events) {
      forall d: nat ensures !LosesSecond(events, dim, id, a, m, z, d) {
        LiveSpansAreWhole(events, dim, id, d);
        SplitAdditivity(a, m, z, LiveSpans(events, dim, id, d));
      }
    }
    if a == m || m == z {
      ExactSplits(events, dim, id, a, m, z);
      EmptyWindow(events, dim, id, m);
    }
  }

  ghost function ExactParts(events: seq<Event>, dim: Dimension, id: nat, raw: seq<Interval>): int {
    if raw == [] then 0 else
      ExactParts(events, dim, id, raw[..|raw| - 1])
          + ExactSeconds(events, dim, id, raw[|raw| - 1].start, raw[|raw| - 1].end)
  }

  lemma {:induction false} RawPartsAreExact(events: seq<Event>, dim: Dimension, id: nat, raw: seq<Interval>)
    ensures At(RawParts(events, dim, NO_FILTERS, raw), id) == ExactParts(events, dim, id, raw)
  {
    if raw != [] {
      RawPartsAreExact(events, dim, id, raw[..|raw| - 1]);
      RawTotalIsExact(events, dim, id, raw[|raw| - 1].start, raw[|raw| - 1].end);
    }
  }

  lemma PartsOfTwo(events: seq<Event>, dim: Dimension, id: nat, u: Interval, v: Interval)
    ensures ExactParts(events, dim, id, [u]) == ExactSeconds(events, dim, id, u.start, u.end)
    ensures ExactParts(events, dim, id, [u, v])
            == ExactSeconds(events, dim, id, u.start, u.end) + ExactSeconds(events, dim, id, v.start, v.end)
  {
    assert [u][..0] == [] && [u, v][..1] == [u];
    assert ExactParts(events, dim, id, []) == 0;
  }

  lemma EdgeParts(events: seq<Event>, dim: Dimension, id: nat, from: int, to: int, closed: Interval, raw: seq<Interval>)
    requires from < to && Partitions(from, to, closed, true, raw)
    ensures ExactParts(events, dim, id, raw)
            == ExactSeconds(events, dim, id, from, closed.start) + ExactSeconds(events, dim, id, closed.end, to)
  {
    var u, v := Interval(from, closed.start), Interval(closed.end, to);
    PartsOfTwo(events, dim, id, u, v);
    PartsOfTwo(events, dim, id, v, u);
    EmptyWindow(events, dim, id, from);
    EmptyWindow(events, dim, id, to);
    assert raw == [] || raw == [u] || raw == [v] || raw == [u, v];
    assert ExactParts(events, dim, id, []) == 0;
  }

  /** The seconds of a bucket lost at the inner cuts of a split. */
  ghost function SplitLoss(events: seq<Event>, dim: Dimension, id: nat, from: int, to: int,
                           closed: Interval, hasClosed: bool, raw: seq<Interval>): int {
    if hasClosed then
      Lost(events, dim, id, from, closed.start, to)
      + Lost(events, dim, id, closed.start, closed.end, to)
    else if |raw| == 2 then Lost(events, dim, id, from, raw[0].end, to)
    else 0
  }

  /** The exact total of the range is that of the closed window, those of the raw windows and what the cuts lose. */
  lemma ExactOverSplit(events: seq<Event>, dim: Dimension, id: nat, from: int, to: int,
                       closed: Interval, hasClosed: bool, raw: seq<Interval>)
    requires from < to && Partitions(from, to, closed, hasClosed, raw) && AllProper(raw)
    ensures ExactSeconds(events, dim, id, from, to)
            == (if hasClosed then ExactSeconds(events, dim, id, closed.start, closed.end) else 0)
               + ExactParts(events, dim, id, raw) + SplitLoss(events, dim, id, from, to, closed, hasClosed, raw)
  {
    if hasClosed {
      EdgeParts(events, dim, id, from, to, closed, raw);
      ExactSplits(events, dim, id, from, closed.start, to);
      ExactSplits(events, dim, id, closed.start, closed.end, to);
    } else if raw == [Interval(from, to)] {
      PartsOfTwo(events, dim, id, raw[0], raw[0]);
    } else {
      assert raw[0] in raw && raw[1] in raw;
      assert raw == [raw[0], raw[1]];
      PartsOfTwo(events, dim, id, raw[0], raw[1]);
      ExactSplits(events, dim, id, from, raw[0].end, to);
    }
  }

  /** One second per device and inner cut at most, and none at all for whole-second times. */
  lemma UpToTwice(d: nat, n: nat)
    requires n <= 2
    ensures d * n == if n == 0 then 0 else if n == 1 then d else d + d
  {
  }

  lemma SplitLossIsFew(events: seq<Event>, dim: Dimension, id: nat, from: int, to: int,
                       closed: Interval, hasClosed: bool, raw: seq<Interval>)
    requires from < to && Partitions(from, to, closed, hasClosed, raw) && AllProper(raw)
             && (hasClosed ==> Aligned(closed))
    ensures 0 <= SplitLoss(events, dim, id, from, to, closed, hasClosed, raw)
                <= |Devices(events)| * (|raw| - if hasClosed then 0 else 1)
    ensures Whole(from) && Whole(to) && WholeTimes(events) ==>
              SplitLoss(events, dim, id, from, to, closed, hasClosed, raw) == 0
  {
    UpToTwice(|Devices(events)|, |raw| - if hasClosed then 0 else 1);
    if hasClosed {
      AlignedIsWhole(closed.start);
      AlignedIsWhole(closed.end);
      LostIsFew(events, dim, id, from, closed.start, to);
      LostIsFew(events, dim, id, closed.start, closed.end, to);
    } else if |raw| == 2 {
      assert raw[0] in raw && raw[1] in raw;
      AlignedIsWhole(raw[0].end);
      LostIsFew(events, dim, id, from, raw[0].end, to);
    }
  }

  lemma EmptyWindow(events: seq<Event>, dim: Dimension, id: nat, t: int)
    ensures ExactSeconds(events, dim, id, t, t) == 0
  {
    var none := LiveBy(events, dim, id, t, t);
    forall d: nat ensures none(d) == 0 { ExactTrimming(t, t, LiveSpans(events, dim, id, d)); }
    SumSubset({}, Devices(events), none);
  }

  /** The report's combination of aggregate and raw windows falls short of the exact total over the whole range, for
      any bucket, by at most what the aggregate leaves out and what the cuts lose; by no more than the cuts lose if on
      every device the durations suffice; and never for whole-second times with nothing carried over into the closed
      window. */
  lemma HybridBoundsExact(events: seq<Event>, dim: Dimension, id: nat, from: int, to: int, now: int,
                          closed: Interval, hasClosed: bool, raw: seq<Interval>)
    requires from < to && Forward(events) && IsSplit(from, to, now, closed, hasClosed, raw)
    ensures var exact := At(Totals(RawRows(events, from, to, NO_FILTERS), dim, from, to), id);
            var reported := At(Hybrid(events, dim, NO_FILTERS, closed, hasClosed, raw), id);
            var lost := SplitLoss(events, dim, id, from, to, closed, hasClosed, raw);
            exact <= reported + (if hasClosed then MostShort(events, dim, id, closed) else 0) + lost
            && ((hasClosed ==> AllSuffice(events, dim, id, closed)) ==> exact <= reported + lost)
            && (Whole(from) && Whole(to) && WholeTimes(events) && (hasClosed ==> NoCarryOver(events, closed)) ==>
               exact <= reported)
  {
    RawTotalIsExact(events, dim, id, from, to);
    ExactOverSplit(events, dim, id, from, to, closed, hasClosed, raw);
    SplitLossIsFew(events, dim, id, from, to, closed, hasClosed, raw);
    HybridIs(events, dim, id, closed, hasClosed, raw);
    if hasClosed { ClosedBounds(events, dim, id, closed); }
  }

  lemma ClosedBounds(events: seq<Event>, dim: Dimension, id: nat, w: Interval)
    requires Proper(w) && Aligned(w) && Forward(events)
    ensures var exact := ExactSeconds(events, dim, id, w.start, w.end);
            var counted := At(AggregateTotals(events, dim, w), id);
            exact <= counted + MostShort(events, dim, id, w)
            && (AllSuffice(events, dim, id, w) ==> exact <= counted)
            && (WholeTimes(events) && NoCarryOver(events, w) ==> exact <= counted)
  {
    AggregateBoundsBucket(events, dim, id, w);
    if WholeTimes(events) && NoCarryOver(events, w) { WholeTimesSuffice(events, dim, id, w); }
  }

  lemma HybridIs(events: seq<Event>, dim: Dimension, id: nat, closed: Interval, hasClosed: bool, raw: seq<Interval>)
    ensures At(Hybrid(events, dim, NO_FILTERS, closed, hasClosed, raw), id)
            == (if hasClosed then At(AggregateTotals(events, dim, closed), id) else 0)
                + ExactParts(events, dim, id, raw)
  {
    RawPartsAreExact(events, dim, id, raw);
  }

  /** With no closed day in the range a bucket of the report is exact if and only if no device loses a second at the
      one midnight the range may be cut at. */
  lemma OpenRangeIsExactIff(events: seq<Event>, dim: Dimension, id: nat, from: int, to: int, now: int,
                            closed: Interval, raw: seq<Interval>)
    requires from < to && IsSplit(from, to, now, closed, false, raw)
    ensures At(Hybrid(events, dim, NO_FILTERS, closed, false, raw), id)
            == At(Totals(RawRows(events, from, to, NO_FILTERS), dim, from, to), id)
            <==> |raw| == 1 || forall d :: d in Devices(events) ==>
                !LosesSecond(events, dim, id, from, raw[0].end, to, d)
  {
    RawTotalIsExact(events, dim, id, from, to);
    ExactOverSplit(events, dim, id, from, to, closed, false, raw);
    HybridIs(events, dim, id, closed, false, raw);
    OpenLoss(events, dim, id, from, to, closed, raw);
  }

  lemma OpenLoss(events: seq<Event>, dim: Dimension, id: nat, from: int, to: int, closed: Interval, raw: seq<Interval>)
    requires from < to && Partitions(from, to, closed, false, raw) && AllProper(raw)
    ensures SplitLoss(events, dim, id, from, to, closed, false, raw) == 0
            <==> |raw| == 1 || forall d :: d in Devices(events) ==>
                !LosesSecond(events, dim, id, from, raw[0].end, to, d)
  {
    if |raw| == 2 {
      assert raw[0] in raw && raw[1] in raw;
      LostIsFew(events, dim, id, from, raw[0].end, to);
    }
  }
}
