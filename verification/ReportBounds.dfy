/** What the report totals mean: filtering commutes with grouping, the grand total
is the listing's, and the capped aggregate bounds the exact merge, bucket by
bucket and over the whole split range. */
module ReportBounds {
  import opened Keyset
  import opened Trim
  import opened TrimMeasure
  import opened Sums
  import opened Window
  import opened Reports
  import opened DeviceCap

  // ---- Filtering commutes with grouping

  function WithOwn(dim: Dimension, f: Filters, id: nat): Filters
    requires dim != ByProject
  {
    if dim == ByCategory then f.(category := id) else f.(app := id)
  }

  lemma {:induction false} FilteredSpans(events: seq<Event>, dim: Dimension, f: Filters, from: int, to: int, id: nat,
                                         d: nat)
    requires dim != ByProject && id != 0 && OwnFilter(dim, f) == 0
    ensures Spans(RawRows(events, from, to, WithOwn(dim, f, id)), dim, id, d)
            == Spans(RawRows(events, from, to, f), dim, id, d)
  {
    if events != [] {
      var init, e := events[..|events| - 1], events[|events| - 1];
      FilteredSpans(events[..|events| - 1], dim, f, from, to, id, d);
      AppendRow(RawRows(init, from, to, f), dim, e, id, d);
      AppendRow(RawRows(init, from, to, WithOwn(dim, f, id)), dim, e, id, d);
    }
  }

  lemma {:induction false} RowsAre(events: seq<Event>, from: int, to: int, f: Filters)
    ensures forall e :: e in RawRows(events, from, to, f) <==> e in events && Selected(e, from, to, f)
  {
    if events != [] {
      RowsAre(events[..|events| - 1], from, to, f);
      assert events == events[..|events| - 1] + [events[|events| - 1]];
    }
  }

  lemma FilteredDevices(events: seq<Event>, dim: Dimension, f: Filters, from: int, to: int, id: nat)
    requires dim != ByProject && id != 0 && OwnFilter(dim, f) == 0
    ensures DevicesOf(RawRows(events, from, to, WithOwn(dim, f, id)), dim, id)
            == DevicesOf(RawRows(events, from, to, f), dim, id)
    ensures Ids(RawRows(events, from, to, WithOwn(dim, f, id)), dim) == Ids(RawRows(events, from, to, f), dim) * {id}
  {
    RowsAre(events, from, to, f);
    RowsAre(events, from, to, WithOwn(dim, f, id));
  }

  /** Filtering rows by one bucket before grouping is picking that bucket afterwards. */
  lemma FilterCommutes(events: seq<Event>, dim: Dimension, f: Filters, from: int, to: int, id: nat)
    requires dim != ByProject && id != 0 && OwnFilter(dim, f) == 0
    ensures Totals(RawRows(events, from, to, WithOwn(dim, f, id)), dim, from, to)
            == Only(Totals(RawRows(events, from, to, f), dim, from, to), id)
  {
    var all, mine := RawRows(events, from, to, f), RawRows(events, from, to, WithOwn(dim, f, id));
    FilteredDevices(events, dim, f, from, to, id);
    forall d: nat | d in DevicesOf(mine, dim, id)
      ensures TrimmedBy(mine, dim, id, from, to)(d) == TrimmedBy(all, dim, id, from, to)(d)
    {
      FilteredSpans(events, dim, f, from, to, id, d);
    }
    SumSame(DevicesOf(mine, dim, id), TrimmedBy(mine, dim, id, from, to), TrimmedBy(all, dim, id, from, to));
    SameMap(Totals(mine, dim, from, to), Only(Totals(all, dim, from, to), id));
  }

  lemma OnlyMerged(a: map<nat, int>, b: map<nat, int>, id: nat)
    ensures Only(Merged(a, b), id) == Merged(Only(a, id), Only(b, id))
    ensures Only(Only(a, id), id) == Only(a, id)
  {
  }

  lemma {:induction false} FilteredParts(events: seq<Event>, dim: Dimension, f: Filters, raw: seq<Interval>, id: nat)
    requires dim != ByProject && id != 0 && OwnFilter(dim, f) == 0
    ensures RawParts(events, dim, WithOwn(dim, f, id), raw) == Only(RawParts(events, dim, f, raw), id)
  {
    if raw != [] {
      var w := raw[|raw| - 1];
      FilteredParts(events, dim, f, raw[..|raw| - 1], id);
      FilterCommutes(events, dim, f, w.start, w.end, id);
      OnlyMerged(RawParts(events, dim, f, raw[..|raw| - 1]), RawPart(events, dim, f, w), id);
    }
  }

  /** The whole report, asked for one category (or app), is the unfiltered report restricted to it. */
  lemma FilteredReport(events: seq<Event>, dim: Dimension, f: Filters, closed: Interval, hasClosed: bool,
                       raw: seq<Interval>, id: nat)
    requires dim != ByProject && id != 0 && OwnFilter(dim, f) == 0
    ensures Only(Hybrid(events, dim, WithOwn(dim, f, id), closed, hasClosed, raw), id)
            == Only(Hybrid(events, dim, f, closed, hasClosed, raw), id)
  {
    var aggregate := if hasClosed then AggregateTotals(events, dim, closed) else map[];
    FilteredParts(events, dim, f, raw, id);
    OnlyMerged(aggregate, RawParts(events, dim, f, raw), id);
    OnlyMerged(aggregate, RawParts(events, dim, WithOwn(dim, f, id), raw), id);
    OnlyMerged(RawParts(events, dim, f, raw), map[], id);
  }

  // ---- The grand total is the listing's

  function ListedSeconds(listing: seq<Pos>): int {
    if listing == [] then 0 else -listing[0].major + ListedSeconds(listing[1..])
  }

  lemma {:induction false} ListedAre(m: map<nat, int>, listing: seq<Pos>, left: set<nat>)
    requires Ascending(listing) && left <= m.Keys
    requires Elements(listing) == set id | id in left :: Rank(id, m[id])
    ensures ListedSeconds(listing) == Sum(left, AtBy(m))
    decreases listing
  {
    if listing == [] {
      assert forall x :: x !in Elements(listing);
      assert forall id :: id in left ==> Rank(id, m[id]) in Elements(listing);
    } else {
      var r := listing[0];
      assert r in Elements(listing);
      var id :| id in left && Rank(id, m[id]) == r;
      RestListed(m, listing, left, id);
      ListedAre(m, listing[1..], left - {id});
      SumRemove(left, AtBy(m), id);
    }
  }

  lemma RestListed(m: map<nat, int>, listing: seq<Pos>, left: set<nat>, id: nat)
    requires Ascending(listing) && left <= m.Keys && id in left && listing != [] && listing[0] == Rank(id, m[id])
    requires Elements(listing) == set id | id in left :: Rank(id, m[id])
    ensures Elements(listing[1..]) == set k | k in left - {id} :: Rank(k, m[k])
  {
    var rest := set k | k in left - {id} :: Rank(k, m[k]);
    forall x ensures x in listing[1..] <==> x in rest {
      if x in listing[1..] {
        assert x in Elements(listing) && x != listing[0];
        var k :| k in left && Rank(k, m[k]) == x;
        assert k in left - {id};
      }
      if x in rest {
        var k :| k in left - {id} && Rank(k, m[k]) == x;
        assert k in left;
        assert x in Elements(listing) && x != listing[0];
      }
    }
  }

  /** Summary's total is the sum of the buckets it lists. */
  lemma GrandTotalIsListed(m: map<nat, int>)
    ensures ListedSeconds(Sorted(Ranks(m))) == Sum(m.Keys, AtBy(m))
  {
    ListedAre(m, Sorted(Ranks(m)), m.Keys);
  }

  /** The listing has every bucket once, the largest first and equal ones by id. */
  lemma LargestFirst(m: map<nat, int>, i: nat, j: nat)
    requires i < j < |Sorted(Ranks(m))|
    ensures |Sorted(Ranks(m))| == |m|
    ensures var a, b := Sorted(Ranks(m))[i].minor, Sorted(Ranks(m))[j].minor;
            a in m && b in m && (m[a] > m[b] || (m[a] == m[b] && a < b))
  {
    var all := Sorted(Ranks(m));
    assert all[i] in Elements(all) && all[j] in Elements(all);
    RanksCount(m, m.Keys);
    assert Ranks(m) == set id | id in m.Keys && id in m :: Rank(id, m[id]);
  }

  lemma {:induction false} RanksCount(m: map<nat, int>, keys: set<nat>)
    requires keys <= m.Keys
    ensures |set id | id in keys && id in m :: Rank(id, m[id])| == |keys|
    decreases keys
  {
    var ranks := set id | id in keys && id in m :: Rank(id, m[id]);
    if keys != {} {
      var k :| k in keys;
      RanksCount(m, keys - {k});
      var less := set id | id in keys - {k} && id in m :: Rank(id, m[id]);
      assert ranks == less + {Rank(k, m[k])};
      assert Rank(k, m[k]) !in less;
    }
  }

  // ---- The bound lifted to buckets and to the whole report

  /** No live event that started before the window reaches into it. */
  predicate NoCarryOver(events: seq<Event>, w: Interval) {
    forall e :: e in events && !e.deleted && e.span.start < w.start ==> e.span.end <= w.start
  }

  /** No event ends before it starts; ingestion refuses those. */
  predicate Forward(events: seq<Event>) { forall e :: e in events ==> e.span.start <= e.span.end }

  predicate WholeTimes(events: seq<Event>) { forall e :: e in events ==> Whole(e.span.start) && Whole(e.span.end) }

  /** The live spans of one bucket and device, whatever the window. */
  function LiveSpans(events: seq<Event>, dim: Dimension, id: nat, d: nat): seq<Interval> {
    if events == [] then [] else
      var init, e := LiveSpans(events[..|events| - 1], dim, id, d), events[|events| - 1];
      if !e.deleted && Key(dim, e) == id && e.device == d then init + [e.span] else init
  }

  lemma {:induction false} LiveSpansAre(events: seq<Event>, dim: Dimension, id: nat, d: nat, s: Interval)
    ensures s in LiveSpans(events, dim, id, d) <==>
              exists e :: e in events && !e.deleted && Key(dim, e) == id && e.device == d && e.span == s
  {
    if events != [] {
      LiveSpansAre(events[..|events| - 1], dim, id, d, s);
      assert events == events[..|events| - 1] + [events[|events| - 1]];
    }
  }

  /** The spans an exact total measures, column by column: live events of the device with the bucket's category, app or
      project, as the dimension has it. */
  lemma LiveSpansByColumn(events: seq<Event>, dim: Dimension, id: nat, d: nat, s: Interval)
    ensures s in LiveSpans(events, dim, id, d) <==>
              exists e :: e in events && !e.deleted && e.device == d && e.span == s
                          && (dim == ByCategory ==> e.category == id) && (dim == ByApp ==> e.app == id)
                          && (dim == ByProject ==> e.project == id)
  {
    LiveSpansAre(events, dim, id, d, s);
    assert forall e: Event :: Key(dim, e) == id <==>
             (dim == ByCategory ==> e.category == id) && (dim == ByApp ==> e.app == id)
             && (dim == ByProject ==> e.project == id);
  }

  lemma {:induction false} SpansAre(rows: seq<Event>, dim: Dimension, id: nat, d: nat, s: Interval)
    ensures s in Spans(rows, dim, id, d) <==>
              exists e :: e in rows && Key(dim, e) == id && e.device == d && e.span == s
  {
    if rows != [] {
      SpansAre(rows[..|rows| - 1], dim, id, d, s);
      assert rows == rows[..|rows| - 1] + [rows[|rows| - 1]];
    }
  }

  /** Rows the query leaves out cover nothing in the window. */
  lemma RawSpansCover(events: seq<Event>, dim: Dimension, from: int, to: int, id: nat, d: nat)
    ensures Trimmed(from, to, Spans(RawRows(events, from, to, NO_FILTERS), dim, id, d))
            == Trimmed(from, to, LiveSpans(events, dim, id, d))
  {
    var rows := RawRows(events, from, to, NO_FILTERS);
    var mine, live := Spans(rows, dim, id, d), LiveSpans(events, dim, id, d);
    RowsAre(events, from, to, NO_FILTERS);
    forall t | from <= t < to ensures Covered(mine, t) <==> Covered(live, t) {
      if s :| s in mine && Contains(s, t) {
        SpansAre(rows, dim, id, d, s);
        LiveSpansAre(events, dim, id, d, s);
      }
      if s :| s in live && Contains(s, t) {
        LiveSpansAre(events, dim, id, d, s);
        SpansAre(rows, dim, id, d, s);
      }
    }
    assert CoveredIn(from, to, mine) == CoveredIn(from, to, live);
    OnlyTheUnionMatters(from, to, mine, live);
  }

  function LiveBy(events: seq<Event>, dim: Dimension, id: nat, from: int, to: int): nat -> int {
    (d: nat) => Trimmed(from, to, LiveSpans(events, dim, id, d))
  }

  /** One bucket's exact total, over all devices that ever appear. */
  ghost function ExactSeconds(events: seq<Event>, dim: Dimension, id: nat, from: int, to: int): int {
    Sum(Devices(events), LiveBy(events, dim, id, from, to))
  }

  lemma RawTotalIsExact(events: seq<Event>, dim: Dimension, id: nat, from: int, to: int)
    ensures At(Totals(RawRows(events, from, to, NO_FILTERS), dim, from, to), id)
            == ExactSeconds(events, dim, id, from, to)
  {
    var rows := RawRows(events, from, to, NO_FILTERS);
    RowsAre(events, from, to, NO_FILTERS);
    var some := DevicesOf(rows, dim, id);
    assert some <= Devices(events);
    forall d: nat ensures TrimmedBy(rows, dim, id, from, to)(d) == LiveBy(events, dim, id, from, to)(d)
      ensures d !in some ==> LiveBy(events, dim, id, from, to)(d) == 0
    {
      RawSpansCover(events, dim, from, to, id, d);
      if d !in some { NoSpans(rows, dim, id, d); }
    }
    SumSame(some, TrimmedBy(rows, dim, id, from, to), LiveBy(events, dim, id, from, to));
    SumSubset(some, Devices(events), LiveBy(events, dim, id, from, to));
    if id !in Ids(rows, dim) {
      assert forall e :: e in rows ==> Key(dim, e) in Ids(rows, dim);
      assert some == {};
    }
  }

  // ---- Closed window, one bucket

  lemma {:induction false} AggregateRowsAre(events: seq<Event>, w: Interval)
    requires Aligned(w)
    ensures forall e :: e in AggregateRows(events, w) <==> e in events && w.start <= e.span.start < w.end
  {
    if events != [] {
      AggregateRowsAre(events[..|events| - 1], w);
      var e := events[|events| - 1];
      assert events == events[..|events| - 1] + [e];
      StartsOnDay(w, e.span.start);
    }
  }

  lemma StartsOnDay(w: Interval, t: int)
    requires Aligned(w)
    ensures w.start <= DayStart(t) < w.end <==> w.start <= t < w.end
  {
  }

  function Earlier(spans: seq<Interval>, t: int): seq<Interval> {
    if spans == [] then []
    else
      var init, last := Earlier(spans[..|spans| - 1], t), spans[|spans| - 1];
      if last.start < t then init + [last] else init
  }

  lemma {:induction false} EarlierAre(spans: seq<Interval>, t: int, s: Interval)
    ensures s in Earlier(spans, t) <==> s in spans && s.start < t
  {
    if spans != [] {
      EarlierAre(spans[..|spans| - 1], t, s);
      assert spans == spans[..|spans| - 1] + [spans[|spans| - 1]];
    }
  }

  /** The instants of the window covered by live events from before it; the aggregate has those on other days. */
  ghost function CarriedOver(events: seq<Event>, dim: Dimension, id: nat, w: Interval, d: nat): set<int> {
    CoveredIn(w.start, w.end, Earlier(LiveSpans(events, dim, id, d), w.start))
  }

  ghost function CountedIn(events: seq<Event>, dim: Dimension, id: nat, w: Interval, d: nat): set<int> {
    CoveredIn(w.start, w.end, Spans(AggregateRows(events, w), dim, id, d))
  }

  lemma NothingCarriedOver(events: seq<Event>, dim: Dimension, id: nat, w: Interval, d: nat)
    requires NoCarryOver(events, w)
    ensures CarriedOver(events, dim, id, w, d) == {}
  {
    var live := LiveSpans(events, dim, id, d);
    forall t | t in CarriedOver(events, dim, id, w, d) ensures false {
      var s :| s in Earlier(live, w.start) && Contains(s, t);
      EarlierAre(live, w.start, s);
      LiveSpansAre(events, dim, id, d, s);
    }
  }

  /** What a device's live events cover of the window is counted or carried over. */
  lemma AggregatedCover(events: seq<Event>, dim: Dimension, id: nat, w: Interval, d: nat)
    requires Aligned(w) && Forward(events)
    ensures CoveredIn(w.start, w.end, LiveSpans(events, dim, id, d))
            <= CountedIn(events, dim, id, w, d) + CarriedOver(events, dim, id, w, d)
    ensures forall s :: s in Spans(AggregateRows(events, w), dim, id, d) ==>
              w.start <= s.start < w.end && s.start <= s.end
  {
    var rows := AggregateRows(events, w);
    var live, counted := LiveSpans(events, dim, id, d), Spans(rows, dim, id, d);
    AggregateRowsAre(events, w);
    forall t | t in CoveredIn(w.start, w.end, live)
      ensures Covered(counted, t) || Covered(Earlier(live, w.start), t)
    {
      var s :| s in live && Contains(s, t);
      LiveSpansAre(events, dim, id, d, s);
      SpansAre(rows, dim, id, d, s);
      EarlierAre(live, w.start, s);
      assert s in counted || s in Earlier(live, w.start);
    }
    forall s | s in counted ensures w.start <= s.start < w.end && s.start <= s.end { SpansAre(rows, dim, id, d, s); }
  }

  /** Counted and carried instants are no more than the counted lengths and the carried instants. */
  lemma CoverBound(events: seq<Event>, dim: Dimension, id: nat, w: Interval, d: nat)
    requires Aligned(w) && Forward(events)
    ensures |CountedIn(events, dim, id, w, d) + CarriedOver(events, dim, id, w, d)|
            <= TotalLength(Spans(AggregateRows(events, w), dim, id, d)) + |CarriedOver(events, dim, id, w, d)|
  {
    AggregatedCover(events, dim, id, w, d);
    UnionBound(w.start, w.end, Spans(AggregateRows(events, w), dim, id, d));
    UnionSize(CountedIn(events, dim, id, w, d), CarriedOver(events, dim, id, w, d));
  }

  lemma SpansAreWhole(events: seq<Event>, dim: Dimension, id: nat, w: Interval, d: nat)
    requires Aligned(w) && WholeTimes(events)
    ensures WholeEvents(LiveSpans(events, dim, id, d)) && WholeEvents(Spans(AggregateRows(events, w), dim, id, d))
  {
    AggregateRowsAre(events, w);
    var live, counted := LiveSpans(events, dim, id, d), Spans(AggregateRows(events, w), dim, id, d);
    forall s | s in live ensures Whole(s.start) && Whole(s.end) { LiveSpansAre(events, dim, id, d, s); }
    forall s | s in counted ensures Whole(s.start) && Whole(s.end) {
      SpansAre(AggregateRows(events, w), dim, id, d, s);
    }
  }

  lemma AlignedIsWhole(t: int)
    requires t % DAY == 0
    ensures Whole(t)
  {
    assert t == 86400 * (t / DAY) * SECOND;
  }

  /** Half a second for each event the aggregate rounds, and what was carried over. */
  ghost function ShortfallBy(events: seq<Event>, dim: Dimension, id: nat, w: Interval): nat -> int {
    (d: nat) => Shortfall(|Spans(AggregateRows(events, w), dim, id, d)|, |CarriedOver(events, dim, id, w, d)|)
  }

  ghost function CapAndShortfall(events: seq<Event>, dim: Dimension, id: nat, w: Interval): nat -> int {
    (d: nat) => CappedBy(AggregateRows(events, w), dim, id, WindowSeconds(w))(d) + ShortfallBy(events, dim, id, w)(d)
  }

  /** By how much a bucket of the aggregate may fall short at most. */
  ghost function MostShort(events: seq<Event>, dim: Dimension, id: nat, w: Interval): int {
    Sum(Devices(events), ShortfallBy(events, dim, id, w))
  }

  /** On every device the rounded durations make up for what they leave out. */
  ghost predicate AllSuffice(events: seq<Event>, dim: Dimension, id: nat, w: Interval) {
    forall d :: d in Devices(events) ==> DeviceSuffices(events, dim, id, w, d)
  }

  ghost predicate DeviceSuffices(events: seq<Event>, dim: Dimension, id: nat, w: Interval, d: nat) {
    DurationsSuffice(w, Spans(AggregateRows(events, w), dim, id, d), |CarriedOver(events, dim, id, w, d)|)
  }

  lemma WholeTimesSuffice(events: seq<Event>, dim: Dimension, id: nat, w: Interval)
    requires Aligned(w) && Forward(events) && WholeTimes(events) && NoCarryOver(events, w)
    ensures AllSuffice(events, dim, id, w)
  {
    forall d | d in Devices(events) ensures DeviceSuffices(events, dim, id, w, d) {
      SpansAreWhole(events, dim, id, w, d);
      AggregatedCover(events, dim, id, w, d);
      NothingCarriedOver(events, dim, id, w, d);
      WholeDurationsSuffice(w, Spans(AggregateRows(events, w), dim, id, d));
    }
  }

  lemma DeviceUnderCap(events: seq<Event>, dim: Dimension, id: nat, w: Interval, d: nat)
    requires Proper(w) && Aligned(w) && Forward(events)
    ensures LiveBy(events, dim, id, w.start, w.end)(d) <= CapAndShortfall(events, dim, id, w)(d)
    ensures DeviceSuffices(events, dim, id, w, d) ==>
              LiveBy(events, dim, id, w.start, w.end)(d)
                  <= CappedBy(AggregateRows(events, w), dim, id, WindowSeconds(w))(d)
  {
    var live, counted := LiveSpans(events, dim, id, d), Spans(AggregateRows(events, w), dim, id, d);
    AggregatedCover(events, dim, id, w, d);
    CoverBound(events, dim, id, w, d);
    SubsetSize(CoveredIn(w.start, w.end, live), CountedIn(events, dim, id, w, d) + CarriedOver(events, dim, id, w, d));
    CoverUnderCap(w, live, counted, |CarriedOver(events, dim, id, w, d)|);
    var rows, window := AggregateRows(events, w), WindowSeconds(w);
    assert CappedBy(rows, dim, id, window)(d) == LeastOf(SumDurations(counted), window);
    assert ShortfallBy(events, dim, id, w)(d) == Shortfall(|counted|, |CarriedOver(events, dim, id, w, d)|);
    assert CapAndShortfall(events, dim, id, w)(d)
        == CappedBy(rows, dim, id, window)(d) + ShortfallBy(events, dim, id, w)(d);
  }

  lemma UncountedDevices(events: seq<Event>, dim: Dimension, id: nat, w: Interval)
    requires Aligned(w)
    ensures At(AggregateTotals(events, dim, w), id)
            == Sum(Devices(events), CappedBy(AggregateRows(events, w), dim, id, WindowSeconds(w)))
  {
    var rows := AggregateRows(events, w);
    var f := CappedBy(rows, dim, id, WindowSeconds(w));
    AggregateRowsAre(events, w);
    assert DevicesOf(rows, dim, id) <= Devices(events);
    forall d: nat | d !in DevicesOf(rows, dim, id) ensures f(d) == 0 {
      NoSpans(rows, dim, id, d);
    }
    SumSubset(DevicesOf(rows, dim, id), Devices(events), f);
    if id !in Ids(rows, dim) {
      assert forall e :: e in rows ==> Key(dim, e) in Ids(rows, dim);
      assert DevicesOf(rows, dim, id) == {};
    }
  }

  /** On a closed day-aligned window the aggregate of a bucket falls short of the exact merged total by at most half a
      second per event it holds and what events from before the window cover; and not at all if on every device the
      durations suffice. */
  lemma AggregateBoundsBucket(events: seq<Event>, dim: Dimension, id: nat, w: Interval)
    requires Proper(w) && Aligned(w) && Forward(events)
    ensures ExactSeconds(events, dim, id, w.start, w.end)
            <= At(AggregateTotals(events, dim, w), id) + MostShort(events, dim, id, w)
    ensures AllSuffice(events, dim, id, w) ==>
              ExactSeconds(events, dim, id, w.start, w.end) <= At(AggregateTotals(events, dim, w), id)
  {
    var f, g := LiveBy(events, dim, id, w.start, w.end), CappedBy(AggregateRows(events, w), dim, id, WindowSeconds(w));
    var h := CapAndShortfall(events, dim, id, w);
    UncountedDevices(events, dim, id, w);
    forall d: nat ensures f(d) <= h(d) && (DeviceSuffices(events, dim, id, w, d) ==> f(d) <= g(d)) {
      DeviceUnderCap(events, dim, id, w, d);
    }
    SumAtMost(Devices(events), f, h);
    SumOfSum(Devices(events), g, ShortfallBy(events, dim, id, w), h);
    if AllSuffice(events, dim, id, w) { SumAtMost(Devices(events), f, g); }
  }

  // ---- When the aggregate is exact

  /** Events that start in the window end in it. */
  predicate EndInside(events: seq<Event>, w: Interval) {
    forall e :: e in events && w.start <= e.span.start < w.end ==> e.span.end <= w.end
  }

  /** A device whose bucketed events do not overlap, or leave no instant of the window out. */
  ghost predicate CapIsTight(events: seq<Event>, dim: Dimension, id: nat, w: Interval, d: nat) {
    var counted := Spans(AggregateRows(events, w), dim, id, d);
    Disjoint(counted) || Fills(counted, w)
  }

  /** Whatever the device's counted events cover of the window, tombstoned or not, live ones cover too. */
  ghost predicate TombstonesAreCovered(events: seq<Event>, dim: Dimension, id: nat, w: Interval, d: nat) {
    forall t :: Contains(w, t) && Covered(Spans(AggregateRows(events, w), dim, id, d), t) ==>
      Covered(LiveSpans(events, dim, id, d), t)
  }

  lemma DeviceIsExactIff(events: seq<Event>, dim: Dimension, id: nat, w: Interval, d: nat)
    requires Proper(w) && Aligned(w) && Forward(events) && WholeTimes(events)
    requires NoCarryOver(events, w) && EndInside(events, w)
    ensures LiveBy(events, dim, id, w.start, w.end)(d)
            == CappedBy(AggregateRows(events, w), dim, id, WindowSeconds(w))(d)
            <==> CapIsTight(events, dim, id, w, d) && TombstonesAreCovered(events, dim, id, w, d)
  {
    var rows := AggregateRows(events, w);
    var live, counted := LiveSpans(events, dim, id, d), Spans(rows, dim, id, d);
    AggregatedCover(events, dim, id, w, d);
    NothingCarriedOver(events, dim, id, w, d);
    SpansAreWhole(events, dim, id, w, d);
    AggregateRowsAre(events, w);
    forall s | s in counted ensures w.start <= s.start <= s.end <= w.end { SpansAre(rows, dim, id, d, s); }
    AlignedIsWhole(w.start);
    AlignedIsWhole(w.end);
    SameTotalIff(w, live, counted);
    WholeDurationsSuffice(w, counted);
    CapBoundsExact(w, counted);
    CapIsExactIff(w, counted);
  }

  /** On a closed window whose events end inside it, with whole-second times and nothing carried over, a bucket of the
      aggregate is exact if and only if on every device the cap is tight and no tombstoned event covers an instant live
      events do not. */
  lemma AggregateIsExactIff(events: seq<Event>, dim: Dimension, id: nat, w: Interval)
    requires Proper(w) && Aligned(w) && Forward(events) && WholeTimes(events)
    requires NoCarryOver(events, w) && EndInside(events, w)
    ensures ExactSeconds(events, dim, id, w.start, w.end) == At(AggregateTotals(events, dim, w), id)
            <==> forall d :: d in Devices(events) ==>
                   CapIsTight(events, dim, id, w, d) && TombstonesAreCovered(events, dim, id, w, d)
  {
    var f, g := LiveBy(events, dim, id, w.start, w.end), CappedBy(AggregateRows(events, w), dim, id, WindowSeconds(w));
    UncountedDevices(events, dim, id, w);
    WholeTimesSuffice(events, dim, id, w);
    forall d: nat | d in Devices(events)
      ensures f(d) <= g(d)
      ensures f(d) == g(d) <==> CapIsTight(events, dim, id, w, d) && TombstonesAreCovered(events, dim, id, w, d)
    {
      DeviceUnderCap(events, dim, id, w, d);
      DeviceIsExactIff(events, dim, id, w, d);
    }
    SumEqualIff(Devices(events), f, g);
  }

  ghost predicate DeviceLosesNothing(events: seq<Event>, dim: Dimension, id: nat, w: Interval, d: nat) {
    var live, carried := LiveSpans(events, dim, id, d), CarriedOver(events, dim, id, w, d);
    NothingLost(w, live, CoveredIn(w.start, w.end, live), CountedIn(events, dim, id, w, d) + carried,
                Spans(AggregateRows(events, w), dim, id, d), |carried|)
  }

  lemma DeviceIsExactIffNothingLost(events: seq<Event>, dim: Dimension, id: nat, w: Interval, d: nat)
    requires Proper(w) && Aligned(w) && Forward(events) && DeviceSuffices(events, dim, id, w, d)
    ensures LiveBy(events, dim, id, w.start, w.end)(d)
            == CappedBy(AggregateRows(events, w), dim, id, WindowSeconds(w))(d)
            <==> DeviceLosesNothing(events, dim, id, w, d)
  {
    var live, carried := LiveSpans(events, dim, id, d), CarriedOver(events, dim, id, w, d);
    var counted := Spans(AggregateRows(events, w), dim, id, d);
    AlignedIsWhole(w.start);
    AlignedIsWhole(w.end);
    AggregatedCover(events, dim, id, w, d);
    CoverBound(events, dim, id, w, d);
    CapIsExactIffNothingLost(w, live, CountedIn(events, dim, id, w, d) + carried, counted, |carried|);
    assert CappedBy(AggregateRows(events, w), dim, id, WindowSeconds(w))(d)
        == LeastOf(SumDurations(counted), WindowSeconds(w));
  }

  /** For any times and events across the edges: a bucket on whose devices the durations suffice is exact if and only if
      no device loses anything on the way from the exact total to the cap. */
  lemma AggregateIsExactIffNothingLost(events: seq<Event>, dim: Dimension, id: nat, w: Interval)
    requires Proper(w) && Aligned(w) && Forward(events) && AllSuffice(events, dim, id, w)
    ensures ExactSeconds(events, dim, id, w.start, w.end) == At(AggregateTotals(events, dim, w), id)
            <==> forall d :: d in Devices(events) ==> DeviceLosesNothing(events, dim, id, w, d)
  {
    var f, g := LiveBy(events, dim, id, w.start, w.end), CappedBy(AggregateRows(events, w), dim, id, WindowSeconds(w));
    UncountedDevices(events, dim, id, w);
    forall d: nat | d in Devices(events)
      ensures f(d) <= g(d)
      ensures f(d) == g(d) <==> DeviceLosesNothing(events, dim, id, w, d)
    {
      DeviceUnderCap(events, dim, id, w, d);
      DeviceIsExactIffNothingLost(events, dim, id, w, d);
    }
    SumEqualIff(Devices(events), f, g);
  }

  // ---- Where the two paths differ

  const TENTHS := SECOND / 10

  /** Three adjacent events of 0.4 s: the merge counts one second, the aggregate, rounding each, none. */
  lemma SubSecondEventsFallThrough()
    ensures var spans, day := [Interval(0, 4 * TENTHS), Interval(4 * TENTHS, 8 * TENTHS),
                               Interval(8 * TENTHS, 12 * TENTHS)],
                              Interval(0, DAY);
            Trimmed(day.start, day.end, spans) == 1 && LeastOf(SumDurations(spans), WindowSeconds(day)) == 0
  {
    var a, b, c := Interval(0, 4 * TENTHS), Interval(4 * TENTHS, 8 * TENTHS), Interval(8 * TENTHS, 12 * TENTHS);
    var spans, block := [a, b, c], [Interval(0, 12 * TENTHS)];
    assert block[0] in block && a in spans && b in spans && c in spans;
    forall t ensures Covered(block, t) <==> 0 <= t < DAY && Covered(spans, t) {
      assert Covered(block, t) <==> Contains(block[0], t);
      assert Covered(spans, t) <==> Contains(a, t) || Contains(b, t) || Contains(c, t);
    }
    BlocksByCover(0, DAY, spans, block);
    assert SumSeconds(block) == 1 + SumSeconds(block[1..]);
    assert [a, b, c][..2] == [a, b] && [a, b][..1] == [a] && [a][..0] == [];
    assert DurationSeconds(a) == 0 && DurationSeconds(b) == 0 && DurationSeconds(c) == 0;
    assert SumDurations([]) == 0 && SumDurations([a]) == 0;
    assert SumDurations([a, b]) == 0;
    assert SumDurations(spans) == 0;
  }

  /** One tombstoned hour: the raw path no longer sees it, the aggregate still counts it. */
  lemma TombstonesStayInTheAggregate()
    ensures var events, day := [Event(1, 1, 1, 0, Exact, true, Interval(0, 3600 * SECOND))], Interval(0, DAY);
            At(AggregateTotals(events, ByCategory, day), 1) == 3600 && ExactSeconds(events, ByCategory, 1, 0, DAY) == 0
  {
    var e, day := Event(1, 1, 1, 0, Exact, true, Interval(0, 3600 * SECOND)), Interval(0, DAY);
    var events := [e];
    assert events[..0] == [] && e in events;
    assert LiveSpans([], ByCategory, 1, 1) == [];
    assert AggregateRows([], day) == [];
    StartsOnDay(day, 0);
    assert AggregateRows(events, day) == [e];
    assert Spans([], ByCategory, 1, 1) == [];
    assert Spans([e], ByCategory, 1, 1) == [e.span];
    assert [e.span][..0] == [] && SumDurations([]) == 0;
    assert SumDurations([e.span]) == 3600;
    assert Devices(events) == {1};
    UncountedDevices(events, ByCategory, 1, day);
    var capped, live := CappedBy([e], ByCategory, 1, WindowSeconds(day)), LiveBy(events, ByCategory, 1, 0, DAY);
    SumRemove({1}, capped, 1);
    SumRemove({1}, live, 1);
    assert {1} - {1} == {};
    assert LiveSpans(events, ByCategory, 1, 1) == [];
    assert Trimmed(0, DAY, []) == 0;
  }
}
