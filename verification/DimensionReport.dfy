/** The category and app reports: which path serves them, and that a report under filters is the unfiltered report of
    the events the filters name, column by column. */
module DimensionReport {
  import opened Trim
  import opened Sums
  import opened Window
  import opened Reports
  import opened ReportBounds

  // ---- What the filters name

  /** Every filter that is set names the event's column. */
  predicate Wanted(e: Event, f: Filters) {
    (f.app != 0 ==> e.app == f.app) && (f.category != 0 ==> e.category == f.category)
    && (f.project != 0 ==> e.project == f.project) && (f.device != 0 ==> e.device == f.device)
    && (f.precision != AnyPrecision ==> e.precision == f.precision)
  }

  function KeepWanted(events: seq<Event>, f: Filters): seq<Event> {
    if events == [] then []
    else
      var init, e := KeepWanted(events[..|events| - 1], f), events[|events| - 1];
      if Wanted(e, f) then init + [e] else init
  }

  lemma {:induction false} KeptAre(events: seq<Event>, f: Filters)
    ensures forall e :: e in KeepWanted(events, f) <==> e in events && Wanted(e, f)
  {
    if events != [] {
      KeptAre(events[..|events| - 1], f);
      assert events == events[..|events| - 1] + [events[|events| - 1]];
    }
  }

  lemma RawRowsAppend(events: seq<Event>, e: Event, from: int, to: int, f: Filters)
    ensures RawRows(events + [e], from, to, f)
            == RawRows(events, from, to, f) + if Selected(e, from, to, f) then [e] else []
  {
    assert (events + [e])[..|events|] == events;
  }

  /** The rows a query selects under filters are those it selects without among the events the filters name. */
  lemma {:induction false} FiltersSelect(events: seq<Event>, from: int, to: int, f: Filters)
    ensures RawRows(events, from, to, f) == RawRows(KeepWanted(events, f), from, to, NO_FILTERS)
  {
    if events != [] {
      var init, e := events[..|events| - 1], events[|events| - 1];
      FiltersSelect(init, from, to, f);
      if Wanted(e, f) { RawRowsAppend(KeepWanted(init, f), e, from, to, NO_FILTERS); }
    }
  }

  /** The exact totals under any filters are the unfiltered ones of the events the filters name. */
  lemma RawTotalsUnderFilters(events: seq<Event>, dim: Dimension, f: Filters, from: int, to: int, id: nat)
    ensures Totals(RawRows(events, from, to, f), dim, from, to)
            == Totals(RawRows(KeepWanted(events, f), from, to, NO_FILTERS), dim, from, to)
    ensures At(Totals(RawRows(events, from, to, f), dim, from, to), id)
            == ExactSeconds(KeepWanted(events, f), dim, id, from, to)
  {
    FiltersSelect(events, from, to, f);
    RawTotalIsExact(KeepWanted(events, f), dim, id, from, to);
  }

  lemma {:induction false} PartsUnderFilters(events: seq<Event>, dim: Dimension, f: Filters, raw: seq<Interval>)
    ensures RawParts(events, dim, f, raw) == RawParts(KeepWanted(events, f), dim, NO_FILTERS, raw)
  {
    if raw != [] {
      PartsUnderFilters(events, dim, f, raw[..|raw| - 1]);
      FiltersSelect(events, raw[|raw| - 1].start, raw[|raw| - 1].end, f);
    }
  }

  // ---- The aggregate of the events one bucket's filter names

  lemma AggregateAppend(events: seq<Event>, e: Event, w: Interval)
    ensures AggregateRows(events + [e], w)
            == AggregateRows(events, w) + if w.start <= DayStart(e.span.start) < w.end then [e] else []
  {
    assert (events + [e])[..|events|] == events;
  }

  lemma {:induction false} KeptAggregateSpans(events: seq<Event>, dim: Dimension, f: Filters, w: Interval, id: nat,
                                              d: nat)
    requires FastPath(dim, f) && OwnFilter(dim, f) == id != 0 && dim != ByProject
    ensures Spans(AggregateRows(KeepWanted(events, f), w), dim, id, d) == Spans(AggregateRows(events, w), dim, id, d)
  {
    if events != [] {
      var init, e := events[..|events| - 1], events[|events| - 1];
      KeptAggregateSpans(init, dim, f, w, id, d);
      AppendRow(AggregateRows(init, w), dim, e, id, d);
      if Wanted(e, f) {
        AggregateAppend(KeepWanted(init, f), e, w);
        AppendRow(AggregateRows(KeepWanted(init, f), w), dim, e, id, d);
      }
    }
  }

  lemma {:induction false} AggregateRowsHas(events: seq<Event>, w: Interval)
    ensures forall e :: e in AggregateRows(events, w) <==> e in events && w.start <= DayStart(e.span.start) < w.end
  {
    if events != [] {
      AggregateRowsHas(events[..|events| - 1], w);
      assert events == events[..|events| - 1] + [events[|events| - 1]];
    }
  }

  lemma KeptAggregateKeys(events: seq<Event>, dim: Dimension, f: Filters, w: Interval, id: nat)
    requires FastPath(dim, f) && OwnFilter(dim, f) == id != 0 && dim != ByProject
    ensures Ids(AggregateRows(KeepWanted(events, f), w), dim) == Ids(AggregateRows(events, w), dim) * {id}
    ensures DevicesOf(AggregateRows(KeepWanted(events, f), w), dim, id) == DevicesOf(AggregateRows(events, w), dim, id)
  {
    AggregateRowsHas(events, w);
    AggregateRowsHas(KeepWanted(events, f), w);
    KeptAre(events, f);
    assert forall e: Event :: Wanted(e, f) <==> Key(dim, e) == id;
  }

  lemma KeptAggregate(events: seq<Event>, dim: Dimension, f: Filters, w: Interval, id: nat)
    requires FastPath(dim, f) && OwnFilter(dim, f) == id != 0 && dim != ByProject
    ensures AggregateTotals(KeepWanted(events, f), dim, w) == Only(AggregateTotals(events, dim, w), id)
  {
    var all, mine := AggregateRows(events, w), AggregateRows(KeepWanted(events, f), w);
    var g, h := CappedBy(mine, dim, id, WindowSeconds(w)), CappedBy(all, dim, id, WindowSeconds(w));
    KeptAggregateKeys(events, dim, f, w, id);
    forall d: nat ensures g(d) == h(d) { KeptAggregateSpans(events, dim, f, w, id, d); }
    SumSame(DevicesOf(mine, dim, id), g, h);
    SameMap(AggregateTotals(KeepWanted(events, f), dim, w), Only(AggregateTotals(events, dim, w), id));
  }

  lemma OnlyOwnBucket(events: seq<Event>, dim: Dimension, f: Filters, from: int, to: int, id: nat)
    requires FastPath(dim, f) && OwnFilter(dim, f) == id != 0 && dim != ByProject
    ensures Only(RawPart(KeepWanted(events, f), dim, NO_FILTERS, Interval(from, to)), id)
            == RawPart(KeepWanted(events, f), dim, NO_FILTERS, Interval(from, to))
  {
    KeptAre(events, f);
    RowsAre(KeepWanted(events, f), from, to, NO_FILTERS);
  }

  lemma {:induction false} OnlyOwnParts(events: seq<Event>, dim: Dimension, f: Filters, raw: seq<Interval>, id: nat)
    requires FastPath(dim, f) && OwnFilter(dim, f) == id != 0 && dim != ByProject
    ensures Only(RawParts(KeepWanted(events, f), dim, NO_FILTERS, raw), id)
            == RawParts(KeepWanted(events, f), dim, NO_FILTERS, raw)
  {
    if raw != [] {
      var w := raw[|raw| - 1];
      OnlyOwnParts(events, dim, f, raw[..|raw| - 1], id);
      OnlyOwnBucket(events, dim, f, w.start, w.end, id);
      assert Interval(w.start, w.end) == w;
      OnlyMerged(RawParts(KeepWanted(events, f), dim, NO_FILTERS, raw[..|raw| - 1]),
                 RawPart(KeepWanted(events, f), dim, NO_FILTERS, w), id);
    }
  }

  /** On the fast path the report of one bucket is the whole report of the events in that bucket. */
  lemma FastReportUnderFilter(events: seq<Event>, dim: Dimension, f: Filters, closed: Interval, hasClosed: bool,
                              raw: seq<Interval>)
    requires FastPath(dim, f) && OwnFilter(dim, f) != 0 && dim != ByProject
    ensures Only(Hybrid(events, dim, f, closed, hasClosed, raw), OwnFilter(dim, f))
            == Hybrid(KeepWanted(events, f), dim, NO_FILTERS, closed, hasClosed, raw)
  {
    var id, kept := OwnFilter(dim, f), KeepWanted(events, f);
    var aggregate := if hasClosed then AggregateTotals(events, dim, closed) else map[];
    PartsUnderFilters(events, dim, f, raw);
    OnlyMerged(aggregate, RawParts(kept, dim, NO_FILTERS, raw), id);
    OnlyOwnParts(events, dim, f, raw, id);
    KeptAggregate(events, dim, f, closed, id);
    assert Only(map[], id) == map[];
  }

  lemma {:induction false} NothingFiltered(events: seq<Event>, f: Filters)
    requires f == NO_FILTERS
    ensures KeepWanted(events, f) == events
  {
    if events != [] {
      NothingFiltered(events[..|events| - 1], f);
      assert events == events[..|events| - 1] + [events[|events| - 1]];
    }
  }

  // ---- The report

  /** categoryTotals (ByCategory) and appTotals (ByApp).  Whatever the filters, it is the unfiltered report of the
      events they name: the raw totals of the range if a filter is set the aggregate does not carry, otherwise the
      closed days' aggregate and the raw windows of the split, which is returned as a witness. */
  method DimensionTotals(events: seq<Event>, from: int, to: int, now: int, f: Filters, dim: Dimension)
    returns (result: map<nat, int>, ghost closed: Interval, ghost hasClosed: bool, ghost raw: seq<Interval>)
    requires dim != ByProject
    ensures !FastPath(dim, f) ==>
              result == Totals(RawRows(KeepWanted(events, f), from, to, NO_FILTERS), dim, from, to)
    ensures FastPath(dim, f) ==>
              IsSplit(from, to, now, closed, hasClosed, raw)
              && result == Hybrid(KeepWanted(events, f), dim, NO_FILTERS, closed, hasClosed, raw)
  {
    closed, hasClosed, raw := Interval(0, 0), false, [];
    var foreign := if dim == ByCategory then f.app else f.category;
    if foreign != 0 || f.project != 0 || f.device != 0 || f.precision != AnyPrecision {
      result := RawTotals(events, from, to, f, dim);
      FiltersSelect(events, from, to, f);
      return;
    }
    var closedWindow, has, rawWindows := SplitClosedOpen(from, to, now);
    closed, hasClosed, raw := closedWindow, has, rawWindows;
    result := FastTotals(events, f, dim, closedWindow, has, rawWindows);
    var own := if dim == ByCategory then f.category else f.app;
    if own != 0 {
      FastReportUnderFilter(events, dim, f, closed, hasClosed, raw);
      result := Restrict(result, own);
    } else {
      NothingFiltered(events, f);
    }
  }

  /** The post-filter on the merged map. */
  method Restrict(m: map<nat, int>, id: nat) returns (result: map<nat, int>)
    ensures result == Only(m, id)
  {
    result := map k | k in m && k == id :: m[k];
  }
}
