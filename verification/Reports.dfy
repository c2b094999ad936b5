/** Dimensioned report totals: grouping raw events, the capped aggregate for closed
days, their combination, and the sorted breakdown. */
module Reports {
  import opened Keyset
  import opened Trim
  import opened TrimMeasure
  import opened Sums
  import opened Window

  /** Identifiers are positive; 0 stands for NULL, the "" bucket of the code, and for an unset filter. */
  datatype Precision = Exact | Approximate | AnyPrecision

  datatype Event = Event(device: nat, app: nat, category: nat, project: nat, precision: Precision,
                         deleted: bool, span: Interval)

  datatype Filters = Filters(app: nat, category: nat, project: nat, device: nat, precision: Precision)

  datatype Dimension = ByCategory | ByApp | ByProject

  function Key(dim: Dimension, e: Event): nat {
    match dim
    case ByCategory => e.category
    case ByApp => e.app
    case ByProject => e.project
  }

  predicate Passes(wanted: nat, actual: nat) { wanted == 0 || wanted == actual }

  /** The WHERE clause of RawActivityEventsForReport. */
  predicate Selected(e: Event, from: int, to: int, f: Filters) {
    !e.deleted && e.span.start < to && e.span.end > from
    && Passes(f.app, e.app) && Passes(f.category, e.category) && Passes(f.project, e.project)
    && Passes(f.device, e.device) && (f.precision == AnyPrecision || f.precision == e.precision)
  }

  function RawRows(events: seq<Event>, from: int, to: int, f: Filters): seq<Event> {
    if events == [] then [] else
      var init, e := RawRows(events[..|events| - 1], from, to, f), events[|events| - 1];
      if Selected(e, from, to, f) then init + [e] else init
  }

  // ---- Grouping

  /** The intervals of one bucket and device, in row order. */
  function Spans(rows: seq<Event>, dim: Dimension, id: nat, dev: nat): seq<Interval> {
    if rows == [] then [] else
      var init, e := Spans(rows[..|rows| - 1], dim, id, dev), rows[|rows| - 1];
      if Key(dim, e) == id && e.device == dev then init + [e.span] else init
  }

  function Ids(rows: seq<Event>, dim: Dimension): set<nat> { set e | e in rows :: Key(dim, e) }

  function Devices(rows: seq<Event>): set<nat> { set e | e in rows :: e.device }

  function DevicesOf(rows: seq<Event>, dim: Dimension, id: nat): set<nat> {
    set e | e in rows && Key(dim, e) == id :: e.device
  }

  function TrimmedBy(rows: seq<Event>, dim: Dimension, id: nat, from: int, to: int): nat -> int {
    (d: nat) => Trimmed(from, to, Spans(rows, dim, id, d))
  }

  /** One bucket's total: every device's trimmed seconds, added up. */
  ghost function BucketSeconds(rows: seq<Event>, dim: Dimension, id: nat, from: int, to: int): int {
    Sum(DevicesOf(rows, dim, id), TrimmedBy(rows, dim, id, from, to))
  }

  ghost function Totals(rows: seq<Event>, dim: Dimension, from: int, to: int): map<nat, int> {
    map id | id in Ids(rows, dim) :: BucketSeconds(rows, dim, id, from, to)
  }

  function TrimmedIn(byDevice: map<nat, seq<Interval>>, from: int, to: int): nat -> int {
    (d: nat) => if d in byDevice then Trimmed(from, to, byDevice[d]) else 0
  }

  method PerDeviceSeconds(windowStart: int, windowEnd: int, byDevice: map<nat, seq<Interval>>) returns (total: int)
    ensures total == Sum(byDevice.Keys, TrimmedIn(byDevice, windowStart, windowEnd))
  {
    total := 0;
    ghost var f := TrimmedIn(byDevice, windowStart, windowEnd);
    var left := byDevice.Keys;
    while left != {}
      invariant left <= byDevice.Keys
      invariant total + Sum(left, f) == Sum(byDevice.Keys, f)
      decreases left
    {
      var d :| d in left;
      var clipped := ClipToWindow(windowStart, windowEnd, byDevice[d]);
      ClipIsInside(windowStart, windowEnd, byDevice[d]);
      var a := new Interval[|clipped|](i requires 0 <= i < |clipped| => clipped[i]);
      assert a[..] == clipped;
      var seconds := MergeAndSum(a);
      SumRemove(left, f, d);
      total := total + seconds;
      left := left - {d};
    }
  }

  /** What grouped holds after the rows seen so far. */
  ghost predicate IsGrouped(grouped: map<nat, map<nat, seq<Interval>>>, rows: seq<Event>, dim: Dimension) {
    grouped.Keys == Ids(rows, dim)
    && (forall id :: id in grouped ==> grouped[id].Keys == DevicesOf(rows, dim, id))
    && (forall id, d :: id in grouped && d in grouped[id] ==> grouped[id][d] == Spans(rows, dim, id, d))
  }

  function Grow(grouped: map<nat, map<nat, seq<Interval>>>, id: nat, d: nat, span: Interval)
    : map<nat, map<nat, seq<Interval>>>
  {
    var byDevice := if id in grouped then grouped[id] else map[];
    grouped[id := byDevice[d := (if d in byDevice then byDevice[d] else []) + [span]]]
  }

  lemma {:induction false} NoSpans(rows: seq<Event>, dim: Dimension, id: nat, d: nat)
    requires d !in DevicesOf(rows, dim, id)
    ensures Spans(rows, dim, id, d) == []
  {
    if rows != [] {
      var init, e := rows[..|rows| - 1], rows[|rows| - 1];
      assert e in rows && forall x :: x in init ==> x in rows;
      NoSpans(init, dim, id, d);
    }
  }

  lemma AppendRow(rows: seq<Event>, dim: Dimension, e: Event, id: nat, d: nat)
    ensures Ids(rows + [e], dim) == Ids(rows, dim) + {Key(dim, e)}
    ensures DevicesOf(rows + [e], dim, id) == DevicesOf(rows, dim, id) + if Key(dim, e) == id then {e.device} else {}
    ensures Spans(rows + [e], dim, id, d)
            == Spans(rows, dim, id, d) + if Key(dim, e) == id && e.device == d then [e.span] else []
  {
    assert forall x :: x in rows + [e] <==> x in rows || x == e;
    assert (rows + [e])[..|rows|] == rows;
  }

  lemma FreshBucket(grouped: map<nat, map<nat, seq<Interval>>>, rows: seq<Event>, dim: Dimension, id: nat, d: nat)
    requires IsGrouped(grouped, rows, dim)
    ensures d !in (if id in grouped then grouped[id] else map[]) ==> Spans(rows, dim, id, d) == []
    ensures id !in grouped ==> DevicesOf(rows, dim, id) == {}
  {
    assert forall x :: x in rows ==> Key(dim, x) in Ids(rows, dim);
    if d !in DevicesOf(rows, dim, id) { NoSpans(rows, dim, id, d); }
  }

  lemma GrowDevices(grouped: map<nat, map<nat, seq<Interval>>>, rows: seq<Event>, dim: Dimension, e: Event, i: nat)
    requires IsGrouped(grouped, rows, dim)
    requires i in Grow(grouped, Key(dim, e), e.device, e.span)
    ensures Grow(grouped, Key(dim, e), e.device, e.span)[i].Keys == DevicesOf(rows + [e], dim, i)
  {
    AppendRow(rows, dim, e, i, 0);
    FreshBucket(grouped, rows, dim, i, 0);
  }

  lemma GrowSpans(grouped: map<nat, map<nat, seq<Interval>>>, rows: seq<Event>, dim: Dimension, e: Event, i: nat,
                  d: nat)
    requires IsGrouped(grouped, rows, dim)
    requires i in Grow(grouped, Key(dim, e), e.device, e.span) && d in Grow(grouped, Key(dim, e), e.device, e.span)[i]
    ensures Grow(grouped, Key(dim, e), e.device, e.span)[i][d] == Spans(rows + [e], dim, i, d)
  {
    AppendRow(rows, dim, e, i, d);
    FreshBucket(grouped, rows, dim, i, d);
  }

  lemma GrowIsGrouped(grouped: map<nat, map<nat, seq<Interval>>>, rows: seq<Event>, dim: Dimension, e: Event)
    requires IsGrouped(grouped, rows, dim)
    ensures IsGrouped(Grow(grouped, Key(dim, e), e.device, e.span), rows + [e], dim)
  {
    var grown := Grow(grouped, Key(dim, e), e.device, e.span);
    AppendRow(rows, dim, e, 0, 0);
    forall i | i in grown ensures grown[i].Keys == DevicesOf(rows + [e], dim, i) {
      GrowDevices(grouped, rows, dim, e, i);
    }
    forall i, d | i in grown && d in grown[i] ensures grown[i][d] == Spans(rows + [e], dim, i, d) {
      GrowSpans(grouped, rows, dim, e, i, d);
    }
  }

  method GroupRows(rows: seq<Event>, dim: Dimension) returns (grouped: map<nat, map<nat, seq<Interval>>>)
    ensures IsGrouped(grouped, rows, dim)
  {
    grouped := map[];
    for i := 0 to |rows|
      invariant IsGrouped(grouped, rows[..i], dim)
    {
      GrowIsGrouped(grouped, rows[..i], dim, rows[i]);
      assert rows[..i + 1] == rows[..i] + [rows[i]];
      grouped := Grow(grouped, Key(dim, rows[i]), rows[i].device, rows[i].span);
    }
    assert rows[..|rows|] == rows;
  }

  lemma BucketFromGroup(grouped: map<nat, map<nat, seq<Interval>>>, rows: seq<Event>, dim: Dimension, id: nat,
                        from: int, to: int)
    requires IsGrouped(grouped, rows, dim) && id in grouped
    ensures Sum(grouped[id].Keys, TrimmedIn(grouped[id], from, to)) == BucketSeconds(rows, dim, id, from, to)
  {
    SumSame(grouped[id].Keys, TrimmedIn(grouped[id], from, to), TrimmedBy(rows, dim, id, from, to));
  }

  /** The second loop of rawTotals: one bucket at a time. */
  method TrimGroups(grouped: map<nat, map<nat, seq<Interval>>>, from: int, to: int) returns (result: map<nat, int>)
    ensures result.Keys == grouped.Keys
    ensures forall id :: id in result ==> result[id] == Sum(grouped[id].Keys, TrimmedIn(grouped[id], from, to))
  {
    result := map[];
    var left := grouped.Keys;
    while left != {}
      invariant left <= grouped.Keys && result.Keys == grouped.Keys - left
      invariant forall id :: id in result ==> result[id] == Sum(grouped[id].Keys, TrimmedIn(grouped[id], from, to))
      decreases left
    {
      var id :| id in left;
      var seconds := PerDeviceSeconds(from, to, grouped[id]);
      result := result[id := seconds];
      left := left - {id};
    }
  }

  /** The raw pass over [from, to): group the rows by bucket and device, then trim and add up each bucket. */
  method RawTotals(events: seq<Event>, from: int, to: int, f: Filters, dim: Dimension) returns (result: map<nat, int>)
    ensures result == Totals(RawRows(events, from, to, f), dim, from, to)
  {
    var rows := RawRows(events, from, to, f);
    var grouped := GroupRows(rows, dim);
    result := TrimGroups(grouped, from, to);
    TotalsFromGroups(grouped, rows, dim, from, to, result);
  }

  lemma TotalsFromGroups(grouped: map<nat, map<nat, seq<Interval>>>, rows: seq<Event>, dim: Dimension,
                         from: int, to: int, result: map<nat, int>)
    requires IsGrouped(grouped, rows, dim) && result.Keys == grouped.Keys
    requires forall id :: id in result ==> result[id] == Sum(grouped[id].Keys, TrimmedIn(grouped[id], from, to))
    ensures result == Totals(rows, dim, from, to)
  {
    forall id: nat | id in result ensures result[id] == BucketSeconds(rows, dim, id, from, to) {
      BucketFromGroup(grouped, rows, dim, id, from, to);
    }
    TotalsAre(rows, dim, from, to, result);
  }

  lemma TotalsAre(rows: seq<Event>, dim: Dimension, from: int, to: int, result: map<nat, int>)
    requires result.Keys == Ids(rows, dim)
    requires forall id :: id in result ==> result[id] == BucketSeconds(rows, dim, id, from, to)
    ensures result == Totals(rows, dim, from, to)
  {
    SameMap(result, Totals(rows, dim, from, to));
  }

  lemma SameMap(a: map<nat, int>, b: map<nat, int>)
    requires a.Keys == b.Keys && forall id :: id in a ==> a[id] == b[id]
    ensures a == b
  {
  }

  // ---- The daily aggregates

  /** duration_s: the numeric seconds cast to int, rounded half up. */
  function DurationSeconds(e: Interval): int { (e.end - e.start + SECOND / 2) / SECOND }

  function SumDurations(spans: seq<Interval>): int {
    if spans == [] then 0 else SumDurations(spans[..|spans| - 1]) + DurationSeconds(spans[|spans| - 1])
  }

  function WindowSeconds(w: Interval): (s: int)
    ensures s >= 1
  {
    if Seconds(w) < 1 then 1 else Seconds(w)
  }

  function LeastOf(a: int, b: int): int { if a < b then a else b }

  /** The aggregates hold every event, tombstoned or not, under the day it starts. */
  function AggregateRows(events: seq<Event>, closed: Interval): seq<Event> {
    if events == [] then [] else
      var init, e := AggregateRows(events[..|events| - 1], closed), events[|events| - 1];
      if closed.start <= DayStart(e.span.start) < closed.end then init + [e] else init
  }

  function CappedBy(rows: seq<Event>, dim: Dimension, id: nat, windowSeconds: int): nat -> int {
    (d: nat) => LeastOf(SumDurations(Spans(rows, dim, id, d)), windowSeconds)
  }

  /** sum over devices of LEAST(device_total_s, window_seconds). */
  ghost function CappedSeconds(rows: seq<Event>, dim: Dimension, id: nat, closed: Interval): int {
    Sum(DevicesOf(rows, dim, id), CappedBy(rows, dim, id, WindowSeconds(closed)))
  }

  /** What CategoryTotalsForRange and AppTotalsForRange return for the closed window. */
  ghost function AggregateTotals(events: seq<Event>, dim: Dimension, closed: Interval): map<nat, int> {
    var rows := AggregateRows(events, closed);
    map id | id in Ids(rows, dim) :: CappedSeconds(rows, dim, id, closed)
  }

  method CapDevices(byDevice: map<nat, seq<Interval>>, windowSeconds: int, ghost f: nat -> int) returns (total: int)
    requires forall d :: d in byDevice ==> f(d) == LeastOf(SumDurations(byDevice[d]), windowSeconds)
    ensures total == Sum(byDevice.Keys, f)
  {
    total := 0;
    var left := byDevice.Keys;
    while left != {}
      invariant left <= byDevice.Keys
      invariant total + Sum(left, f) == Sum(byDevice.Keys, f)
      decreases left
    {
      var d :| d in left;
      SumRemove(left, f, d);
      total := total + LeastOf(SumDurations(byDevice[d]), windowSeconds);
      left := left - {d};
    }
  }

  method CapBucket(byDevice: map<nat, seq<Interval>>, ghost rows: seq<Event>, ghost dim: Dimension, ghost id: nat,
                   closed: Interval)
    returns (seconds: int)
    requires byDevice.Keys == DevicesOf(rows, dim, id)
    requires forall d :: d in byDevice ==> byDevice[d] == Spans(rows, dim, id, d)
    ensures seconds == CappedSeconds(rows, dim, id, closed)
  {
    seconds := CapDevices(byDevice, WindowSeconds(closed), CappedBy(rows, dim, id, WindowSeconds(closed)));
  }

  /** The aggregate query: GROUP BY bucket and device, cap each device, add up. */
  method TotalsForRange(events: seq<Event>, dim: Dimension, closed: Interval) returns (result: map<nat, int>)
    ensures result == AggregateTotals(events, dim, closed)
  {
    var rows := AggregateRows(events, closed);
    var grouped := GroupRows(rows, dim);
    result := map[];
    var left := grouped.Keys;
    while left != {}
      invariant left <= grouped.Keys && result.Keys == grouped.Keys - left
      invariant forall id :: id in result ==> result[id] == CappedSeconds(rows, dim, id, closed)
      decreases left
    {
      var id :| id in left;
      var seconds := CapBucket(grouped[id], rows, dim, id, closed);
      result := result[id := seconds];
      left := left - {id};
    }
  }

  // ---- Combining

  function At(m: map<nat, int>, id: nat): int { if id in m then m[id] else 0 }

  function Merged(a: map<nat, int>, b: map<nat, int>): map<nat, int> {
    map id | id in a.Keys + b.Keys :: At(a, id) + At(b, id)
  }

  /** The mergeBucket loop. */
  method MergeBuckets(dst: map<nat, int>, src: map<nat, int>) returns (result: map<nat, int>)
    ensures result == Merged(dst, src)
  {
    result := dst;
    var left := src.Keys;
    while left != {}
      invariant left <= src.Keys
      invariant result == Merged(dst, Part(src, src.Keys - left))
      decreases left
    {
      var id :| id in left;
      MergeOne(dst, src, src.Keys - left, id);
      assert src.Keys - (left - {id}) == src.Keys - left + {id};
      left := left - {id};
      result := result[id := At(result, id) + src[id]];
    }
    assert Part(src, src.Keys - left) == src;
  }

  function Part(m: map<nat, int>, keys: set<nat>): map<nat, int> { map id | id in keys && id in m :: m[id] }

  lemma MergeOne(dst: map<nat, int>, src: map<nat, int>, seen: set<nat>, id: nat)
    requires seen <= src.Keys && id in src && id !in seen
    ensures var result := Merged(dst, Part(src, seen));
            result[id := At(result, id) + src[id]] == Merged(dst, Part(src, seen + {id}))
  {
    var result := Merged(dst, Part(src, seen));
    SameMap(result[id := At(result, id) + src[id]], Merged(dst, Part(src, seen + {id})));
  }

  const NO_FILTERS := Filters(0, 0, 0, 0, AnyPrecision)

  ghost function RawPart(events: seq<Event>, dim: Dimension, f: Filters, w: Interval): map<nat, int> {
    Totals(RawRows(events, w.start, w.end, f), dim, w.start, w.end)
  }

  ghost function RawParts(events: seq<Event>, dim: Dimension, f: Filters, raw: seq<Interval>): map<nat, int> {
    if raw == [] then map[]
    else Merged(RawParts(events, dim, f, raw[..|raw| - 1]), RawPart(events, dim, f, raw[|raw| - 1]))
  }

  ghost function Hybrid(events: seq<Event>, dim: Dimension, f: Filters, closed: Interval, hasClosed: bool,
                        raw: seq<Interval>): map<nat, int> {
    Merged(if hasClosed then AggregateTotals(events, dim, closed) else map[], RawParts(events, dim, f, raw))
  }

  function Only(m: map<nat, int>, id: nat): map<nat, int> { map k | k in m && k == id :: m[k] }

  /** The aggregate carries the report's own dimension and nothing else to filter on. */
  predicate FastPath(dim: Dimension, f: Filters) {
    (dim == ByCategory || f.category == 0) && (dim == ByApp || f.app == 0)
    && f.project == 0 && f.device == 0 && f.precision == AnyPrecision
  }

  function OwnFilter(dim: Dimension, f: Filters): nat { if dim == ByCategory then f.category else f.app }

  /** The closed-window aggregate and the raw windows, merged. */
  method FastTotals(events: seq<Event>, f: Filters, dim: Dimension, closed: Interval, hasClosed: bool,
                    rawWindows: seq<Interval>) returns (result: map<nat, int>)
    ensures result == Hybrid(events, dim, f, closed, hasClosed, rawWindows)
  {
    result := map[];
    if hasClosed {
      var rows := TotalsForRange(events, dim, closed);
      MergeNothing(rows);
      result := MergeBuckets(result, rows);
    }
    ghost var base := result;
    MergeNothing(base);
    for i := 0 to |rawWindows|
      invariant result == Merged(base, RawParts(events, dim, f, rawWindows[..i]))
    {
      var raw := RawTotals(events, rawWindows[i].start, rawWindows[i].end, f, dim);
      MergeAssociates(base, RawParts(events, dim, f, rawWindows[..i]), raw);
      assert rawWindows[..i + 1][..i] == rawWindows[..i];
      result := MergeBuckets(result, raw);
    }
    assert rawWindows[..|rawWindows|] == rawWindows;
  }

  lemma MergeNothing(a: map<nat, int>)
    ensures Merged(a, map[]) == a && Merged(map[], a) == a
  {
  }

  lemma MergeAssociates(a: map<nat, int>, b: map<nat, int>, c: map<nat, int>)
    ensures Merged(Merged(a, b), c) == Merged(a, Merged(b, c))
  {
  }

  // ---- The breakdown

  /** Largest total first, ties by id. */
  function Rank(id: nat, seconds: int): Pos { Pos(-seconds, id) }

  function Ranks(m: map<nat, int>): set<Pos> { set id | id in m :: Rank(id, m[id]) }

  method SortRanks(a: array<Pos>)
    requires forall i, j :: 0 <= i < j < a.Length ==> a[i] != a[j]
    modifies a
    ensures Ascending(a[..]) && Elements(a[..]) == old(Elements(a[..]))
  {
    ghost var given := Elements(a[..]);
    for n := 0 to a.Length
      invariant forall p, q :: 0 <= p < q < n ==> Less(a[p], a[q])
      invariant forall i, j :: 0 <= i < j < a.Length ==> a[i] != a[j]
      invariant Elements(a[..]) == given
    {
      var j := n;
      while j > 0 && Less(a[j], a[j - 1])
        invariant 0 <= j <= n
        invariant forall p, q :: 0 <= p < q <= n && q != j ==> Less(a[p], a[q])
        invariant forall i, j :: 0 <= i < j < a.Length ==> a[i] != a[j]
        invariant Elements(a[..]) == given
      {
        SwapKeepsElements(a[..], j);
        ghost var before := a[..];
        a[j - 1], a[j] := a[j], a[j - 1];
        assert a[..] == before[j - 1 := before[j]][j := before[j - 1]];
        j := j - 1;
      }
    }
  }

  lemma SwapKeepsElements(s: seq<Pos>, j: nat)
    requires 0 < j < |s|
    ensures Elements(s[j - 1 := s[j]][j := s[j - 1]]) == Elements(s)
  {
    var t := s[j - 1 := s[j]][j := s[j - 1]];
    forall x ensures x in t <==> x in s {
      if x in s {
        var i :| 0 <= i < |s| && s[i] == x;
        assert t[if i == j then j - 1 else if i == j - 1 then j else i] == x;
      }
      if x in t {
        var i :| 0 <= i < |t| && t[i] == x;
      }
    }
  }

  lemma RankAppend(m: map<nat, int>, seen: set<nat>, out: seq<Pos>, id: nat)
    requires seen <= m.Keys && id in m && id !in seen
    requires Elements(out) == set k | k in seen :: Rank(k, m[k])
    ensures Rank(id, m[id]) !in out
    ensures Elements(out + [Rank(id, m[id])]) == set k | k in seen + {id} :: Rank(k, m[k])
  {
    var r := Rank(id, m[id]);
    assert forall x :: x in out ==> x in Elements(out);
    assert forall x :: x in out + [r] <==> x in out || x == r;
    var before, after := set k | k in seen :: Rank(k, m[k]), set k | k in seen + {id} :: Rank(k, m[k]);
    forall x ensures x in after <==> x in before || x == r {
      if x == r { assert id in seen + {id}; }
      if x in before {
        var k :| k in seen && Rank(k, m[k]) == x;
        assert k in seen + {id};
      }
    }
  }

  /** toSortedSlice: whatever order the map is walked in, the listing is the same. */
  method ToSortedSlice(m: map<nat, int>) returns (out: seq<Pos>)
    ensures out == Sorted(Ranks(m))
  {
    out := [];
    var left := m.Keys;
    while left != {}
      invariant left <= m.Keys
      invariant Elements(out) == set id | id in m.Keys - left :: Rank(id, m[id])
      invariant forall i, j :: 0 <= i < j < |out| ==> out[i] != out[j]
      decreases left
    {
      var id :| id in left;
      RankAppend(m, m.Keys - left, out, id);
      assert m.Keys - (left - {id}) == (m.Keys - left) + {id};
      out := out + [Rank(id, m[id])];
      left := left - {id};
    }
    var a := new Pos[|out|](i requires 0 <= i < |out| => out[i]);
    assert a[..] == out;
    SortRanks(a);
    out := a[..];
    assert Elements(out) == Ranks(m);
    AscendingIsUnique(out, Sorted(Ranks(m)));
  }

  function AtBy(m: map<nat, int>): nat -> int { (id: nat) => At(m, id) }

  /** sumSeconds: the grand total. */
  method SumSecondsOf(m: map<nat, int>) returns (total: int)
    ensures total == Sum(m.Keys, AtBy(m))
  {
    total := 0;
    var left := m.Keys;
    while left != {}
      invariant left <= m.Keys
      invariant total + Sum(left, AtBy(m)) == Sum(m.Keys, AtBy(m))
      decreases left
    {
      var id :| id in left;
      SumRemove(left, AtBy(m), id);
      total := total + m[id];
      left := left - {id};
    }
  }
}
