/** The split of a report range into a closed, day-aligned window read from the
daily aggregates and up to two windows read from raw events. */
module Window {
  import opened Trim

  const DAY := 24 * 3600 * SECOND

  /** Midnight UTC of the day of t; times are nanoseconds since the epoch. */
  function DayStart(t: int): (d: int)
    ensures d <= t < d + DAY && d % DAY == 0
  {
    t - t % DAY
  }

  /** A day has 86,400 seconds of 10^9 nanoseconds. */
  lemma DaysAreUtcDays(t: int)
    ensures DayStart(t) == t / 86_400_000_000_000 * 86_400_000_000_000
  {
  }

  function MinTime(a: int, b: int): int { if a < b then a else b }

  predicate Aligned(w: Interval) { w.start % DAY == 0 && w.end % DAY == 0 }

  predicate Inside(w: Interval, from: int, to: int) { from <= w.start && w.end <= to }

  /** The windows, in time order, are the parts of [from, to) between ascending cut points. */
  predicate Partitions(from: int, to: int, closed: Interval, hasClosed: bool, raw: seq<Interval>) {
    if hasClosed then
      from <= closed.start && Proper(closed) && closed.end <= to
      && raw == (if from < closed.start then [Interval(from, closed.start)] else [])
                + (if closed.end < to then [Interval(closed.end, to)] else [])
    else
      raw == [Interval(from, to)]
      || (|raw| == 2 && raw[0].start == from && raw[0].end == raw[1].start && raw[1].end == to && raw[0].end % DAY == 0)
  }

  /** How many of the windows an instant falls into. */
  function Hits(closed: Interval, hasClosed: bool, raw: seq<Interval>, t: int): nat {
    (if hasClosed && Contains(closed, t) then 1 else 0)
    + (if |raw| > 0 && Contains(raw[0], t) then 1 else 0)
    + (if |raw| > 1 && Contains(raw[1], t) then 1 else 0)
  }

  /** What the split promises.  The closed window is the largest that could be read from the aggregates: every
      non-empty aligned window within the range and before today lies inside it. */
  ghost predicate IsSplit(from: int, to: int, now: int, closed: Interval, hasClosed: bool, raw: seq<Interval>) {
    (from < to ==> Partitions(from, to, closed, hasClosed, raw) && AllProper(raw) && |raw| <= 2)
    && (hasClosed ==> Proper(closed) && Aligned(closed) && Inside(closed, from, MinTime(to, DayStart(now))))
    && (from < to ==> forall w: Interval ::
          Proper(w) && Aligned(w) && Inside(w, from, MinTime(to, DayStart(now))) ==>
            hasClosed && Inside(w, closed.start, closed.end))
    && (from >= to ==> !hasClosed && raw == [Interval(from, to)])
  }

  method SplitClosedOpen(from: int, to: int, now: int) returns (closed: Interval, hasClosed: bool, raw: seq<Interval>)
    ensures IsSplit(from, to, now, closed, hasClosed, raw)
  {
    closed, hasClosed, raw := Interval(0, 0), false, [];
    var todayStart := DayStart(now);
    var effectiveClosedTo := to;
    if todayStart < effectiveClosedTo {
      effectiveClosedTo := todayStart;
    }
    if !(effectiveClosedTo > from) {
      raw := raw + [Interval(from, to)];
      return;
    }
    var alignedFrom := DayStart(from);
    if from != alignedFrom {
      alignedFrom := alignedFrom + DAY;
      raw := raw + [Interval(from, MinTime(to, alignedFrom))];
    }
    var alignedTo := DayStart(effectiveClosedTo);
    if alignedFrom < alignedTo {
      closed := Interval(alignedFrom, alignedTo);
      hasClosed := true;
    }
    if to > alignedTo {
      var start := alignedTo;
      if !hasClosed && start < alignedFrom {
        start := alignedFrom;
      }
      if start < to {
        raw := raw + [Interval(start, to)];
      }
    }
    AlignedAreInside(from, effectiveClosedTo, alignedFrom, alignedTo);
    LargestClosed(from, effectiveClosedTo, alignedFrom, alignedTo, closed, hasClosed);
  }

  /** A closed window between the aligned ends, unless they meet, holds every aligned window there is. */
  lemma LargestClosed(from: int, to: int, alignedFrom: int, alignedTo: int, closed: Interval, hasClosed: bool)
    requires forall w: Interval :: Aligned(w) && Inside(w, from, to) ==> Inside(w, alignedFrom, alignedTo)
    requires hasClosed <==> alignedFrom < alignedTo
    requires hasClosed ==> closed == Interval(alignedFrom, alignedTo)
    ensures forall w: Interval :: Proper(w) && Aligned(w) && Inside(w, from, to) ==>
              hasClosed && Inside(w, closed.start, closed.end)
  {
  }

  /** Day boundaries at or after `from` start at its next midnight, and those at or before `to` end at its last. */
  lemma AlignedAreInside(from: int, to: int, alignedFrom: int, alignedTo: int)
    requires alignedTo == DayStart(to)
    requires alignedFrom == if from == DayStart(from) then from else DayStart(from) + DAY
    ensures forall w: Interval :: Aligned(w) && Inside(w, from, to) ==> Inside(w, alignedFrom, alignedTo)
  {
  }

  /** For every from < to and every now, the windows cover [from, to) exactly, each instant once. */
  lemma WindowsPartition(from: int, to: int, now: int, closed: Interval, hasClosed: bool, raw: seq<Interval>, t: int)
    requires from < to && IsSplit(from, to, now, closed, hasClosed, raw)
    ensures Hits(closed, hasClosed, raw, t) == if from <= t < to then 1 else 0
  {
    assert forall i :: 0 <= i < |raw| ==> raw[i] in raw && Proper(raw[i]);
  }
}
