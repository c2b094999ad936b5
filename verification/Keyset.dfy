/** Keyset pagination over pairs ordered lexicographically.

Two tables of the service are paged this way: the sync changelog, by
(xid8, server_seq), and activity_events, by (started_at, event_id).  The report
breakdown uses the same order, on (-seconds, id).  A position identifies a row,
so a result set is a set of positions. */
module Keyset {

  datatype Pos = Pos(major: int, minor: int)

  /** PullCursor.Less, and SQL's row comparison (a, b) < (c, d). */
  predicate Less(a: Pos, b: Pos) {
    if a.major != b.major then a.major < b.major else a.minor < b.minor
  }

  predicate AtMost(a: Pos, b: Pos) { a == b || Less(a, b) }

  ghost predicate Ascending(s: seq<Pos>) {
    forall i, j :: 0 <= i < j < |s| ==> Less(s[i], s[j])
  }

  ghost function Elements<T>(s: seq<T>): set<T> { set x | x in s }

  // ---- ORDER BY

  lemma LeastExists(S: set<Pos>)
    requires S != {}
    ensures exists m :: m in S && forall q :: q in S ==> AtMost(m, q)
  {
    var p :| p in S;
    var rest := S - {p};
    if rest == {} {
      assert S == {p};
      assert forall q :: q in S ==> AtMost(p, q);
    } else {
      LeastExists(rest);
      var m :| m in rest && forall q :: q in rest ==> AtMost(m, q);
      var least := if Less(p, m) then p else m;
      assert forall q :: q in S ==> q == p || q in rest;
      assert forall q :: q in S ==> AtMost(least, q);
    }
  }

  function Least(S: set<Pos>): (m: Pos)
    requires S != {}
    ensures m in S && forall q :: q in S ==> AtMost(m, q)
  {
    LeastExists(S);
    var m :| m in S && forall q :: q in S ==> AtMost(m, q);
    m
  }

  /** The rows of S in ORDER BY order. */
  function Sorted(S: set<Pos>): (s: seq<Pos>)
    ensures Ascending(s) && Elements(s) == S && |s| == |S|
  {
    if S == {} then [] else
      var m := Least(S);
      var rest := Sorted(S - {m});
      PutFirst(S, m, rest);
      [m] + rest
  }

  lemma PutFirst(S: set<Pos>, m: Pos, rest: seq<Pos>)
    requires m in S && forall q :: q in S ==> AtMost(m, q)
    requires Ascending(rest) && Elements(rest) == S - {m}
    ensures Ascending([m] + rest) && Elements([m] + rest) == S
  {
    assert forall x :: x in rest <==> x in Elements(rest);
    assert forall x :: x in [m] + rest <==> x == m || x in rest;
    forall j | 0 <= j < |rest| ensures Less(m, rest[j]) {
      assert rest[j] in Elements(rest);
    }
  }

  /** Two ascending listings of the same rows are the same list. */
  lemma {:induction false} AscendingIsUnique(s: seq<Pos>, t: seq<Pos>)
    requires Ascending(s) && Ascending(t) && Elements(s) == Elements(t)
    ensures s == t
  {
    if s == [] {
      assert forall i :: 0 <= i < |t| ==> t[i] in Elements(t);
    } else {
      assert s[0] in Elements(t);
      assert t != [];
      assert t[0] in Elements(s);
      assert s[0] == t[0];
      forall x ensures x in s[1..] <==> x in t[1..] {
        if x in s[1..] { assert x in Elements(s); }
        if x in t[1..] { assert x in Elements(t); }
      }
      assert Elements(s[1..]) == Elements(t[1..]);
      AscendingIsUnique(s[1..], t[1..]);
      assert s == [s[0]] + s[1..] && t == [t[0]] + t[1..];
    }
  }

  // ---- WHERE (major, minor) > cursor ORDER BY major, minor LIMIT n

  function After(S: set<Pos>, c: Pos): set<Pos> { set p | p in S && Less(c, p) }

  function Page(S: set<Pos>, c: Pos, limit: nat): (page: seq<Pos>)
    ensures page <= Sorted(After(S, c))
    ensures |page| == if |After(S, c)| < limit then |After(S, c)| else limit
  {
    var all := Sorted(After(S, c));
    if |all| < limit then all else all[..limit]
  }

  /** The next cursor: the last row of the page, or the old cursor if it is empty. */
  function Next(c: Pos, page: seq<Pos>): Pos {
    if page == [] then c else page[|page| - 1]
  }

  /** A page with its next cursor: exactly the rows of S in (c, next], in order. */
  ghost predicate Served(S: set<Pos>, c: Pos, page: seq<Pos>, next: Pos) {
    Ascending(page)
    && AtMost(c, next)
    && (page == [] ==> next == c)
    && (page != [] ==> next in page)
    && forall p :: p in page <==> p in S && Less(c, p) && AtMost(p, next)
  }

  /** Nothing between the old and the new cursor is left out of a page, and nothing else is in it. */
  lemma PageIsExact(S: set<Pos>, c: Pos, limit: nat)
    ensures Served(S, c, Page(S, c, limit), Next(c, Page(S, c, limit)))
  {
    var all := Sorted(After(S, c));
    var page := Page(S, c, limit);
    assert forall i :: 0 <= i < |page| ==> page[i] == all[i];
    forall p ensures p in page <==> p in S && Less(c, p) && AtMost(p, Next(c, page)) {
      if p in page {
        assert p in Elements(all);
      }
      if p in S && Less(c, p) && AtMost(p, Next(c, page)) {
        assert p in Elements(all);
        var i :| 0 <= i < |all| && all[i] == p;
        assert page != [];
        assert forall k :: |page| <= k < |all| ==> Less(all[|page| - 1], all[k]);
        assert page[i] == p;
      }
    }
    if page != [] {
      assert page[|page| - 1] in Elements(all);
    }
  }

  /** Fetching one row more than the page tells whether rows remain, and cut back it is the page. */
  lemma OneRowMore(S: set<Pos>, c: Pos, limit: nat)
    ensures |Page(S, c, limit + 1)| > limit <==> |After(S, c)| > limit
    ensures var rows := Page(S, c, limit + 1);
            Page(S, c, limit) == if |rows| > limit then rows[..limit] else rows
  {
  }

  /** What is left after a page is the sorted list without that page. */
  lemma PageSplits(S: set<Pos>, c: Pos, limit: nat)
    ensures var page := Page(S, c, limit);
            Sorted(After(S, c)) == page + Sorted(After(S, Next(c, page)))
  {
    var page := Page(S, c, limit);
    PageIsExact(S, c, limit);
    ServedSplits(S, c, page, Next(c, page), Sorted(After(S, Next(c, page))), Sorted(After(S, c)));
  }

  lemma ServedSplits(S: set<Pos>, c: Pos, page: seq<Pos>, next: Pos, rest: seq<Pos>, all: seq<Pos>)
    requires Served(S, c, page, next)
    requires Ascending(rest) && Elements(rest) == After(S, next)
    requires Ascending(all) && Elements(all) == After(S, c)
    ensures all == page + rest
  {
    assert forall p :: p in rest <==> p in Elements(rest);
    JoinAscending(page, rest, next);
    forall p ensures p in page + rest <==> p in After(S, c) {
      assert p in page + rest <==> p in page || p in rest;
    }
    assert Elements(page + rest) == After(S, c);
    AscendingIsUnique(page + rest, all);
  }

  lemma JoinAscending(s: seq<Pos>, t: seq<Pos>, cut: Pos)
    requires Ascending(s) && Ascending(t)
    requires forall p :: p in s ==> AtMost(p, cut)
    requires forall p :: p in t ==> Less(cut, p)
    ensures Ascending(s + t)
  {
    forall i, j | 0 <= i < j < |s + t| ensures Less((s + t)[i], (s + t)[j]) {
      if i < |s| <= j {
        assert AtMost(s[i], cut) && Less(cut, t[j - |s|]);
      }
    }
  }

  /** A full page moves the cursor past at least one row. */
  lemma PageAdvances(S: set<Pos>, c: Pos, limit: nat)
    requires limit > 0 && After(S, c) != {}
    ensures Page(S, c, limit) != []
    ensures |After(S, Next(c, Page(S, c, limit)))| < |After(S, c)|
  {
    PageSplits(S, c, limit);
    var page := Page(S, c, limit);
    assert |Sorted(After(S, c))| == |page| + |Sorted(After(S, Next(c, page)))|;
  }

  /** A client that follows next cursors until a page reports nothing beyond it. */
  function Follow(S: set<Pos>, c: Pos, limit: nat): (pages: seq<seq<Pos>>)
    requires limit > 0
    decreases |After(S, c)|
  {
    var page := Page(S, c, limit);
    if |After(S, c)| <= limit then [page]
    else
      PageAdvances(S, c, limit);
      [page] + Follow(S, Next(c, page), limit)
  }

  function Concat<T>(pages: seq<seq<T>>): seq<T> {
    if pages == [] then [] else pages[0] + Concat(pages[1..])
  }

  /** Pages of any size, chained through their cursors, are the whole ordered list. */
  lemma {:induction false} PagesConcatenate(S: set<Pos>, c: Pos, limit: nat)
    requires limit > 0
    ensures Concat(Follow(S, c, limit)) == Sorted(After(S, c))
    decreases |After(S, c)|
  {
    var page := Page(S, c, limit);
    PageSplits(S, c, limit);
    if |After(S, c)| <= limit {
      assert page == Sorted(After(S, c));
      assert Concat([page]) == page + Concat([]) == page;
    } else {
      PageAdvances(S, c, limit);
      PagesConcatenate(S, Next(c, page), limit);
      var more := Follow(S, Next(c, page), limit);
      assert ([page] + more)[1..] == more;
    }
  }

  /** Every page of a followed list except the last is full, so the number of round trips is fixed by the page size. */
  lemma {:induction false} PagesAreFull(S: set<Pos>, c: Pos, limit: nat, i: nat)
    requires limit > 0 && i < |Follow(S, c, limit)| - 1
    ensures |Follow(S, c, limit)[i]| == limit
    decreases i
  {
    PageAdvances(S, c, limit);
    if i > 0 {
      PagesAreFull(S, Next(c, Page(S, c, limit)), limit, i - 1);
    }
  }
}
