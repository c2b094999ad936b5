/** GET /v1/activities: filtered events in chronological order, a page at a time, through opaque cursors. */
module Activities {
  import opened Options
  import opened Keyset
  import opened CursorCodec
  import opened Sums

  /** Times are nanoseconds since the epoch. */
  const DEFAULT_LIST_LIMIT := 50
  const MAX_LIST_LIMIT := 200
  const MAX_REPORT_RANGE := 366 * 24 * 3600 * 1_000_000_000

  /** The zero time.Time, 1 January of year 1. */
  const ZERO_TIME := -62_135_596_800 * 1_000_000_000

  const ZERO_CURSOR := Pos(0, 0)

  datatype Key = Key(user: nat, startedAt: int, eventId: nat)

  datatype Row = Row(app: Option<nat>, category: Option<nat>, project: Option<nat>, device: nat, precision: string,
                     deleted: bool)

  datatype Params = Params(
    start: int, end: int, appID: string, categoryID: string, projectID: string, deviceID: string, precision: string,
    cursor: string, limit: int)

  datatype Response = Listed(rows: seq<Pos>, nextCursor: string, hasMore: bool) | Invalid

  /** An omitted filter, a UUID, or neither. */
  datatype Filter = Unset | Exactly(id: nat) | BadFilter

  function ParseFilter(s: string): Filter {
    if s == "" then Unset
    else match ParseUuid(s)
      case Some(id) => Exactly(id)
      case None => BadFilter
  }

  predicate Passes(f: Filter, column: Option<nat>) { f.Unset? || (f.Exactly? && column == Some(f.id)) }

  predicate ValidRequest(userID: string, p: Params) {
    ParseUuid(userID).Some?
    && p.start != ZERO_TIME && p.end != ZERO_TIME && p.start <= p.end && p.end - p.start <= MAX_REPORT_RANGE
    && !ParseFilter(p.appID).BadFilter? && !ParseFilter(p.categoryID).BadFilter?
    && !ParseFilter(p.projectID).BadFilter? && !ParseFilter(p.deviceID).BadFilter?
    && (p.precision == "" || p.precision == "exact" || p.precision == "approximate")
    && DecodeActivityCursor(p.cursor).Some?
  }

  /** The WHERE clause without the cursor. */
  predicate Matches(k: Key, row: Row, user: nat, p: Params) {
    k.user == user && !row.deleted && p.start <= k.startedAt < p.end
    && Passes(ParseFilter(p.appID), row.app) && Passes(ParseFilter(p.categoryID), row.category)
    && Passes(ParseFilter(p.projectID), row.project) && Passes(ParseFilter(p.deviceID), Some(row.device))
    && (p.precision == "" || row.precision == p.precision)
  }

  /** The positions of the caller's matching events; a user's event is identified by its position. */
  function Matching(events: map<Key, Row>, user: nat, p: Params): set<Pos> {
    set k | k in events && Matches(k, events[k], user, p) :: Pos(k.startedAt, k.eventId)
  }

  function PageSize(limit: int): (n: nat)
    ensures 1 <= n <= MAX_LIST_LIMIT
  {
    if limit <= 0 then DEFAULT_LIST_LIMIT else if limit > MAX_LIST_LIMIT then MAX_LIST_LIMIT else limit
  }

  /** UnixNano is an int64 and wraps. */
  function UnixNano(t: int): (n: int)
    ensures -TWO_63 <= n < TWO_63
  {
    (t + TWO_63) % TWO_64 - TWO_63
  }

  function TokenOf(p: Pos): string
    requires 0 <= p.minor
  {
    EncodeActivityCursor(Pos(UnixNano(p.major), p.minor))
  }

  ghost predicate UuidKeys(events: map<Key, Row>) { forall k :: k in events ==> k.eventId < TWO_128 }

  /** The page of S after c, its cursor and whether rows remain beyond it. */
  function PageAnswer(S: set<Pos>, c: Pos, cursor: string, limit: int): Response
    requires forall q :: q in S ==> 0 <= q.minor
  {
    var page := Page(S, c, PageSize(limit));
    LastRowIsARow(S, c, PageSize(limit));
    Listed(page, if page == [] then cursor else TokenOf(page[|page| - 1]), |After(S, c)| > PageSize(limit))
  }

  function Answer(events: map<Key, Row>, userID: string, p: Params): Response {
    if !ValidRequest(userID, p) then Invalid
    else PageAnswer(Matching(events, ParseUuid(userID).value, p), DecodeActivityCursor(p.cursor).value, p.cursor,
                    p.limit)
  }

  method EffectiveLimit(requested: int) returns (limit: int)
    ensures limit == PageSize(requested)
  {
    limit := requested;
    if limit <= 0 {
      limit := DEFAULT_LIST_LIMIT;
    }
    if limit > MAX_LIST_LIMIT {
      limit := MAX_LIST_LIMIT;
    }
  }

  lemma LastRowIsARow(S: set<Pos>, c: Pos, limit: nat)
    ensures var page := Page(S, c, limit); page != [] ==> page[|page| - 1] in S
  {
    PageIsExact(S, c, limit);
  }

  /** One row more than the page is fetched to learn whether there is a next page. */
  method FetchOneMore(S: set<Pos>, c: Pos, limit: nat) returns (rows: seq<Pos>, hasMore: bool)
    ensures rows == Page(S, c, limit) && (hasMore <==> |After(S, c)| > limit)
  {
    OneRowMore(S, c, limit);
    rows := Page(S, c, limit + 1);
    hasMore := |rows| > limit;
    if hasMore {
      rows := rows[..limit];
    }
  }

  method ReadPage(S: set<Pos>, c: Pos, cursor: string, requested: int) returns (r: Response)
    requires forall q :: q in S ==> 0 <= q.minor
    ensures r == PageAnswer(S, c, cursor, requested)
  {
    var limit := EffectiveLimit(requested);
    var rows, hasMore := FetchOneMore(S, c, limit);
    var nextCursor := cursor;
    if |rows| > 0 {
      LastRowIsARow(S, c, limit);
      nextCursor := TokenOf(rows[|rows| - 1]);
    }
    r := Listed(rows, nextCursor, hasMore);
    AnswerOf(S, c, cursor, requested, rows, nextCursor, hasMore);
  }

  lemma AnswerOf(S: set<Pos>, c: Pos, cursor: string, limit: int, rows: seq<Pos>, nextCursor: string, hasMore: bool)
    requires forall q :: q in S ==> 0 <= q.minor
    requires rows == Page(S, c, PageSize(limit)) && (hasMore <==> |After(S, c)| > PageSize(limit))
    requires rows != [] ==> 0 <= rows[|rows| - 1].minor
    requires nextCursor == if rows == [] then cursor else TokenOf(rows[|rows| - 1])
    ensures PageAnswer(S, c, cursor, limit) == Listed(rows, nextCursor, hasMore)
  {
  }

  method List(events: map<Key, Row>, userID: string, p: Params) returns (r: Response)
    ensures r == Answer(events, userID, p)
    ensures r.Listed? <==> ValidRequest(userID, p)
  {
    var uid := ParseUuid(userID);
    if uid.None? {
      return Invalid;
    }
    if p.start == ZERO_TIME || p.end == ZERO_TIME {
      return Invalid;
    }
    if p.start > p.end || p.end - p.start > MAX_REPORT_RANGE {
      return Invalid;
    }
    if ParseFilter(p.appID).BadFilter? || ParseFilter(p.categoryID).BadFilter?
       || ParseFilter(p.projectID).BadFilter? || ParseFilter(p.deviceID).BadFilter? {
      return Invalid;
    }
    if p.precision != "" && !(p.precision == "exact" || p.precision == "approximate") {
      return Invalid;
    }
    var cur := DecodeActivityCursor(p.cursor);
    if cur.None? {
      return Invalid;
    }
    r := ReadPage(Matching(events, uid.value, p), cur.value, p.cursor, p.limit);
  }

  /** A missing or non-positive limit means 50 events, and no page has more than 200. */
  lemma PageSizes(limit: int)
    ensures limit <= 0 ==> PageSize(limit) == 50
    ensures 0 < limit <= 200 ==> PageSize(limit) == limit
    ensures limit > 200 ==> PageSize(limit) == 200
  {
  }

  /** A filter text is empty or a UUID. */
  predicate IsFilter(text: string) { text == "" || ParseUuid(text).Some? }

  /** What a request must be: two set times in order and no more than 366 days apart, well-formed ids, a known
      precision, and a cursor the service could have issued. */
  lemma ValidRequestIff(events: map<Key, Row>, userID: string, p: Params)
    ensures Answer(events, userID, p).Listed? <==>
              ParseUuid(userID).Some?
              && p.start != -62_135_596_800_000_000_000 && p.end != -62_135_596_800_000_000_000
              && 0 <= p.end - p.start <= 31_622_400_000_000_000
              && IsFilter(p.appID) && IsFilter(p.categoryID) && IsFilter(p.projectID) && IsFilter(p.deviceID)
              && (p.precision == "" || p.precision == "exact" || p.precision == "approximate")
              && DecodeActivityCursor(p.cursor).Some?
  {
  }

  // ---- Cursors

  lemma UnixNanoWraps(t: int)
    ensures UnixNano(t) == t <==> -TWO_63 <= t < TWO_63
    ensures TWO_63 <= t < TWO_64 ==> UnixNano(t) == t - TWO_64 < 0
  {
  }

  /** A page's cursor names its last row if and only if that row starts within the int64 nanosecond range. */
  lemma CursorNamesLastRowIff(p: Pos)
    requires 0 <= p.minor < TWO_128
    ensures DecodeActivityCursor(TokenOf(p)) == Some(p) <==> -TWO_63 <= p.major < TWO_63
    ensures DecodeActivityCursor(TokenOf(p)) == Some(Pos(UnixNano(p.major), p.minor)) && TokenOf(p) != ""
  {
    ActivityCursorRoundTrip(Pos(UnixNano(p.major), p.minor));
    UnixNanoWraps(p.major);
  }

  // ---- Following cursors

  /** Pages requested one after another, each with its own limit, each from the cursor the one before returned. */
  function Walk(events: map<Key, Row>, userID: string, p: Params, limits: seq<int>): (seq<seq<Pos>>, string)
    decreases limits
  {
    if limits == [] then ([], p.cursor)
    else
      match Answer(events, userID, p.(limit := limits[0]))
      case Invalid => ([], p.cursor)
      case Listed(rows, next, _) =>
        var (pages, last) := Walk(events, userID, p.(cursor := next), limits[1..]);
        ([rows] + pages, last)
  }

  lemma MatchingIgnoresPaging(events: map<Key, Row>, user: nat, p: Params, limit: int, cursor: string)
    ensures Matching(events, user, p.(limit := limit)) == Matching(events, user, p)
    ensures Matching(events, user, p.(cursor := cursor)) == Matching(events, user, p)
  {
    assert forall k, row :: Matches(k, row, user, p.(limit := limit)) == Matches(k, row, user, p);
    assert forall k, row :: Matches(k, row, user, p.(cursor := cursor)) == Matches(k, row, user, p);
  }

  /** A page answers a valid request, and its cursor is valid and stands exactly where the page ends. */
  lemma NextIsWhereThePageEnds(events: map<Key, Row>, userID: string, p: Params, limit: int)
    requires UuidKeys(events) && ValidRequest(userID, p) && -TWO_63 <= p.start && p.end <= TWO_63
    ensures var r := Answer(events, userID, p.(limit := limit));
            var c := DecodeActivityCursor(p.cursor).value;
            var S := Matching(events, ParseUuid(userID).value, p);
            r.Listed? && r.rows == Page(S, c, PageSize(limit)) && (r.hasMore <==> |After(S, c)| > PageSize(limit))
            && DecodeActivityCursor(r.nextCursor) == Some(Next(c, r.rows))
            && ValidRequest(userID, p.(cursor := r.nextCursor))
  {
    var user, c := ParseUuid(userID).value, DecodeActivityCursor(p.cursor).value;
    var S := Matching(events, user, p);
    MatchingIgnoresPaging(events, user, p, limit, p.cursor);
    assert ValidRequest(userID, p.(limit := limit));
    assert forall q :: q in S ==> -TWO_63 <= q.major < TWO_63 && 0 <= q.minor < TWO_128;
    PageEndsAtItsCursor(S, c, p.cursor, limit);
  }

  lemma PageEndsAtItsCursor(S: set<Pos>, c: Pos, cursor: string, limit: int)
    requires forall q :: q in S ==> -TWO_63 <= q.major < TWO_63 && 0 <= q.minor < TWO_128
    requires DecodeActivityCursor(cursor) == Some(c)
    ensures DecodeActivityCursor(PageAnswer(S, c, cursor, limit).nextCursor)
            == Some(Next(c, Page(S, c, PageSize(limit))))
  {
    var page := Page(S, c, PageSize(limit));
    if page == [] {
      EmptyPageKeepsCursor(S, c, cursor, limit);
    } else {
      var q := page[|page| - 1];
      PageEndsOnARow(S, c, cursor, limit);
      TokenDecodes(q);
    }
  }

  lemma EmptyPageKeepsCursor(S: set<Pos>, c: Pos, cursor: string, limit: int)
    requires (forall x :: x in S ==> 0 <= x.minor) && Page(S, c, PageSize(limit)) == []
    ensures PageAnswer(S, c, cursor, limit).nextCursor == cursor
  {
  }

  lemma TokenDecodes(q: Pos)
    requires -TWO_63 <= q.major < TWO_63 && 0 <= q.minor < TWO_128
    ensures DecodeActivityCursor(TokenOf(q)) == Some(q)
  {
    CursorNamesLastRowIff(q);
  }

  /** The pages with what lies beyond the last cursor are the whole list; with as many pages as rows, nothing does. */
  ghost predicate MakeTheList(S: set<Pos>, c: Pos, pages: seq<seq<Pos>>, last: string) {
    var end := DecodeActivityCursor(last);
    end.Some? && Sorted(After(S, c)) == Concat(pages) + Sorted(After(S, end.value))
    && (|pages| >= |After(S, c)| ==> Concat(pages) == Sorted(After(S, c)))
  }

  lemma OnePageMore(S: set<Pos>, c: Pos, limit: nat, pages: seq<seq<Pos>>, last: string)
    requires limit > 0 && MakeTheList(S, Next(c, Page(S, c, limit)), pages, last)
    ensures MakeTheList(S, c, [Page(S, c, limit)] + pages, last)
  {
    var page := Page(S, c, limit);
    PageSplits(S, c, limit);
    if After(S, c) != {} {
      PageAdvances(S, c, limit);
    }
    assert ([page] + pages)[1..] == pages;
    assert Concat([page] + pages) == page + Concat(pages);
    Regroup(Sorted(After(S, c)), page, Concat(pages), Sorted(After(S, Next(c, page))),
            Sorted(After(S, DecodeActivityCursor(last).value)));
  }

  /** Over an unchanged table, pages of any sizes chained through their cursors are the ordered list of matching events
      from the starting cursor on, up to what lies beyond the last cursor; and once as many pages were asked for as
      there are events, nothing does. */
  lemma {:induction false} PagesMakeTheList(events: map<Key, Row>, userID: string, p: Params, limits: seq<int>)
    requires UuidKeys(events) && ValidRequest(userID, p) && -TWO_63 <= p.start && p.end <= TWO_63
    ensures var (pages, last) := Walk(events, userID, p, limits);
            |pages| == |limits|
            && MakeTheList(Matching(events, ParseUuid(userID).value, p), DecodeActivityCursor(p.cursor).value,
                           pages, last)
    decreases limits
  {
    var S := Matching(events, ParseUuid(userID).value, p);
    var c := DecodeActivityCursor(p.cursor).value;
    if limits != [] {
      var r := Answer(events, userID, p.(limit := limits[0]));
      NextIsWhereThePageEnds(events, userID, p, limits[0]);
      var p1 := p.(cursor := r.nextCursor);
      MatchingIgnoresPaging(events, ParseUuid(userID).value, p, p.limit, r.nextCursor);
      PagesMakeTheList(events, userID, p1, limits[1..]);
      var (pages, last) := Walk(events, userID, p1, limits[1..]);
      OnePageMore(S, c, PageSize(limits[0]), pages, last);
    } else {
      NoPages(S, c, p.cursor);
    }
  }

  lemma NoPages(S: set<Pos>, c: Pos, cursor: string)
    requires DecodeActivityCursor(cursor) == Some(c)
    ensures MakeTheList(S, c, [], cursor)
  {
    assert Concat<Pos>([]) == [];
    assert Sorted(After(S, c)) == [] + Sorted(After(S, c));
  }

  lemma Regroup<T>(all: seq<T>, page: seq<T>, pages: seq<T>, rest: seq<T>, beyond: seq<T>)
    requires all == page + rest && rest == pages + beyond
    ensures all == (page + pages) + beyond && (rest == pages ==> all == page + pages)
  {
  }

  /** has_more is false exactly when nothing lies beyond the page's cursor. */
  lemma HasMoreIffRowsRemain(events: map<Key, Row>, userID: string, p: Params)
    requires UuidKeys(events) && ValidRequest(userID, p) && -TWO_63 <= p.start && p.end <= TWO_63
    ensures var r := Answer(events, userID, p);
            var following := Answer(events, userID, p.(cursor := r.nextCursor));
            r.Listed? && following.Listed? && (r.hasMore <==> following.rows != [])
  {
    NextIsWhereThePageEnds(events, userID, p, p.limit);
    assert p.(limit := p.limit) == p;
    var r := Answer(events, userID, p);
    var S := Matching(events, ParseUuid(userID).value, p);
    var c := DecodeActivityCursor(p.cursor).value;
    PageSplits(S, c, PageSize(p.limit));
    var p1 := p.(cursor := r.nextCursor);
    MatchingIgnoresPaging(events, ParseUuid(userID).value, p, p.limit, r.nextCursor);
    NextIsWhereThePageEnds(events, userID, p1, p1.limit);
    assert p1.(limit := p1.limit) == p1;
    assert |Sorted(After(S, c))| == |r.rows| + |Sorted(After(S, Next(c, r.rows)))|;
  }

  // ---- Where the empty cursor and the wrap-around show

  /** The empty cursor is the epoch, so a matching event is in the list from the beginning if and only if it started
      after the epoch, or at it with a non-nil event_id. */
  lemma ListedFromTheBeginningIff(events: map<Key, Row>, userID: string, p: Params, limits: seq<int>, q: Pos)
    requires UuidKeys(events) && ValidRequest(userID, p) && -TWO_63 <= p.start && p.end <= TWO_63 && p.cursor == ""
    requires var S := Matching(events, ParseUuid(userID).value, p); q in S && |limits| >= |S|
    ensures q in Concat(Walk(events, userID, p, limits).0) <==> q.major > 0 || (q.major == 0 && q.minor > 0)
  {
    var S := Matching(events, ParseUuid(userID).value, p);
    PagesMakeTheList(events, userID, p, limits);
    var rest := After(S, ZERO_CURSOR);
    SubsetSize(rest, S);
    assert q in Sorted(rest) <==> q in Elements(Sorted(rest));
  }

  lemma UnixNanoFallsBack(t: int)
    requires TWO_63 <= t
    ensures UnixNano(t) <= t - TWO_64
  {
  }

  /** A filter text lets a column pass if it is empty or the column's id. */
  predicate FilteredBy(text: string, column: Option<nat>) { text == "" || column == ParseUuid(text) }

  /** The columns of a listed event: the user's own, not tombstoned, started in the range, and as every filter asks. */
  predicate Listable(k: Key, row: Row, userID: string, p: Params) {
    Some(k.user) == ParseUuid(userID) && !row.deleted && p.start <= k.startedAt && k.startedAt < p.end
    && FilteredBy(p.appID, row.app) && FilteredBy(p.categoryID, row.category) && FilteredBy(p.projectID, row.project)
    && FilteredBy(p.deviceID, Some(row.device)) && (p.precision == "" || p.precision == row.precision)
  }

  /** A list followed to its end from the empty cursor holds, of the events past the zero cursor, exactly those whose
      columns are as asked. */
  lemma FollowedListHolds(events: map<Key, Row>, userID: string, p: Params, limits: seq<int>, q: Pos)
    requires UuidKeys(events) && ValidRequest(userID, p) && -TWO_63 <= p.start && p.end <= TWO_63 && p.cursor == ""
    requires |limits| >= |events|
    ensures q in Concat(Walk(events, userID, p, limits).0) <==>
              (q.major > 0 || (q.major == 0 && q.minor > 0))
              && exists k ::
                 k in events && k.startedAt == q.major && k.eventId == q.minor && Listable(k, events[k], userID, p)
  {
    var user := ParseUuid(userID).value;
    var S := Matching(events, user, p);
    MatchingIsSmall(events, user, p);
    MatchingHas(events, userID, p, q);
    PagesMakeTheList(events, userID, p, limits);
    var rest := After(S, ZERO_CURSOR);
    SubsetSize(rest, S);
    assert q in Sorted(rest) <==> q in Elements(Sorted(rest));
  }

  lemma MatchingHas(events: map<Key, Row>, userID: string, p: Params, q: Pos)
    requires ValidRequest(userID, p)
    ensures q in Matching(events, ParseUuid(userID).value, p) <==>
              exists k :: k in events && k.startedAt == q.major && k.eventId == q.minor
                  && Listable(k, events[k], userID, p)
  {
    forall k | k in events
      ensures Matches(k, events[k], ParseUuid(userID).value, p) <==> Listable(k, events[k], userID, p)
    {
      FilterIs(p.appID, events[k].app);
      FilterIs(p.categoryID, events[k].category);
      FilterIs(p.projectID, events[k].project);
      FilterIs(p.deviceID, Some(events[k].device));
    }
  }

  lemma FilterIs(text: string, column: Option<nat>)
    requires !ParseFilter(text).BadFilter?
    ensures Passes(ParseFilter(text), column) <==> FilteredBy(text, column)
  {
  }

  lemma MatchingIsSmall(events: map<Key, Row>, user: nat, p: Params)
    ensures |Matching(events, user, p)| <= |events|
  {
    var keys := set k | k in events && Matches(k, events[k], user, p);
    assert keys <= events.Keys;
    SubsetSize(keys, events.Keys);
    ImageSize(keys);
    assert Matching(events, user, p) == set k | k in keys :: Pos(k.startedAt, k.eventId);
  }

  lemma {:induction false} ImageSize(keys: set<Key>)
    ensures |set k | k in keys :: Pos(k.startedAt, k.eventId)| <= |keys|
    decreases keys
  {
    var image := set k | k in keys :: Pos(k.startedAt, k.eventId);
    if keys != {} {
      var k :| k in keys;
      ImageSize(keys - {k});
      var less := set j | j in keys - {k} :: Pos(j.startedAt, j.eventId);
      assert image == less + {Pos(k.startedAt, k.eventId)};
    }
  }

  /** Past the year 2262 the chain breaks: a page whose last row starts there hands back a cursor before every matching
      event, and following it serves the list from the start again. */
  lemma CursorPastInt64StartsOver(events: map<Key, Row>, userID: string, p: Params)
    requires UuidKeys(events) && ValidRequest(userID, p)
    requires var rows := Answer(events, userID, p).rows; rows != [] && TWO_63 <= rows[|rows| - 1].major
    ensures var r := Answer(events, userID, p);
            var following := Answer(events, userID, p.(cursor := r.nextCursor));
            var first := Answer(events, userID, p.(cursor := ""));
            following.Listed? && first.Listed? && following.rows == first.rows && following.hasMore == first.hasMore
  {
    var S, c := Matching(events, ParseUuid(userID).value, p), DecodeActivityCursor(p.cursor).value;
    MatchesAreInRange(events, ParseUuid(userID).value, p);
    PageEndsOnARow(S, c, p.cursor, p.limit);
    var r := PageAnswer(S, c, p.cursor, p.limit);
    AnswersStartOver(S, p, r.rows[|r.rows| - 1]);
    AnswerAt(events, userID, p, r.nextCursor);
    AnswerAt(events, userID, p, "");
  }

  lemma MatchesAreInRange(events: map<Key, Row>, user: nat, p: Params)
    requires UuidKeys(events)
    ensures forall x :: x in Matching(events, user, p) ==> p.start <= x.major < p.end && 0 <= x.minor < TWO_128
  {
  }

  lemma PageEndsOnARow(S: set<Pos>, c: Pos, cursor: string, limit: int)
    requires forall x :: x in S ==> 0 <= x.minor
    ensures var r := PageAnswer(S, c, cursor, limit);
            r.rows == Page(S, c, PageSize(limit))
            && (r.rows != [] ==> r.rows[|r.rows| - 1] in S && r.nextCursor == TokenOf(r.rows[|r.rows| - 1]))
  {
    LastRowIsARow(S, c, PageSize(limit));
  }

  lemma AnswersStartOver(S: set<Pos>, p: Params, q: Pos)
    requires forall x :: x in S ==> p.start <= x.major < p.end && 0 <= x.minor < TWO_128
    requires q in S && TWO_63 <= q.major && p.end - p.start <= MAX_REPORT_RANGE
    ensures DecodeActivityCursor(TokenOf(q)).Some?
    ensures var following := PageAnswer(S, DecodeActivityCursor(TokenOf(q)).value, TokenOf(q), p.limit);
            var first := PageAnswer(S, ZERO_CURSOR, "", p.limit);
            following.rows == first.rows && following.hasMore == first.hasMore
  {
    CursorNamesLastRowIff(q);
    UnixNanoFallsBack(q.major);
    StartsOver(S, p, q);
    SamePages(S, Pos(UnixNano(q.major), q.minor), ZERO_CURSOR, TokenOf(q), "", p.limit);
  }

  lemma SamePages(S: set<Pos>, c: Pos, c': Pos, cursor: string, cursor': string, limit: int)
    requires After(S, c) == After(S, c') && forall q :: q in S ==> 0 <= q.minor
    ensures PageAnswer(S, c, cursor, limit).rows == PageAnswer(S, c', cursor', limit).rows
    ensures PageAnswer(S, c, cursor, limit).hasMore == PageAnswer(S, c', cursor', limit).hasMore
  {
  }

  /** The answer to the same request at another cursor. */
  lemma AnswerAt(events: map<Key, Row>, userID: string, p: Params, cursor: string)
    requires ValidRequest(userID, p) && DecodeActivityCursor(cursor).Some?
    ensures var S := Matching(events, ParseUuid(userID).value, p);
            Answer(events, userID, p.(cursor := cursor))
            == PageAnswer(S, DecodeActivityCursor(cursor).value, cursor, p.limit)
  {
    MatchingIgnoresPaging(events, ParseUuid(userID).value, p, p.limit, cursor);
  }

  lemma StartsOver(S: set<Pos>, p: Params, q: Pos)
    requires forall x :: x in S ==> p.start <= x.major < p.end
    requires q in S && TWO_63 <= q.major && UnixNano(q.major) <= q.major - TWO_64 && p.end - p.start <= MAX_REPORT_RANGE
    ensures After(S, Pos(UnixNano(q.major), q.minor)) == S == After(S, ZERO_CURSOR)
  {
    AllAfter(S, Pos(UnixNano(q.major), q.minor));
    AllAfter(S, ZERO_CURSOR);
  }

  lemma AllAfter(S: set<Pos>, c: Pos)
    requires forall q :: q in S ==> c.major < q.major
    ensures After(S, c) == S
  {
  }

  // Two events a nanosecond apart, at the first instant UnixNano cannot tell.
  const PLAIN := Row(None, None, None, 1, "exact", false)

  const TWO_EVENTS := map[Key(7, TWO_63, 1) := PLAIN, Key(7, TWO_63 + 1, 2) := PLAIN]

  const ONE_AT_A_TIME := Params(TWO_63, TWO_63 + 2, "", "", "", "", "", "", 1)

  /** A client that asks for one event at a time is told there is more, gets the first event again, and the same cursor:
      it never sees the second. */
  lemma PagingCanGoRoundInCircles()
    ensures var user := FormatUuid(7);
            var r := Answer(TWO_EVENTS, user, ONE_AT_A_TIME);
            r.Listed? && r.rows == [Pos(TWO_63, 1)] && r.hasMore
            && Answer(TWO_EVENTS, user, ONE_AT_A_TIME.(cursor := r.nextCursor)) == r
  {
    var user, p := FormatUuid(7), ONE_AT_A_TIME;
    SmallUuids();
    UuidRoundTrip(7);
    FirstOfTwo(user);
    CursorPastInt64StartsOver(TWO_EVENTS, user, p);
    assert p.(cursor := "") == p;
    SameRowsSameCursor(TWO_EVENTS, user, p, Answer(TWO_EVENTS, user, p).nextCursor);
  }

  lemma FirstOfTwo(user: string)
    requires ParseUuid(user) == Some(7)
    ensures ValidRequest(user, ONE_AT_A_TIME) && UuidKeys(TWO_EVENTS)
    ensures Answer(TWO_EVENTS, user, ONE_AT_A_TIME) == Listed([Pos(TWO_63, 1)], TokenOf(Pos(TWO_63, 1)), true)
  {
    SmallUuids();
    TwoMatch();
    PageOfOne(Matching(TWO_EVENTS, 7, ONE_AT_A_TIME));
  }

  /** A page that is not empty has the same cursor whatever cursor it was asked for with. */
  lemma SameRowsSameCursor(events: map<Key, Row>, userID: string, p: Params, cursor: string)
    requires ValidRequest(userID, p) && DecodeActivityCursor(cursor).Some?
    requires Answer(events, userID, p).rows != []
    requires var other := Answer(events, userID, p.(cursor := cursor));
             other.Listed? && other.rows == Answer(events, userID, p).rows
    ensures Answer(events, userID, p.(cursor := cursor)).nextCursor == Answer(events, userID, p).nextCursor
  {
    AnswerAt(events, userID, p, cursor);
  }

  lemma SmallUuids()
    ensures 7 < TWO_128
  {
    assert Pow16(1) == 16;
    PowGrows(1, 32);
  }

  lemma {:induction false} PowGrows(i: nat, j: nat)
    requires i <= j
    ensures Pow16(i) <= Pow16(j)
  {
    if i < j { PowGrows(i, j - 1); }
  }

  lemma TwoMatch()
    ensures Matching(TWO_EVENTS, 7, ONE_AT_A_TIME) == {Pos(TWO_63, 1), Pos(TWO_63 + 1, 2)}
  {
    assert Key(7, TWO_63, 1) in TWO_EVENTS && Key(7, TWO_63 + 1, 2) in TWO_EVENTS;
  }

  lemma PageOfOne(S: set<Pos>)
    requires S == {Pos(TWO_63, 1), Pos(TWO_63 + 1, 2)}
    ensures Page(S, ZERO_CURSOR, 1) == [Pos(TWO_63, 1)] && |After(S, ZERO_CURSOR)| == 2
  {
    var all := [Pos(TWO_63, 1), Pos(TWO_63 + 1, 2)];
    AllAfter(S, ZERO_CURSOR);
    assert Elements(all) == S;
    AscendingIsUnique(Sorted(S), all);
  }
}
