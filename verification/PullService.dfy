/** GET /v1/sync/changes over one snapshot: cursor check, page, next cursor,
dedupe and resolve, assembly. */
module PullService {
  import opened Options
  import opened Keyset
  import opened ChangeFeed
  import opened FeedInvariants
  import Codec = CursorCodec

  const DEFAULT_PULL_LIMIT := 200

  const MAX_PULL_LIMIT := 500

  datatype PullError = Validation | CursorExpired

  datatype Item = Item(ref: Ref, entity: Entity)

  /** The response body: per entity type, the current rows and the tombstones. */
  datatype PullResponse = PullResponse(upserts: map<Kind, seq<Item>>, tombstones: map<Kind, seq<Item>>,
                                       nextCursor: string, hasMore: bool)

  datatype PullResult = Ok(response: PullResponse) | Err(error: PullError)

  function EffectiveLimit(rawLimit: int): (limit: nat)
    ensures 1 <= limit <= MAX_PULL_LIMIT
  {
    if rawLimit <= 0 then DEFAULT_PULL_LIMIT else if rawLimit > MAX_PULL_LIMIT then MAX_PULL_LIMIT else rawLimit
  }

  /** A missing or non-positive limit means 200 rows, and no page has more than 500. */
  lemma PageSizes(rawLimit: int)
    ensures rawLimit <= 0 ==> EffectiveLimit(rawLimit) == 200
    ensures 0 < rawLimit <= 500 ==> EffectiveLimit(rawLimit) == rawLimit
    ensures rawLimit > 500 ==> EffectiveLimit(rawLimit) == 500
  {
  }

  // ---- What the response has to contain

  function RefsInOrder(db: Db, page: seq<Pos>): seq<Ref>
    requires forall i :: 0 <= i < |page| ==> page[i] in db.log
  {
    if page == [] then [] else RefsInOrder(db, page[..|page| - 1]) + [db.log[page[|page| - 1]].ref]
  }

  /** The entities named, each once, in the order they were first seen. */
  function FirstSeen(refs: seq<Ref>): seq<Ref> {
    if refs == [] then [] else
      var before, last := FirstSeen(refs[..|refs| - 1]), refs[|refs| - 1];
      if last in before then before else before + [last]
  }

  /** The rows of one type, tombstones or not, among the entities named. */
  function Pick(db: Db, refs: seq<Ref>, kind: Kind, deleted: bool): seq<Item> {
    if refs == [] then [] else
      var before, last := Pick(db, refs[..|refs| - 1], kind, deleted), refs[|refs| - 1];
      if last in db.entities && last.kind == kind && db.entities[last].deleted == deleted
      then before + [Item(last, db.entities[last])] else before
  }

  const KINDS: set<Kind> := {ActivityEvents, FocusSessions, Projects, Tags, UserAppSettings, Categories}

  function Grouped(db: Db, refs: seq<Ref>, deleted: bool): map<Kind, seq<Item>> {
    map k | k in KINDS :: Pick(db, refs, k, deleted)
  }

  /** One item under one of the six headings. */
  predicate Has(groups: map<Kind, seq<Item>>, item: Item) {
    item.ref.kind in groups && item in groups[item.ref.kind]
  }

  lemma {:induction false} PickHas(db: Db, refs: seq<Ref>, kind: Kind, deleted: bool, item: Item)
    ensures item in Pick(db, refs, kind, deleted) <==>
              item.ref in refs && item.ref in db.entities && item.entity == db.entities[item.ref]
              && item.ref.kind == kind && item.entity.deleted == deleted
  {
    if refs != [] {
      PickHas(db, refs[..|refs| - 1], kind, deleted, item);
      assert refs == refs[..|refs| - 1] + [refs[|refs| - 1]];
    }
  }

  lemma {:induction false} FirstSeenKeeps(refs: seq<Ref>)
    ensures forall r :: r in FirstSeen(refs) <==> r in refs
    ensures forall i, j :: 0 <= i < j < |FirstSeen(refs)| ==> FirstSeen(refs)[i] != FirstSeen(refs)[j]
  {
    if refs != [] {
      FirstSeenKeeps(refs[..|refs| - 1]);
      assert refs == refs[..|refs| - 1] + [refs[|refs| - 1]];
    }
  }

  lemma {:induction false} RefsInOrderAre(db: Db, page: seq<Pos>)
    requires forall i :: 0 <= i < |page| ==> page[i] in db.log
    ensures forall r :: r in RefsInOrder(db, page) <==> r in Refs(db, page)
  {
    if page != [] {
      var init, last := page[..|page| - 1], page[|page| - 1];
      RefsInOrderAre(db, init);
      assert page == init + [last];
    }
  }

  // ---- What a client does with it

  /** Overwrite what is upserted, drop what is tombstoned. */
  ghost predicate Absorbed(view: map<Ref, Entity>, resp: PullResponse, view': map<Ref, Entity>) {
    (forall item :: Has(resp.upserts, item) ==> item.ref in view' && view'[item.ref] == item.entity)
    && (forall item :: Has(resp.tombstones, item) ==> item.ref !in view')
    && (forall r: Ref :: (forall e :: !Has(resp.upserts, Item(r, e)) && !Has(resp.tombstones, Item(r, e))) ==>
          (r in view' <==> r in view) && (r in view ==> view'[r] == view[r]))
  }

  lemma HasExactly(db: Db, refs: seq<Ref>, deleted: bool, item: Item)
    ensures Has(Grouped(db, refs, deleted), item) <==>
              item.ref in refs && item.ref in db.entities && item.entity == db.entities[item.ref]
              && item.entity.deleted == deleted
  {
    PickHas(db, refs, item.ref.kind, deleted, item);
  }

  /** The page names the entity, and this is its current state. */
  predicate Named(db: Db, page: seq<Pos>, item: Item) {
    item.ref in Refs(db, page) && item.ref in db.entities && item.entity == db.entities[item.ref]
  }

  /** The response, applied entry by entry, is the one-step refresh of the state machine. */
  lemma ResponseRefreshes(db: Db, view: map<Ref, Entity>, page: seq<Pos>, resp: PullResponse)
    requires forall i :: 0 <= i < |page| ==> page[i] in db.log
    requires resp.upserts == Grouped(db, FirstSeen(RefsInOrder(db, page)), false)
    requires resp.tombstones == Grouped(db, FirstSeen(RefsInOrder(db, page)), true)
    ensures Absorbed(view, resp, Refresh(view, db, Refs(db, page)))
  {
    var listed := FirstSeen(RefsInOrder(db, page));
    RefsInOrderAre(db, page);
    FirstSeenKeeps(RefsInOrder(db, page));
    forall item: Item ensures
      (Has(resp.upserts, item) <==> Named(db, page, item) && !item.entity.deleted)
      && (Has(resp.tombstones, item) <==> Named(db, page, item) && item.entity.deleted)
    {
      HasExactly(db, listed, false, item);
      HasExactly(db, listed, true, item);
    }
    forall r: Ref | r in Refs(db, page) && r in db.entities
      ensures Has(resp.upserts, Item(r, db.entities[r])) || Has(resp.tombstones, Item(r, db.entities[r]))
    {
    }
  }

  // ---- The query and the limit+1 trick

  lemma PageIsLogged(db: Db, u: User, c: Pos, limit: nat)
    ensures forall i :: 0 <= i < |Page(Servable(db, u), c, limit)| ==> Page(Servable(db, u), c, limit)[i] in db.log
  {
    PageIsExact(Servable(db, u), c, limit);
    var page := Page(Servable(db, u), c, limit);
    forall i | 0 <= i < |page| ensures page[i] in db.log { assert page[i] in page; }
  }

  lemma OneMoreRow(db: Db, rows: seq<Pos>, i: nat)
    requires i < |rows| && forall j :: 0 <= j < |rows| ==> rows[j] in db.log
    ensures RefsInOrder(db, rows[..i + 1]) == RefsInOrder(db, rows[..i]) + [db.log[rows[i]].ref]
  {
    assert rows[..i + 1][..i] == rows[..i];
  }

  /** byKey holds the current state of the listed entities that exist. */
  ghost predicate Keyed(db: Db, ordered: seq<Ref>, byKey: map<Ref, Entity>) {
    (forall r :: r in byKey <==> r in ordered && r in db.entities)
    && (forall r :: r in byKey ==> byKey[r] == db.entities[r])
  }

  /** ordered lists what the rows so far name, the entities that exist once and in first-seen order. */
  ghost predicate Seen(db: Db, refs: seq<Ref>, ordered: seq<Ref>) {
    (forall r :: r in ordered <==> r in refs) && Known(db, ordered) == Known(db, FirstSeen(refs))
  }

  lemma FirstSeenAppend(refs: seq<Ref>, key: Ref)
    ensures FirstSeen(refs + [key]) == if key in refs then FirstSeen(refs) else FirstSeen(refs) + [key]
  {
    assert (refs + [key])[..|refs|] == refs;
    FirstSeenKeeps(refs);
  }

  lemma SeenAgain(db: Db, refs: seq<Ref>, ordered: seq<Ref>, key: Ref)
    requires Seen(db, refs, ordered) && key in ordered
    ensures Seen(db, refs + [key], ordered)
  {
    FirstSeenAppend(refs, key);
  }

  lemma SeenAppend(db: Db, refs: seq<Ref>, ordered: seq<Ref>, key: Ref)
    requires Seen(db, refs, ordered) && (key !in ordered || key !in db.entities)
    ensures Seen(db, refs + [key], ordered + [key])
  {
    FirstSeenAppend(refs, key);
    KnownAppend(db, ordered, key);
    KnownAppend(db, FirstSeen(refs), key);
  }

  /** The dedupe loop: a key is listed when first seen, its entry overwritten by
      the resolved current state, and removed if the lookup finds nothing. */
  method Dedupe(db: Db, rows: seq<Pos>) returns (ordered: seq<Ref>, byKey: map<Ref, Entity>)
    requires forall i :: 0 <= i < |rows| ==> rows[i] in db.log
    ensures Known(db, ordered) == Known(db, FirstSeen(RefsInOrder(db, rows)))
    ensures forall r :: r in byKey <==> r in ordered && r in db.entities
    ensures forall r :: r in byKey ==> byKey[r] == db.entities[r]
  {
    ordered, byKey := [], map[];
    for i := 0 to |rows|
      invariant Keyed(db, ordered, byKey)
      invariant Seen(db, RefsInOrder(db, rows[..i]), ordered)
    {
      var key := db.log[rows[i]].ref;
      OneMoreRow(db, rows, i);
      if key !in byKey {
        SeenAppend(db, RefsInOrder(db, rows[..i]), ordered, key);
        ordered := ordered + [key];
      } else {
        SeenAgain(db, RefsInOrder(db, rows[..i]), ordered, key);
      }
      if key in db.entities {
        byKey := byKey[key := db.entities[key]];
      } else {
        byKey := byKey - {key};
      }
    }
    assert rows[..|rows|] == rows;
  }

  function Known(db: Db, refs: seq<Ref>): seq<Ref> {
    if refs == [] then [] else
      var before, last := Known(db, refs[..|refs| - 1]), refs[|refs| - 1];
      if last in db.entities then before + [last] else before
  }

  lemma KnownAppend(db: Db, refs: seq<Ref>, r: Ref)
    ensures Known(db, refs + [r]) == if r in db.entities then Known(db, refs) + [r] else Known(db, refs)
  {
    assert (refs + [r])[..|refs|] == refs;
  }

  lemma {:induction false} PickKnown(db: Db, refs: seq<Ref>, kind: Kind, deleted: bool)
    ensures Pick(db, Known(db, refs), kind, deleted) == Pick(db, refs, kind, deleted)
  {
    if refs != [] {
      var init, last := refs[..|refs| - 1], refs[|refs| - 1];
      assert refs == init + [last];
      PickKnown(db, init, kind, deleted);
      KnownAppend(db, init, last);
      PickAppend(db, init, last, kind, deleted);
      PickAppend(db, Known(db, init), last, kind, deleted);
    }
  }

  lemma PickAppend(db: Db, refs: seq<Ref>, key: Ref, kind: Kind, deleted: bool)
    ensures Pick(db, refs + [key], kind, deleted) ==
              if key in db.entities && key.kind == kind && db.entities[key].deleted == deleted
              then Pick(db, refs, kind, deleted) + [Item(key, db.entities[key])]
              else Pick(db, refs, kind, deleted)
  {
    assert (refs + [key])[..|refs|] == refs;
  }

  lemma AllKinds(k: Kind)
    ensures k in KINDS
  {
  }

  lemma GroupedAppend(db: Db, refs: seq<Ref>, key: Ref, deleted: bool)
    ensures Grouped(db, refs + [key], deleted) ==
              if key in db.entities && db.entities[key].deleted == deleted
              then Grouped(db, refs, deleted)
                     [key.kind := Pick(db, refs, key.kind, deleted) + [Item(key, db.entities[key])]]
              else Grouped(db, refs, deleted)
  {
    AllKinds(key.kind);
    forall k: Kind { PickAppend(db, refs, key, k, deleted); }
  }

  /** The assembly loop: tombstones and upserts under their entity types. */
  method Assemble(db: Db, ordered: seq<Ref>, byKey: map<Ref, Entity>)
    returns (upserts: map<Kind, seq<Item>>, tombstones: map<Kind, seq<Item>>)
    requires forall r :: r in byKey <==> r in ordered && r in db.entities
    requires forall r :: r in byKey ==> byKey[r] == db.entities[r]
    ensures upserts == Grouped(db, ordered, false)
    ensures tombstones == Grouped(db, ordered, true)
  {
    upserts := map k | k in KINDS :: [];
    tombstones := map k | k in KINDS :: [];
    for i := 0 to |ordered|
      invariant upserts == Grouped(db, ordered[..i], false)
      invariant tombstones == Grouped(db, ordered[..i], true)
    {
      var key := ordered[i];
      GroupedAppend(db, ordered[..i], key, false);
      GroupedAppend(db, ordered[..i], key, true);
      assert ordered[..i + 1] == ordered[..i] + [key];
      if key in byKey {
        var item := Item(key, byKey[key]);
        if item.entity.deleted {
          tombstones := tombstones[key.kind := tombstones[key.kind] + [item]];
        } else {
          upserts := upserts[key.kind := upserts[key.kind] + [item]];
        }
      }
    }
    assert ordered[..|ordered|] == ordered;
  }

  lemma GroupedKnown(db: Db, a: seq<Ref>, b: seq<Ref>, deleted: bool)
    requires Known(db, a) == Known(db, b)
    ensures Grouped(db, a, deleted) == Grouped(db, b, deleted)
  {
    forall k | k in KINDS ensures Pick(db, a, k, deleted) == Pick(db, b, k, deleted) {
      PickKnown(db, a, k, deleted);
      PickKnown(db, b, k, deleted);
    }
  }

  /** The answer to a pull from c: the next cursor of the page, whether rows lie beyond it, and every
      entity the page names, once, under its type, in its current state. */
  ghost predicate Answers(db: Db, u: User, c: Pos, limit: nat, resp: PullResponse) {
    var page := Page(Servable(db, u), c, limit);
    var next := Next(c, page);
    && (forall i :: 0 <= i < |page| ==> page[i] in db.log)
    && IsCursor(next)
    && resp.nextCursor == Codec.EncodePullCursor(next)
    && (resp.hasMore <==> |After(Servable(db, u), c)| > limit)
    && resp.upserts == Grouped(db, FirstSeen(RefsInOrder(db, page)), false)
    && resp.tombstones == Grouped(db, FirstSeen(RefsInOrder(db, page)), true)
  }

  /** ListChangelogPage with one row more than the page, cut back, and the position it ends at. */
  method ReadPage(db: Db, u: User, cursor: Pos, limit: nat) returns (rows: seq<Pos>, nextPos: Pos, hasMore: bool)
    ensures rows == Page(Servable(db, u), cursor, limit) && nextPos == Next(cursor, rows)
    ensures hasMore <==> |After(Servable(db, u), cursor)| > limit
  {
    OneRowMore(Servable(db, u), cursor, limit);
    rows := Page(Servable(db, u), cursor, limit + 1);
    hasMore := |rows| > limit;
    if hasMore {
      rows := rows[..limit];
    }
    nextPos := cursor;
    if |rows| > 0 {
      nextPos := rows[|rows| - 1];
    }
  }

  /** The part of pull that runs inside the snapshot once the cursor is accepted. */
  method ServePage(db: Db, u: User, cursor: Pos, limit: nat) returns (resp: PullResponse)
    requires Inv(db) && IsCursor(cursor)
    ensures Answers(db, u, cursor, limit, resp)
  {
    PageIsLogged(db, u, cursor, limit);
    NextIsNatural(db, u, cursor, limit);
    var rows, nextPos, hasMore := ReadPage(db, u, cursor, limit);
    var ordered, byKey := Dedupe(db, rows);
    var upserts, tombstones := Assemble(db, ordered, byKey);
    var listed := FirstSeen(RefsInOrder(db, rows));
    GroupedKnown(db, ordered, listed, false);
    GroupedKnown(db, ordered, listed, true);
    resp := PullResponse(upserts, tombstones, Codec.EncodePullCursor(nextPos), hasMore);
  }

  /** A malformed token is a validation error, a cursor below the horizon is refused unless it is the beginning, and
      any other request is answered. */
  ghost predicate IsAnswer(db: Db, u: User, rawCursor: string, rawLimit: int, r: PullResult) {
    var cursor := Codec.DecodePullCursor(rawCursor);
    match r
    case Err(Validation) => cursor.None?
    case Err(CursorExpired) => cursor.Some? && !Accepts(db, cursor.value)
    case Ok(resp) =>
      cursor.Some? && Accepts(db, cursor.value) && Answers(db, u, cursor.value, EffectiveLimit(rawLimit), resp)
  }

  /** pull, on the snapshot `db`. */
  method PullChanges(db: Db, u: User, rawCursor: string, rawLimit: int) returns (r: PullResult)
    requires Inv(db)
    ensures IsAnswer(db, u, rawCursor, rawLimit, r)
  {
    var decoded := Codec.DecodePullCursor(rawCursor);
    if decoded.None? {
      return Err(Validation);
    }
    var cursor := decoded.value;
    var limit := rawLimit;
    if limit <= 0 {
      limit := DEFAULT_PULL_LIMIT;
    }
    if limit > MAX_PULL_LIMIT {
      limit := MAX_PULL_LIMIT;
    }
    if cursor != BEGINNING && Less(cursor, db.horizon) {
      return Err(CursorExpired);
    }
    var resp := ServePage(db, u, cursor, limit);
    r := Ok(resp);
  }

  lemma NextIsNatural(db: Db, u: User, c: Pos, limit: nat)
    requires Inv(db) && IsCursor(c)
    ensures IsCursor(Next(c, Page(Servable(db, u), c, limit)))
  {
    PageIsExact(Servable(db, u), c, limit);
    var next := Next(c, Page(Servable(db, u), c, limit));
    if next != c {
      assert next in Servable(db, u);
      assert next in Ever(db);
    }
  }

  /** A client that stores tokens follows the state machine: presenting the token of its cursor and applying the
      answer takes it to the machine's next cursor and view. */
  lemma TokenClientFollowsMachine(db: Db, c: Client, limit: nat, resp: PullResponse)
    requires Inv(db) && db.nextXid <= Codec.TWO_64 && db.nextSeq <= Codec.TWO_63
    requires IsCursor(c.cursor) && c.cursor.major < Codec.TWO_64 && c.cursor.minor < Codec.TWO_63
    requires Accepts(db, c.cursor) && Answers(db, c.user, c.cursor, limit, resp)
    ensures Codec.DecodePullCursor(Codec.EncodePullCursor(c.cursor)) == Some(c.cursor)
    ensures Codec.DecodePullCursor(resp.nextCursor) == Some(Pull(db, c, limit).cursor)
    ensures Absorbed(c.view, resp, Pull(db, c, limit).view)
    ensures resp.hasMore <==> HasMore(db, c, limit)
  {
    var page := NextPage(db, c, limit);
    NextIsInRange(db, c.user, c.cursor, limit);
    Codec.PullCursorRoundTrip(c.cursor);
    Codec.PullCursorRoundTrip(Next(c.cursor, page));
    ResponseRefreshes(db, c.view, page, resp);
  }

  lemma NextIsInRange(db: Db, u: User, c: Pos, limit: nat)
    requires Inv(db) && db.nextXid <= Codec.TWO_64 && db.nextSeq <= Codec.TWO_63
    requires IsCursor(c) && c.major < Codec.TWO_64 && c.minor < Codec.TWO_63
    ensures var next := Next(c, Page(Servable(db, u), c, limit));
            0 <= next.major < Codec.TWO_64 && 0 <= next.minor < Codec.TWO_63
  {
    PageIsExact(Servable(db, u), c, limit);
    var next := Next(c, Page(Servable(db, u), c, limit));
    if next != c {
      assert next in Servable(db, u);
      assert next in Ever(db);
    }
  }
}
