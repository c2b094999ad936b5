/** The sync change feed as a state machine: concurrent writers, the retention
pruner, and the snapshot a pull reads.

A writer takes its xid8 at its first write, then draws server_seq and
changelog_id values from global sequences, one per row, and commits or aborts
whenever it likes.  Each write of a syncable entity appends one sync_changelog
row in the same transaction.  A row is identified by its keyset position
(xid8, server_seq). */
module ChangeFeed {
  import opened Options
  import opened Keyset

  type User = nat

  datatype Kind = ActivityEvents | FocusSessions | Projects | Tags | UserAppSettings | Categories

  /** A row of a syncable table.  Only system-default categories have no owner. */
  datatype Ref = Ref(owner: Option<User>, kind: Kind, id: nat)

  datatype Entity = Entity(data: nat, deleted: bool, serverSeq: nat)

  /** A sync_changelog row, without the position it is stored under. */
  datatype Row = Row(id: nat, ref: Ref, createdAt: int)

  /** An uncommitted writer: what becomes visible if it commits. */
  datatype Writer = Writer(startedAt: int, rows: map<Pos, Row>, writes: map<Ref, Entity>)

  /** `pruned` is history: the rows the pruner has ever deleted. */
  datatype Db = Db(
    nextXid: nat, nextSeq: nat, nextId: nat,
    inflight: map<nat, Writer>,
    log: map<Pos, Row>,
    entities: map<Ref, Entity>,
    horizon: Pos,
    pruners: map<nat, set<Pos>>,
    pruned: map<Pos, Row>)

  const BEGINNING := Pos(0, 0)

  const EMPTY := Db(1, 1, 1, map[], map[], map[], BEGINNING, map[], map[])

  // ---- Queries

  /** xid < pg_snapshot_xmin(pg_current_snapshot()): below the next xid and below every xid in flight. */
  predicate BelowXmin(db: Db, xid: int) {
    xid < db.nextXid && forall t :: t in db.inflight ==> xid < t
  }

  predicate InScope(ref: Ref, u: User) { ref.owner == None || ref.owner == Some(u) }

  /** The WHERE clause of ListChangelogPage, without the cursor. */
  function Servable(db: Db, u: User): set<Pos> {
    set p | p in db.log && InScope(db.log[p].ref, u) && BelowXmin(db, p.major)
  }

  /** The horizon check of pull: the zero cursor is exempt. */
  predicate Accepts(db: Db, c: Pos) { c == BEGINNING || !Less(c, db.horizon) }

  function Ever(db: Db): map<Pos, Row> { db.log + db.pruned }

  function LiveInScope(db: Db, u: User): map<Ref, Entity> {
    map r | r in db.entities && InScope(r, u) && !db.entities[r].deleted :: db.entities[r]
  }

  // ---- Pruning

  function Aged(log: map<Pos, Row>, cutoff: int): set<Pos> {
    set p | p in log && log[p].createdAt < cutoff
  }

  /** The result of SelectChangelogPruneBatch: the oldest aged rows by changelog_id, at most `limit`. */
  predicate IsPruneBatch(log: map<Pos, Row>, cutoff: int, limit: nat, batch: set<Pos>) {
    batch <= Aged(log, cutoff)
    && |batch| == (if |Aged(log, cutoff)| < limit then |Aged(log, cutoff)| else limit)
    && forall p, q :: p in batch && q in Aged(log, cutoff) - batch ==> log[p].id <= log[q].id
  }

  function Max(a: int, b: int): int { if a < b then b else a }

  function Greatest(a: Pos, b: Pos): Pos { Pos(Max(a.major, b.major), Max(a.minor, b.minor)) }

  /** c bounds every position of the batch in each component separately. */
  predicate Covers(c: Pos, batch: set<Pos>) {
    forall p :: p in batch ==> p.major <= c.major && p.minor <= c.minor
  }

  /** c is the component-wise maximum of a non-empty batch. */
  predicate IsBatchMax(c: Pos, batch: set<Pos>) {
    Covers(c, batch)
    && (exists p :: p in batch && p.major == c.major)
    && (exists p :: p in batch && p.minor == c.minor)
  }

  // ---- Steps

  datatype Step =
    | Begin(now: int)
    | Write(xid: nat, ref: Ref, data: nat, deleted: bool)
    | Commit(xid: nat)
    | Abort(xid: nat)
    | PruneSelect(pruner: nat, cutoff: int, limit: nat, batch: set<Pos>)
    | PruneCommit(pruner: nat, top: Pos)
    | PruneAbort(pruner: nat)

  predicate Enabled(db: Db, step: Step) {
    match step
    case Begin(_) => true
    // Row locks: no other open transaction has written this entity.
    case Write(xid, ref, _, _) =>
      xid in db.inflight && forall t :: t in db.inflight && t != xid ==> ref !in db.inflight[t].writes
    case Commit(xid) => xid in db.inflight
    case Abort(xid) => xid in db.inflight
    // The pruner's own xid needs no step: it only ever lowers xmin, like a Begin followed by an Abort.
    case PruneSelect(k, cutoff, limit, batch) =>
      k !in db.pruners && limit > 0 && IsPruneBatch(db.log, cutoff, limit, batch)
    case PruneCommit(k, top) =>
      k in db.pruners && (db.pruners[k] != {} ==> IsBatchMax(top, db.pruners[k]))
    case PruneAbort(k) => k in db.pruners
  }

  function Apply(db: Db, step: Step): Db
    requires Enabled(db, step)
  {
    match step
    case Begin(now) =>
      db.(nextXid := db.nextXid + 1, inflight := db.inflight[db.nextXid := Writer(now, map[], map[])])
    case Write(xid, ref, data, deleted) =>
      var w := db.inflight[xid];
      var w' := w.(rows := w.rows[Pos(xid, db.nextSeq) := Row(db.nextId, ref, w.startedAt)],
                   writes := w.writes[ref := Entity(data, deleted, db.nextSeq)]);
      db.(nextSeq := db.nextSeq + 1, nextId := db.nextId + 1, inflight := db.inflight[xid := w'])
    case Commit(xid) =>
      var w := db.inflight[xid];
      db.(inflight := db.inflight - {xid}, log := db.log + w.rows, entities := db.entities + w.writes)
    case Abort(xid) => db.(inflight := db.inflight - {xid})
    case PruneSelect(k, _, _, batch) => db.(pruners := db.pruners[k := batch])
    case PruneCommit(k, top) => ApplyPrune(db, db.pruners[k], top).(pruners := db.pruners - {k})
    case PruneAbort(k) => db.(pruners := db.pruners - {k})
  }

  /** DeleteChangelogRows and AdvanceChangelogHorizon, in one transaction; an empty batch changes nothing. */
  function ApplyPrune(db: Db, batch: set<Pos>, top: Pos): Db {
    if batch == {} then db else
      db.(log := db.log - batch,
          pruned := db.pruned + (map p | p in batch && p in db.log :: db.log[p]),
          horizon := Greatest(db.horizon, top))
  }

  predicate Legal(db: Db, steps: seq<Step>)
    decreases steps
  {
    steps == [] || (Enabled(db, steps[0]) && Legal(Apply(db, steps[0]), steps[1..]))
  }

  function Run(db: Db, steps: seq<Step>): Db
    requires Legal(db, steps)
    decreases steps
  {
    if steps == [] then db else Run(Apply(db, steps[0]), steps[1..])
  }

  lemma OneMore(db: Db, steps: seq<Step>)
    requires steps != [] && Enabled(db, steps[0]) && Legal(Apply(db, steps[0]), steps[1..])
    ensures Legal(db, steps) && Run(db, steps) == Run(Apply(db, steps[0]), steps[1..])
  {
  }

  // ---- A client following the feed

  /** `start` is where the client joined, `delivered` the raw rows of all its
      pages in order, `view` the entities it holds, and `skipped` the in-scope
      rows that had already been pruned when it last read from the beginning. */
  datatype Client = Client(user: User, start: Pos, cursor: Pos, delivered: seq<Pos>,
                           view: map<Ref, Entity>, skipped: set<Pos>)

  function NewClient(u: User): Client { Client(u, BEGINNING, BEGINNING, [], map[], {}) }

  function Refs(db: Db, page: seq<Pos>): set<Ref> {
    set p | p in page && p in db.log :: db.log[p].ref
  }

  /** The effect of one page on the client: every entity named by the page is
      replaced by its current state, or dropped if that is a tombstone. */
  function Refresh(view: map<Ref, Entity>, db: Db, named: set<Ref>): map<Ref, Entity> {
    map r | r in view.Keys + named && (if r in named && r in db.entities then !db.entities[r].deleted else r in view)
      :: if r in named && r in db.entities then db.entities[r] else view[r]
  }

  function PrunedInScope(db: Db, u: User): set<Pos> {
    set p | p in db.pruned && InScope(db.pruned[p].ref, u)
  }

  function NextPage(db: Db, c: Client, limit: nat): seq<Pos> { Page(Servable(db, c.user), c.cursor, limit) }

  predicate HasMore(db: Db, c: Client, limit: nat) { |After(Servable(db, c.user), c.cursor)| > limit }

  /** One pull.  A refused cursor leaves the client as it was. */
  function Pull(db: Db, c: Client, limit: nat): Client {
    if !Accepts(db, c.cursor) then c else
      var page := NextPage(db, c, limit);
      c.(cursor := Next(c.cursor, page),
         delivered := c.delivered + page,
         view := Refresh(c.view, db, Refs(db, page)),
         skipped := if c.cursor == BEGINNING then PrunedInScope(db, c.user) else c.skipped)
  }

  /** What a client does when told to drop its cursor: it keeps the entities it holds and reads from the beginning. */
  function Reset(c: Client): Client { Client(c.user, BEGINNING, BEGINNING, [], c.view, {}) }

  datatype System = System(db: Db, client: Client)

  datatype Action = Server(step: Step) | PullPage(limit: nat) | ResetCursor

  predicate Possible(s: System, a: Action) { a.Server? ==> Enabled(s.db, a.step) }

  function Act(s: System, a: Action): System
    requires Possible(s, a)
  {
    match a
    case Server(step) => s.(db := Apply(s.db, step))
    case PullPage(limit) => s.(client := Pull(s.db, s.client, limit))
    case ResetCursor => s.(client := Reset(s.client))
  }

  predicate LegalRun(s: System, actions: seq<Action>)
    decreases actions
  {
    actions == [] || (Possible(s, actions[0]) && LegalRun(Act(s, actions[0]), actions[1..]))
  }

  function Execute(s: System, actions: seq<Action>): System
    requires LegalRun(s, actions)
    decreases actions
  {
    if actions == [] then s else Execute(Act(s, actions[0]), actions[1..])
  }
}
