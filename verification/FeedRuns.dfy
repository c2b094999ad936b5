/** Concrete runs of the feed: a reset client left stale, a reset that is itself refused, a client refused that
lost nothing, and changelog ids out of cursor order. */
module FeedRuns {
  import opened Options
  import opened Keyset
  import opened ChangeFeed
  import opened FeedInvariants
  import opened FeedDelivery
  import opened FeedReset

  // ---- Putting runs together

  lemma {:induction false} Join(s: System, a: seq<Action>, b: seq<Action>)
    requires LegalRun(s, a) && LegalRun(Execute(s, a), b)
    ensures LegalRun(s, a + b) && Execute(s, a + b) == Execute(Execute(s, a), b)
    decreases a
  {
    if a == [] {
      assert a + b == b;
    } else {
      assert (a + b)[0] == a[0] && (a + b)[1..] == a[1..] + b;
      Join(Act(s, a[0]), a[1..], b);
    }
  }

  lemma One(s: System, a: Action)
    requires Possible(s, a)
    ensures LegalRun(s, [a]) && Execute(s, [a]) == Act(s, a)
  {
    assert [a][1..] == [];
    assert LegalRun(Act(s, a), []);
  }

  lemma Two(s: System, a: Action, b: Action)
    requires Possible(s, a) && Possible(Act(s, a), b)
    ensures LegalRun(s, [a, b]) && Execute(s, [a, b]) == Act(Act(s, a), b)
  {
    One(s, a);
    One(Act(s, a), b);
    Join(s, [a], [b]);
    assert [a] + [b] == [a, b];
  }

  /** One transaction writing one entity. */
  function WriteOne(xid: nat, ref: Ref, data: nat, deleted: bool): seq<Action> {
    [Server(Begin(0)), Server(Write(xid, ref, data, deleted)), Server(Commit(xid))]
  }

  function Written(db: Db, ref: Ref, data: nat, deleted: bool): Db {
    db.(nextXid := db.nextXid + 1, nextSeq := db.nextSeq + 1, nextId := db.nextId + 1,
        log := db.log[Pos(db.nextXid, db.nextSeq) := Row(db.nextId, ref, 0)],
        entities := db.entities[ref := Entity(data, deleted, db.nextSeq)])
  }

  lemma BeginAlone(db: Db)
    requires db.inflight == map[]
    ensures Apply(db, Begin(0))
            == db.(nextXid := db.nextXid + 1, inflight := map[db.nextXid := Writer(0, map[], map[])])
  {
  }

  lemma WriteAlone(db: Db, xid: nat, ref: Ref, data: nat, deleted: bool)
    requires db.inflight == map[xid := Writer(0, map[], map[])]
    ensures Enabled(db, Write(xid, ref, data, deleted))
    ensures Apply(db, Write(xid, ref, data, deleted))
            == db.(nextSeq := db.nextSeq + 1, nextId := db.nextId + 1,
                   inflight := map[xid := Writer(0, map[Pos(xid, db.nextSeq) := Row(db.nextId, ref, 0)],
                                                 map[ref := Entity(data, deleted, db.nextSeq)])])
  {
  }

  lemma CommitAlone(db: Db, xid: nat, at: Pos, row: Row, ref: Ref, entity: Entity)
    requires db.inflight == map[xid := Writer(0, map[at := row], map[ref := entity])]
    ensures Apply(db, Commit(xid))
            == db.(inflight := map[], log := db.log[at := row], entities := db.entities[ref := entity])
  {
    assert db.log + map[at := row] == db.log[at := row];
    assert db.entities + map[ref := entity] == db.entities[ref := entity];
  }

  lemma WriteSteps(db: Db, ref: Ref, data: nat, deleted: bool)
    requires db.inflight == map[]
    ensures var d1 := Apply(db, Begin(0));
            Enabled(d1, Write(db.nextXid, ref, data, deleted))
            && var d2 := Apply(d1, Write(db.nextXid, ref, data, deleted));
               Enabled(d2, Commit(db.nextXid)) && Apply(d2, Commit(db.nextXid)) == Written(db, ref, data, deleted)
  {
    var xid := db.nextXid;
    BeginAlone(db);
    var d1 := Apply(db, Begin(0));
    WriteAlone(d1, xid, ref, data, deleted);
    var d2 := Apply(d1, Write(xid, ref, data, deleted));
    CommitAlone(d2, xid, Pos(xid, db.nextSeq), Row(db.nextId, ref, 0), ref, Entity(data, deleted, db.nextSeq));
  }

  lemma Three(s: System, a: Action, b: Action, c: Action)
    requires Possible(s, a) && Possible(Act(s, a), b) && Possible(Act(Act(s, a), b), c)
    ensures LegalRun(s, [a, b, c]) && Execute(s, [a, b, c]) == Act(Act(Act(s, a), b), c)
  {
    Two(s, a, b);
    One(Act(Act(s, a), b), c);
    Join(s, [a, b], [c]);
    assert [a, b] + [c] == [a, b, c];
  }

  lemma WritesOne(s: System, ref: Ref, data: nat, deleted: bool)
    requires s.db.inflight == map[]
    ensures var run := WriteOne(s.db.nextXid, ref, data, deleted);
            LegalRun(s, run) && Execute(s, run) == s.(db := Written(s.db, ref, data, deleted))
  {
    WriteSteps(s.db, ref, data, deleted);
    Three(s, Server(Begin(0)), Server(Write(s.db.nextXid, ref, data, deleted)), Server(Commit(s.db.nextXid)));
  }

  /** One tick that takes the whole batch of aged rows it is given. */
  function PruneBatch(batch: set<Pos>, limit: nat, top: Pos): seq<Action> {
    [Server(PruneSelect(0, 10, limit, batch)), Server(PruneCommit(0, top))]
  }

  lemma Prunes(s: System, batch: set<Pos>, limit: nat, top: Pos)
    requires s.db.pruners == map[] && limit > 0 && IsPruneBatch(s.db.log, 10, limit, batch) && batch != {}
             && IsBatchMax(top, batch)
    ensures LegalRun(s, PruneBatch(batch, limit, top))
    ensures Execute(s, PruneBatch(batch, limit, top)) == s.(db := ApplyPrune(s.db, batch, top))
  {
    Two(s, Server(PruneSelect(0, 10, limit, batch)), Server(PruneCommit(0, top)));
    var s1 := Act(s, Server(PruneSelect(0, 10, limit, batch)));
    assert s1.db.pruners - {0} == s.db.pruners;
  }

  /** A page, from any ascending listing of the rows it is cut from. */
  lemma PageOf(S: set<Pos>, c: Pos, limit: nat, listing: seq<Pos>)
    requires Ascending(listing) && Elements(listing) == After(S, c)
    ensures Page(S, c, limit) == if |listing| < limit then listing else listing[..limit]
    ensures |After(S, c)| == |listing|
  {
    AscendingIsUnique(Sorted(After(S, c)), listing);
  }

  const NOTE := Ref(Some(7), Projects, 1)

  const LABEL := Ref(Some(7), Tags, 1)

  const OTHER := Ref(Some(8), Projects, 2)

  const START := System(EMPTY, NewClient(7))

  // ---- A reset client that stays stale

  /** A client reads a note; the note is tombstoned and a label created; all three rows age out. */
  const FALLEN_BEHIND: seq<Action> :=
    WriteOne(1, NOTE, 5, false) + [PullPage(200)]
    + (WriteOne(2, NOTE, 5, true) + WriteOne(3, LABEL, 6, false))
    + PruneBatch(ALL, 100, Pos(3, 3))

  lemma FirstPull(db: Db, u: User, ref: Ref)
    requires db == Written(EMPTY, ref, 5, false) && InScope(ref, u)
    ensures Pull(db, NewClient(u), 200)
            == Client(u, BEGINNING, Pos(1, 1), [Pos(1, 1)], map[ref := Entity(5, false, 1)], {})
  {
    var S := Servable(db, u);
    assert S == {Pos(1, 1)};
    assert After(S, BEGINNING) == {Pos(1, 1)};
    PageOf(S, BEGINNING, 200, [Pos(1, 1)]);
    assert Refs(db, [Pos(1, 1)]) == {ref} by { assert Pos(1, 1) in [Pos(1, 1)]; }
    assert Refresh(map[], db, {ref}) == map[ref := Entity(5, false, 1)];
    assert PrunedInScope(db, u) == {};
  }

  lemma AfterFirstPull(u: User, ref: Ref)
    requires InScope(ref, u)
    ensures var run := WriteOne(1, ref, 5, false) + [PullPage(200)];
            var s := System(EMPTY, NewClient(u));
            LegalRun(s, run)
            && Execute(s, run) == System(Written(EMPTY, ref, 5, false),
                                         Client(u, BEGINNING, Pos(1, 1), [Pos(1, 1)],
                                                map[ref := Entity(5, false, 1)], {}))
  {
    var s := System(EMPTY, NewClient(u));
    WritesOne(s, ref, 5, false);
    var s1 := Execute(s, WriteOne(1, ref, 5, false));
    FirstPull(s1.db, u, ref);
    One(s1, PullPage(200));
    Join(s, WriteOne(1, ref, 5, false), [PullPage(200)]);
  }

  lemma BatchOfAll(log: map<Pos, Row>, limit: nat)
    requires |log.Keys| <= limit && forall p :: p in log ==> log[p].createdAt < 10
    ensures IsPruneBatch(log, 10, limit, log.Keys)
  {
    assert Aged(log, 10) == log.Keys;
  }

  const ALL := {Pos(1, 1), Pos(2, 2), Pos(3, 3)}

  function Behind(): Db {
    ApplyPrune(Written(Written(Written(EMPTY, NOTE, 5, false), NOTE, 5, true), LABEL, 6, false), ALL, Pos(3, 3))
  }

  lemma FallenBehind()
    ensures LegalRun(START, FALLEN_BEHIND)
    ensures Execute(START, FALLEN_BEHIND)
            == System(Behind(), Client(7, BEGINNING, Pos(1, 1), [Pos(1, 1)], map[NOTE := Entity(5, false, 1)], {}))
  {
    AfterFirstPull(7, NOTE);
    var a, b, c := WriteOne(1, NOTE, 5, false) + [PullPage(200)], WriteOne(2, NOTE, 5, true),
                   WriteOne(3, LABEL, 6, false);
    var s1 := Execute(START, a);
    WritesOne(s1, NOTE, 5, true);
    var s2 := Execute(s1, b);
    WritesOne(s2, LABEL, 6, false);
    var s3 := Execute(s2, c);
    Join(s1, b, c);
    AllAged(s3.db);
    Prunes(s3, ALL, 100, Pos(3, 3));
    Join(START, a, b + c);
    Join(START, a + (b + c), PruneBatch(ALL, 100, Pos(3, 3)));
  }

  lemma AllAged(db: Db)
    requires db == Written(Written(Written(EMPTY, NOTE, 5, false), NOTE, 5, true), LABEL, 6, false)
    ensures IsPruneBatch(db.log, 10, 100, ALL) && IsBatchMax(Pos(3, 3), ALL)
    ensures db.log - ALL == map[]
  {
    assert db.log.Keys == ALL;
    BatchOfAll(db.log, 100);
    assert Pos(3, 3) in ALL;
  }

  lemma NothingToRead(db: Db, c: Client, limit: nat)
    requires db.log == map[] && c.cursor == BEGINNING && limit > 0
    ensures Resync(db, c, limit).Some? && Resync(db, c, limit).value.view == c.view
  {
    assert After(Servable(db, c.user), BEGINNING) == {};
    PageOf(Servable(db, c.user), BEGINNING, limit, []);
    assert Refresh(c.view, db, Refs(db, [])) == c.view;
    assert Resync(db, c, limit) == Some(Pull(db, c, limit));
  }

  lemma BehindIs()
    ensures Behind().log == map[] && Behind().inflight == map[] && Behind().horizon == Pos(3, 3)
    ensures Behind().entities == map[NOTE := Entity(5, true, 2), LABEL := Entity(6, false, 3)]
  {
    var before := Written(Written(Written(EMPTY, NOTE, 5, false), NOTE, 5, true), LABEL, 6, false);
    AllAged(before);
    LastWrites(Written(Written(EMPTY, NOTE, 5, false), NOTE, 5, true));
    PrunedOf(before);
  }

  lemma LastWrites(db: Db)
    requires db == Written(Written(EMPTY, NOTE, 5, false), NOTE, 5, true)
    ensures Written(db, LABEL, 6, false).entities == map[NOTE := Entity(5, true, 2), LABEL := Entity(6, false, 3)]
  {
    assert db.entities == map[NOTE := Entity(5, true, 2)];
  }

  lemma PrunedOf(db: Db)
    requires db.log - ALL == map[] && db.horizon == BEGINNING
    ensures var db' := ApplyPrune(db, ALL, Pos(3, 3));
            db'.log == map[] && db'.horizon == Pos(3, 3) && db'.inflight == db.inflight && db'.entities == db.entities
  {
    assert Pos(3, 3) in ALL;
  }

  lemma Stale(t: System)
    requires t.db.log == map[] && t.db.horizon == Pos(3, 3)
    requires t.db.entities == map[NOTE := Entity(5, true, 2), LABEL := Entity(6, false, 3)]
    requires t.client.user == 7 && t.client.cursor == Pos(1, 1) && t.client.view == map[NOTE := Entity(5, false, 1)]
    ensures !Accepts(t.db, t.client.cursor) && Resync(t.db, Reset(t.client), 200).Some?
            && !Recovers(t.db, t.client, 200)
    ensures var view := Resync(t.db, Reset(t.client), 200).value.view;
            NOTE in view && NOTE !in LiveInScope(t.db, 7) && LABEL !in view && LABEL in LiveInScope(t.db, 7)
  {
    NothingToRead(t.db, Reset(t.client), 200);
    var view := Resync(t.db, Reset(t.client), 200).value.view;
    assert view == t.client.view && Reset(t.client).user == 7;
    assert NOTE in view && NOTE !in LiveInScope(t.db, 7);
  }

  /** The client's issued cursor is refused; it resets, reads an empty feed to the end, and keeps the dead note and
      misses the live label. */
  lemma ResetCanStayStale()
    ensures LegalRun(START, FALLEN_BEHIND)
    ensures var t := Execute(START, FALLEN_BEHIND);
            !Accepts(t.db, t.client.cursor) && t.db.inflight == map[]
            && Resync(t.db, Reset(t.client), 200).Some? && !Recovers(t.db, t.client, 200)
            && var view := Resync(t.db, Reset(t.client), 200).value.view;
               NOTE in view && NOTE !in LiveInScope(t.db, 7) && LABEL !in view && LABEL in LiveInScope(t.db, 7)
  {
    FallenBehind();
    BehindIs();
    Stale(Execute(START, FALLEN_BEHIND));
  }

  // ---- Ids out of cursor order, and a reset that is refused

  /** Two overlapping writers whose rows get changelog_ids in the opposite of cursor order. */
  const CROSSED: seq<Action> :=
    [Server(Begin(0)), Server(Begin(0)), Server(Write(2, NOTE, 5, false)), Server(Write(1, LABEL, 6, false)),
     Server(Commit(2)), Server(Commit(1))]

  const BOTH := map[NOTE := Entity(5, false, 1), LABEL := Entity(6, false, 2)]

  lemma CrossedWrites()
    ensures LegalRun(START, CROSSED[..4])
    ensures var db := Execute(START, CROSSED[..4]).db;
            db == EMPTY.(nextXid := 3, nextSeq := 3, nextId := 3, inflight :=
                           map[1 := Writer(0, map[Pos(1, 2) := Row(2, LABEL, 0)], map[LABEL := Entity(6, false, 2)]),
                               2 := Writer(0, map[Pos(2, 1) := Row(1, NOTE, 0)], map[NOTE := Entity(5, false, 1)])])
            && Execute(START, CROSSED[..4]).client == NewClient(7)
  {
    Two(START, CROSSED[0], CROSSED[1]);
    var s2 := Act(Act(START, CROSSED[0]), CROSSED[1]);
    assert s2.db.inflight == map[1 := Writer(0, map[], map[]), 2 := Writer(0, map[], map[])];
    var s3 := Act(s2, CROSSED[2]);
    assert s3.db.inflight
           == map[1 := Writer(0, map[], map[]),
                  2 := Writer(0, map[Pos(2, 1) := Row(1, NOTE, 0)], map[NOTE := Entity(5, false, 1)])];
    Two(s2, CROSSED[2], CROSSED[3]);
    Join(START, [CROSSED[0], CROSSED[1]], [CROSSED[2], CROSSED[3]]);
    assert CROSSED[..4] == [CROSSED[0], CROSSED[1]] + [CROSSED[2], CROSSED[3]];
  }

  lemma CommitBoth(db: Db)
    requires db.log == map[] && db.entities == map[]
    requires db.inflight == map[1 := Writer(0, map[Pos(1, 2) := Row(2, LABEL, 0)], map[LABEL := Entity(6, false, 2)]),
                                2 := Writer(0, map[Pos(2, 1) := Row(1, NOTE, 0)], map[NOTE := Entity(5, false, 1)])]
    ensures Apply(Apply(db, Commit(2)), Commit(1))
            == db.(inflight := map[], entities := BOTH,
                   log := map[Pos(2, 1) := Row(1, NOTE, 0), Pos(1, 2) := Row(2, LABEL, 0)])
  {
    var d1 := Apply(db, Commit(2));
    assert d1.inflight
           == map[1 := Writer(0, map[Pos(1, 2) := Row(2, LABEL, 0)], map[LABEL := Entity(6, false, 2)])];
    assert d1.log == map[Pos(2, 1) := Row(1, NOTE, 0)] && d1.entities == map[NOTE := Entity(5, false, 1)];
    CommitAlone(d1, 1, Pos(1, 2), Row(2, LABEL, 0), LABEL, Entity(6, false, 2));
  }

  lemma Crossed()
    ensures LegalRun(START, CROSSED)
    ensures Execute(START, CROSSED) == System(EMPTY.(nextXid := 3, nextSeq := 3, nextId := 3, entities := BOTH,
              log := map[Pos(2, 1) := Row(1, NOTE, 0), Pos(1, 2) := Row(2, LABEL, 0)]), NewClient(7))
  {
    CrossedWrites();
    var s4 := Execute(START, CROSSED[..4]);
    CommitBoth(s4.db);
    Two(s4, CROSSED[4], CROSSED[5]);
    Join(START, CROSSED[..4], [CROSSED[4], CROSSED[5]]);
    assert CROSSED == CROSSED[..4] + [CROSSED[4], CROSSED[5]];
  }

  /** changelog_id order is not cursor order, contrary to the comment on AdvanceChangelogHorizon. */
  lemma ChangelogIdOrderIsNotCursorOrder()
    ensures LegalRun(START, CROSSED)
    ensures var log := Execute(START, CROSSED).db.log;
            Pos(2, 1) in log && Pos(1, 2) in log && log[Pos(2, 1)].id < log[Pos(1, 2)].id && Less(Pos(1, 2), Pos(2, 1))
  {
    Crossed();
  }

  /** The client reads one row; the one with the lower changelog_id, later in cursor order, is pruned; one more
      write. */
  const OVERTAKEN: seq<Action> :=
    CROSSED + [PullPage(1)] + PruneBatch({Pos(2, 1)}, 1, Pos(2, 1)) + WriteOne(3, NOTE, 7, false)

  lemma PullOne(db: Db)
    requires db.log == map[Pos(2, 1) := Row(1, NOTE, 0), Pos(1, 2) := Row(2, LABEL, 0)]
    requires db.horizon == BEGINNING && db.inflight == map[] && db.nextXid == 3
    ensures Pull(db, NewClient(7), 1).cursor == Pos(1, 2) && Pull(db, NewClient(7), 1).user == 7
  {
    var S := Servable(db, 7);
    assert S == {Pos(1, 2), Pos(2, 1)};
    assert After(S, BEGINNING) == {Pos(1, 2), Pos(2, 1)};
    PageOf(S, BEGINNING, 1, [Pos(1, 2), Pos(2, 1)]);
  }

  lemma PruneTheLater(db: Db)
    requires db.log == map[Pos(2, 1) := Row(1, NOTE, 0), Pos(1, 2) := Row(2, LABEL, 0)]
    ensures IsPruneBatch(db.log, 10, 1, {Pos(2, 1)}) && IsBatchMax(Pos(2, 1), {Pos(2, 1)})
    ensures db.log - {Pos(2, 1)} == map[Pos(1, 2) := Row(2, LABEL, 0)]
  {
    assert Aged(db.log, 10) == {Pos(2, 1), Pos(1, 2)};
    assert Pos(2, 1) in {Pos(2, 1)};
  }

  lemma Overtaken()
    ensures LegalRun(START, OVERTAKEN)
    ensures var t := Execute(START, OVERTAKEN);
            t.client.cursor == Pos(1, 2) && t.client.user == 7 && t.db.horizon == Pos(2, 1)
            && t.db.log == map[Pos(1, 2) := Row(2, LABEL, 0), Pos(3, 3) := Row(3, NOTE, 0)]
            && t.db.inflight == map[] && t.db.nextXid == 4
  {
    Crossed();
    var s1 := Execute(START, CROSSED);
    PullOne(s1.db);
    One(s1, PullPage(1));
    Join(START, CROSSED, [PullPage(1)]);
    var s2 := Execute(START, CROSSED + [PullPage(1)]);
    PruneTheLater(s2.db);
    Prunes(s2, {Pos(2, 1)}, 1, Pos(2, 1));
    var s3 := Execute(s2, PruneBatch({Pos(2, 1)}, 1, Pos(2, 1)));
    Join(START, CROSSED + [PullPage(1)], PruneBatch({Pos(2, 1)}, 1, Pos(2, 1)));
    WritesOne(s3, NOTE, 7, false);
    Join(START, CROSSED + [PullPage(1)] + PruneBatch({Pos(2, 1)}, 1, Pos(2, 1)), WriteOne(3, NOTE, 7, false));
  }

  /** The client's issued cursor is refused; it resets, reads one row, and the cursor of that page is refused too. */
  lemma ResetCanBeRefused()
    ensures LegalRun(START, OVERTAKEN)
    ensures var t := Execute(START, OVERTAKEN);
            !Accepts(t.db, t.client.cursor) && t.db.inflight == map[] && Resync(t.db, Reset(t.client), 1) == None
  {
    Overtaken();
    EveryRunIsSound(7, OVERTAKEN);
    Stuck(Execute(START, OVERTAKEN));
  }

  lemma EveryRunIsSound(u: User, actions: seq<Action>)
    requires LegalRun(System(EMPTY, NewClient(u)), actions)
    ensures Inv(Execute(System(EMPTY, NewClient(u)), actions).db)
  {
    EmptyIsSound();
    NewClientIsSound(EMPTY, u);
    RunKeepsDelivery(System(EMPTY, NewClient(u)), actions);
  }

  lemma Stuck(t: System)
    requires Inv(t.db) && t.client.cursor == Pos(1, 2) && t.client.user == 7
    requires t.db.log == map[Pos(1, 2) := Row(2, LABEL, 0), Pos(3, 3) := Row(3, NOTE, 0)]
    requires t.db.inflight == map[] && t.db.nextXid == 4 && t.db.horizon == Pos(2, 1)
    ensures !Accepts(t.db, t.client.cursor) && Resync(t.db, Reset(t.client), 1) == None
  {
    FirstPageFallsShort(t.db);
    ResyncCompletesIff(t.db, t.client, 1);
  }

  lemma FirstPageFallsShort(db: Db)
    requires db.log == map[Pos(1, 2) := Row(2, LABEL, 0), Pos(3, 3) := Row(3, NOTE, 0)]
    requires db.inflight == map[] && db.nextXid == 4 && db.horizon == Pos(2, 1)
    ensures !FirstPageClearsHorizon(db, 7, 1)
  {
    var S := Servable(db, 7);
    assert S == {Pos(1, 2), Pos(3, 3)};
    assert After(S, BEGINNING) == S;
    PageOf(S, BEGINNING, 1, [Pos(1, 2), Pos(3, 3)]);
  }

  // ---- A client refused between two pages

  /** Two old rows; a client reads the first and is told there is more; a tick prunes both. */
  const BETWEEN_PAGES: seq<Action> :=
    (WriteOne(1, NOTE, 5, false) + WriteOne(2, LABEL, 6, false)) + [PullPage(1)]
    + PruneBatch({Pos(1, 1), Pos(2, 2)}, 100, Pos(2, 2))

  function TwoOldRows(): Db { Written(Written(EMPTY, NOTE, 5, false), LABEL, 6, false) }

  lemma OldRows()
    ensures TwoOldRows().log == map[Pos(1, 1) := Row(1, NOTE, 0), Pos(2, 2) := Row(2, LABEL, 0)]
    ensures IsPruneBatch(TwoOldRows().log, 10, 100, {Pos(1, 1), Pos(2, 2)})
    ensures IsBatchMax(Pos(2, 2), {Pos(1, 1), Pos(2, 2)})
  {
    assert TwoOldRows().log.Keys == {Pos(1, 1), Pos(2, 2)};
    BatchOfAll(TwoOldRows().log, 100);
    assert Pos(2, 2) in {Pos(1, 1), Pos(2, 2)};
  }

  lemma FirstOfTwo(db: Db)
    requires db.log == map[Pos(1, 1) := Row(1, NOTE, 0), Pos(2, 2) := Row(2, LABEL, 0)]
    requires db.horizon == BEGINNING && db.inflight == map[] && db.nextXid == 3
    ensures Pull(db, NewClient(7), 1).cursor == Pos(1, 1) && Pull(db, NewClient(7), 1).user == 7
    ensures HasMore(db, NewClient(7), 1)
  {
    var S := Servable(db, 7);
    assert S == {Pos(1, 1), Pos(2, 2)};
    assert After(S, BEGINNING) == {Pos(1, 1), Pos(2, 2)};
    PageOf(S, BEGINNING, 1, [Pos(1, 1), Pos(2, 2)]);
  }

  /** The only step between two pages of a client that was told there is more is one tick, and the second is refused. */
  lemma ActiveClientCanBeRefused()
    ensures LegalRun(START, BETWEEN_PAGES)
    ensures HasMore(TwoOldRows(), NewClient(7), 1)
    ensures var t := Execute(START, BETWEEN_PAGES);
            t.client == Pull(TwoOldRows(), NewClient(7), 1) && !Accepts(t.db, t.client.cursor)
  {
    WritesOne(START, NOTE, 5, false);
    var s1 := Execute(START, WriteOne(1, NOTE, 5, false));
    WritesOne(s1, LABEL, 6, false);
    Join(START, WriteOne(1, NOTE, 5, false), WriteOne(2, LABEL, 6, false));
    var writes := WriteOne(1, NOTE, 5, false) + WriteOne(2, LABEL, 6, false);
    var s2 := Execute(START, writes);
    OldRows();
    FirstOfTwo(s2.db);
    One(s2, PullPage(1));
    Join(START, writes, [PullPage(1)]);
    var s3 := Act(s2, PullPage(1));
    Prunes(s3, {Pos(1, 1), Pos(2, 2)}, 100, Pos(2, 2));
    Join(START, writes + [PullPage(1)], PruneBatch({Pos(1, 1), Pos(2, 2)}, 100, Pos(2, 2)));
  }

  // ---- A refusal of a client that lost nothing

  /** User 8's client has read its only row when another user's row moves the horizon past its cursor. */
  const BYSTANDER: seq<Action> :=
    WriteOne(1, OTHER, 5, false) + [PullPage(200)]
    + WriteOne(2, NOTE, 5, false)
    + PruneBatch({Pos(1, 1), Pos(2, 2)}, 100, Pos(2, 2))

  lemma BothAged(db: Db)
    requires db == Written(Written(EMPTY, OTHER, 5, false), NOTE, 5, false)
    ensures IsPruneBatch(db.log, 10, 100, {Pos(1, 1), Pos(2, 2)}) && IsBatchMax(Pos(2, 2), {Pos(1, 1), Pos(2, 2)})
  {
    assert db.log.Keys == {Pos(1, 1), Pos(2, 2)};
    BatchOfAll(db.log, 100);
    assert Pos(2, 2) in {Pos(1, 1), Pos(2, 2)};
  }

  lemma Bystander()
    ensures LegalRun(System(EMPTY, NewClient(8)), BYSTANDER)
    ensures Execute(System(EMPTY, NewClient(8)), BYSTANDER)
            == System(ApplyPrune(Written(Written(EMPTY, OTHER, 5, false), NOTE, 5, false),
                                 {Pos(1, 1), Pos(2, 2)}, Pos(2, 2)),
                      Client(8, BEGINNING, Pos(1, 1), [Pos(1, 1)], map[OTHER := Entity(5, false, 1)], {}))
  {
    var s := System(EMPTY, NewClient(8));
    AfterFirstPull(8, OTHER);
    var a, b := WriteOne(1, OTHER, 5, false) + [PullPage(200)], WriteOne(2, NOTE, 5, false);
    var batch := {Pos(1, 1), Pos(2, 2)};
    var s1 := Execute(s, a);
    WritesOne(s1, NOTE, 5, false);
    var s2 := Execute(s1, b);
    BothAged(s2.db);
    Prunes(s2, batch, 100, Pos(2, 2));
    Join(s, a, b);
    Join(s, a + b, PruneBatch(batch, 100, Pos(2, 2)));
  }

  /** The refused client holds exactly its live entities and no row of its scope was pruned past its cursor. */
  lemma RefusalCanBeNeedless()
    ensures LegalRun(System(EMPTY, NewClient(8)), BYSTANDER)
    ensures var t := Execute(System(EMPTY, NewClient(8)), BYSTANDER);
            t.db.horizon in t.db.pruned && !Accepts(t.db, t.client.cursor)
            && t.client.view == LiveInScope(t.db, 8)
            && forall p :: p in PrunedInScope(t.db, 8) ==> AtMost(p, t.client.cursor)
  {
    Bystander();
    var before := Written(Written(EMPTY, OTHER, 5, false), NOTE, 5, false);
    var db := ApplyPrune(before, {Pos(1, 1), Pos(2, 2)}, Pos(2, 2));
    assert before.entities == map[OTHER := Entity(5, false, 1), NOTE := Entity(5, false, 2)];
    assert LiveInScope(db, 8) == map[OTHER := Entity(5, false, 1)];
    assert before.log == map[Pos(1, 1) := Row(1, OTHER, 0), Pos(2, 2) := Row(2, NOTE, 0)];
    assert db.pruned == before.log;
  }
}
