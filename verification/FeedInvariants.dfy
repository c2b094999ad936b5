/** What every server step keeps, and what follows for whole runs: the horizon
covers everything ever pruned and only moves forward, and the settled past of
the changelog is frozen. */
module FeedInvariants {
  import opened Keyset
  import opened ChangeFeed

  /** Committed and pruned rows come from finished transactions. */
  ghost predicate RowsAreSettled(db: Db) {
    db.log.Keys !! db.pruned.Keys
    && forall p :: p in Ever(db) ==> 0 < p.major < db.nextXid && 0 < p.minor < db.nextSeq && p.major !in db.inflight
  }

  /** An open writer owns exactly the positions under its own xid, one row per entity it wrote at least. */
  ghost predicate WriterIsSound(db: Db, t: nat) {
    t in db.inflight ==>
      0 < t < db.nextXid
      && (forall p :: p in db.inflight[t].rows ==>
            p.major == t && 0 < p.minor < db.nextSeq && db.inflight[t].rows[p].ref in db.inflight[t].writes)
      && (forall r :: r in db.inflight[t].writes ==>
            exists p :: p in db.inflight[t].rows && db.inflight[t].rows[p].ref == r)
  }

  ghost predicate HorizonCovers(db: Db) {
    0 <= db.horizon.major && 0 <= db.horizon.minor
    && Covers(db.horizon, db.pruned.Keys)
    && (db.pruned.Keys == {} ==> db.horizon == BEGINNING)
    && forall k :: k in db.pruners ==> db.pruners[k] <= Ever(db).Keys
  }

  /** Every changelog row names an existing entity, and every entity was named by some row. */
  ghost predicate EntitiesAreLogged(db: Db) { Logged(Ever(db), db.entities) }

  ghost predicate Logged(rows: map<Pos, Row>, entities: map<Ref, Entity>) {
    (forall p :: p in rows ==> rows[p].ref in entities)
    && forall r :: r in entities ==> exists p :: p in rows && rows[p].ref == r
  }

  ghost predicate Inv(db: Db) {
    0 < db.nextXid && 0 < db.nextSeq
    && RowsAreSettled(db) && HorizonCovers(db) && EntitiesAreLogged(db)
    && forall t :: WriterIsSound(db, t)
  }

  lemma EmptyIsSound()
    ensures Inv(EMPTY)
  {
  }

  lemma BeginKeeps(db: Db, now: int)
    requires Inv(db)
    ensures Inv(Apply(db, Begin(now)))
  {
    var db' := Apply(db, Begin(now));
    assert Ever(db') == Ever(db);
    forall t: nat ensures WriterIsSound(db', t) {
      assert WriterIsSound(db, t);
    }
  }

  lemma WriteKeeps(db: Db, step: Step)
    requires Inv(db) && step.Write? && Enabled(db, step)
    ensures Inv(Apply(db, step))
  {
    var db' := Apply(db, step);
    assert Ever(db') == Ever(db);
    forall t: nat ensures WriterIsSound(db', t) {
      assert WriterIsSound(db, t);
      if t == step.xid {
        var w, w' := db.inflight[t], db'.inflight[t];
        var at := Pos(t, db.nextSeq);
        assert at !in w.rows;
        assert w'.rows[at].ref == step.ref;
        forall r | r in w'.writes
          ensures exists p :: p in w'.rows && w'.rows[p].ref == r
        {
          if r != step.ref {
            var p :| p in w.rows && w.rows[p].ref == r;
            assert p in w'.rows && w'.rows[p].ref == r;
          }
        }
      }
    }
  }

  lemma CommitAddsRows(db: Db, xid: nat)
    requires Inv(db) && xid in db.inflight
    ensures Ever(Apply(db, Commit(xid))) == Ever(db) + db.inflight[xid].rows
    ensures forall p :: p in db.inflight[xid].rows ==> p !in Ever(db) && p.major == xid
  {
    assert WriterIsSound(db, xid);
    assert RowsAreSettled(db);
    SwapDisjoint(db.log, db.inflight[xid].rows, db.pruned);
  }

  lemma SwapDisjoint<K, V>(a: map<K, V>, b: map<K, V>, c: map<K, V>)
    requires b.Keys !! c.Keys
    ensures (a + b) + c == (a + c) + b
  {
  }

  lemma CommitKeepsEntities(db: Db, xid: nat)
    requires Inv(db) && xid in db.inflight
    ensures EntitiesAreLogged(Apply(db, Commit(xid)))
  {
    CommitAddsRows(db, xid);
    assert WriterIsSound(db, xid);
    var w, db' := db.inflight[xid], Apply(db, Commit(xid));
    LoggedTogether(Ever(db), db.entities, w.rows, w.writes);
    assert db'.entities == db.entities + w.writes;
  }

  lemma LoggedTogether(rows: map<Pos, Row>, entities: map<Ref, Entity>, more: map<Pos, Row>, writes: map<Ref, Entity>)
    requires Logged(rows, entities) && Logged(more, writes) && rows.Keys !! more.Keys
    ensures Logged(rows + more, entities + writes)
  {
    var all := rows + more;
    forall r | r in entities + writes ensures exists p :: p in all && all[p].ref == r {
      if r in writes {
        var p :| p in more && more[p].ref == r;
        assert p in all && all[p].ref == r;
      } else {
        var p :| p in rows && rows[p].ref == r;
        assert p in all && all[p].ref == r;
      }
    }
  }

  lemma CommitKeeps(db: Db, xid: nat)
    requires Inv(db) && xid in db.inflight
    ensures Inv(Apply(db, Commit(xid)))
  {
    var db' := Apply(db, Commit(xid));
    CommitAddsRows(db, xid);
    CommitKeepsEntities(db, xid);
    assert WriterIsSound(db, xid);
    forall t: nat ensures WriterIsSound(db', t) {
      assert WriterIsSound(db, t);
    }
    assert RowsAreSettled(db');
  }

  lemma AbortKeeps(db: Db, xid: nat)
    requires Inv(db) && xid in db.inflight
    ensures Inv(Apply(db, Abort(xid)))
  {
    var db' := Apply(db, Abort(xid));
    assert Ever(db') == Ever(db);
    forall t: nat ensures WriterIsSound(db', t) {
      assert WriterIsSound(db, t);
    }
  }

  lemma PruneMovesRows(db: Db, batch: set<Pos>, top: Pos)
    requires db.log.Keys !! db.pruned.Keys
    ensures Ever(ApplyPrune(db, batch, top)) == Ever(db)
  {
  }

  lemma PrunedAfter(db: Db, batch: set<Pos>, top: Pos)
    requires batch != {} && batch <= Ever(db).Keys
    ensures ApplyPrune(db, batch, top).pruned.Keys == db.pruned.Keys + batch
    ensures ApplyPrune(db, batch, top).log.Keys == db.log.Keys - batch
  {
    var moved := map p | p in batch && p in db.log :: db.log[p];
    assert (db.pruned + moved).Keys == db.pruned.Keys + batch;
  }

  lemma GreatestCovers(a: Pos, A: set<Pos>, b: Pos, B: set<Pos>)
    requires Covers(a, A) && Covers(b, B)
    ensures Covers(Greatest(a, b), A + B)
  {
  }

  lemma PruneKeepsHorizon(db: Db, k: nat, top: Pos)
    requires Inv(db) && Enabled(db, PruneCommit(k, top))
    ensures HorizonCovers(Apply(db, PruneCommit(k, top)))
    ensures Apply(db, PruneCommit(k, top)).log.Keys !! Apply(db, PruneCommit(k, top)).pruned.Keys
  {
    var batch, db' := db.pruners[k], Apply(db, PruneCommit(k, top));
    PruneMovesRows(db, batch, top);
    assert Ever(db') == Ever(db);
    if batch != {} {
      PrunedAfter(db, batch, top);
      GreatestCovers(db.horizon, db.pruned.Keys, top, batch);
    }
  }

  lemma PruneKeeps(db: Db, step: Step)
    requires Inv(db) && (step.PruneSelect? || step.PruneCommit? || step.PruneAbort?) && Enabled(db, step)
    ensures Inv(Apply(db, step))
  {
    if step.PruneCommit? {
      PruneCommitKeeps(db, step.pruner, step.top);
    } else {
      PrunersChange(db, step);
      SameRowsAndWriters(db, Apply(db, step));
    }
  }

  lemma PrunersChange(db: Db, step: Step)
    requires HorizonCovers(db) && (step.PruneSelect? || step.PruneAbort?) && Enabled(db, step)
    ensures HorizonCovers(Apply(db, step)) && Apply(db, step) == db.(pruners := Apply(db, step).pruners)
  {
  }

  lemma PruneCommitKeeps(db: Db, k: nat, top: Pos)
    requires Inv(db) && Enabled(db, PruneCommit(k, top))
    ensures Inv(Apply(db, PruneCommit(k, top)))
  {
    PruneKeepsHorizon(db, k, top);
    PruneMovesRows(db, db.pruners[k], top);
    SameRowsAndWriters(db, Apply(db, PruneCommit(k, top)));
  }

  lemma SameRowsAndWriters(db: Db, db': Db)
    requires Inv(db) && Ever(db') == Ever(db) && db'.entities == db.entities && db'.inflight == db.inflight
    requires db'.nextXid == db.nextXid && db'.nextSeq == db.nextSeq
    requires db'.log.Keys !! db'.pruned.Keys && HorizonCovers(db')
    ensures Inv(db')
  {
    forall t: nat ensures WriterIsSound(db', t) {
      assert WriterIsSound(db, t);
    }
  }

  lemma StepKeeps(db: Db, step: Step)
    requires Inv(db) && Enabled(db, step)
    ensures Inv(Apply(db, step))
  {
    match step
    case Begin(now) => BeginKeeps(db, now);
    case Write(_, _, _, _) => WriteKeeps(db, step);
    case Commit(xid) => CommitKeeps(db, xid);
    case Abort(xid) => AbortKeeps(db, xid);
    case _ => PruneKeeps(db, step);
  }

  lemma {:induction false} RunKeeps(db: Db, steps: seq<Step>)
    requires Inv(db) && Legal(db, steps)
    ensures Inv(Run(db, steps))
    decreases steps
  {
    if steps != [] {
      StepKeeps(db, steps[0]);
      RunKeeps(Apply(db, steps[0]), steps[1..]);
    }
  }

  // ---- Horizon soundness

  /** GREATEST never moves the horizon back, in either component or in cursor order. */
  lemma {:induction false} HorizonAdvances(db: Db, steps: seq<Step>)
    requires Legal(db, steps)
    ensures db.horizon.major <= Run(db, steps).horizon.major && db.horizon.minor <= Run(db, steps).horizon.minor
    ensures AtMost(db.horizon, Run(db, steps).horizon)
    ensures db.pruned.Keys <= Run(db, steps).pruned.Keys
    decreases steps
  {
    if steps != [] {
      var db' := Apply(db, steps[0]);
      assert db.horizon.major <= db'.horizon.major && db.horizon.minor <= db'.horizon.minor;
      assert db.pruned.Keys <= db'.pruned.Keys;
      HorizonAdvances(db', steps[1..]);
    }
  }

  /** In every reachable state an accepted nonzero cursor has no pruned row after it. */
  lemma AcceptedCursorIsGapFree(steps: seq<Step>, c: Pos)
    requires Legal(EMPTY, steps) && c != BEGINNING && Accepts(Run(EMPTY, steps), c)
    ensures forall p :: p in Run(EMPTY, steps).pruned ==> AtMost(p, Run(EMPTY, steps).horizon) && AtMost(p, c)
  {
    EmptyIsSound();
    RunKeeps(EMPTY, steps);
    NothingPrunedAfter(Run(EMPTY, steps), c);
  }

  lemma NothingPrunedAfter(db: Db, c: Pos)
    requires Inv(db) && c != BEGINNING && Accepts(db, c)
    ensures forall p :: p in db.pruned ==> AtMost(p, db.horizon) && AtMost(p, c)
  {
  }

  /** The cursors DecodePullCursor can produce. */
  predicate IsCursor(c: Pos) { 0 <= c.major && 0 <= c.minor }

  /** Whether a user's client is ever refused having lost nothing: never, exactly when the horizon is itself the
      position of a pruned row of that user, or nothing was pruned.  A component-wise maximum over all users' rows
      need not be such a position. */
  lemma RefusalExactIffHorizonIsOwnRow(db: Db, u: User)
    requires Inv(db)
    ensures (forall c: Pos :: IsCursor(c) && !Accepts(db, c) ==> exists p :: p in PrunedInScope(db, u) && Less(c, p))
            <==> (db.horizon in PrunedInScope(db, u) || db.horizon == BEGINNING)
  {
    var h, own := db.horizon, PrunedInScope(db, u);
    if h in own {
      forall c: Pos | IsCursor(c) && !Accepts(db, c) ensures exists p :: p in own && Less(c, p) {
        assert h in own && Less(c, h);
      }
    } else if h != BEGINNING {
      var q :| q in db.pruned;
      var c := Pos(h.major, h.minor - 1);
      assert IsCursor(c) && !Accepts(db, c);
      assert forall p :: p in own && Less(c, p) ==> p == h;
    }
  }

  // ---- Frozen past

  /** xmin never decreases. */
  lemma XminAdvances(db: Db, step: Step, xid: int)
    requires Inv(db) && Enabled(db, step) && BelowXmin(db, xid)
    ensures BelowXmin(Apply(db, step), xid)
  {
  }

  /** Only a commit adds rows, and it adds them at or above xmin. */
  lemma StepFreezes(db: Db, step: Step, c: Pos)
    requires Inv(db) && Enabled(db, step) && BelowXmin(db, c.major)
    ensures forall p :: p in Ever(db) ==> p in Ever(Apply(db, step)) && Ever(Apply(db, step))[p] == Ever(db)[p]
    ensures forall p :: AtMost(p, c) && p in Ever(Apply(db, step)) ==> p in Ever(db)
  {
    if step.Commit? {
      CommitAddsRows(db, step.xid);
    } else if step.PruneCommit? {
      PruneMovesRows(db, db.pruners[step.pruner], step.top);
    }
  }

  /** Once a cursor is below a snapshot's xmin, no run ever adds or loses a row at or below it. */
  lemma {:induction false} FrozenPast(db: Db, steps: seq<Step>, c: Pos)
    requires Inv(db) && Legal(db, steps) && BelowXmin(db, c.major)
    ensures BelowXmin(Run(db, steps), c.major)
    ensures forall p :: AtMost(p, c) ==> (p in Ever(db) <==> p in Ever(Run(db, steps)))
    ensures forall p :: p in Ever(db) ==> p in Ever(Run(db, steps)) && Ever(Run(db, steps))[p] == Ever(db)[p]
    decreases steps
  {
    if steps != [] {
      StepFreezes(db, steps[0], c);
      XminAdvances(db, steps[0], c.major);
      StepKeeps(db, steps[0]);
      FrozenPast(Apply(db, steps[0]), steps[1..], c);
    }
  }
}
