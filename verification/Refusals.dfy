/** Who is refused, and how old what was pruned must have been: by the clocks of the transactions that wrote it. */
module Refusals {
  import opened Options
  import opened Keyset
  import opened ChangeFeed
  import opened FeedInvariants

  // ---- Clocks

  /** The clocks of the Begin steps of a run, in order; the n-th of them draws xid n. */
  function Clocks(steps: seq<Step>): seq<int>
    decreases steps
  {
    if steps == [] then [] else ClockOf(steps[0]) + Clocks(steps[1..])
  }

  function ClockOf(step: Step): seq<int> { if step.Begin? then [step.now] else [] }

  /** `clocks` are those of the transactions begun so far. */
  ghost predicate Clocked(db: Db, clocks: seq<int>) {
    db.nextXid == |clocks| + 1
    && (forall t :: t in db.inflight ==> 0 < t <= |clocks| && WriterIsClocked(db.inflight[t], clocks[t - 1]))
    && (forall p :: p in Ever(db) ==> RowIsClocked(p, Ever(db)[p], clocks))
  }

  ghost predicate WriterIsClocked(w: Writer, clock: int) {
    w.startedAt == clock && forall p :: p in w.rows ==> w.rows[p].createdAt == clock
  }

  ghost predicate RowIsClocked(p: Pos, row: Row, clocks: seq<int>) {
    0 < p.major <= |clocks| && row.createdAt == clocks[p.major - 1]
  }

  lemma BeginIsClocked(db: Db, clocks: seq<int>, now: int)
    requires Inv(db) && Clocked(db, clocks)
    ensures Clocked(Apply(db, Begin(now)), clocks + [now])
  {
    var db', more := Apply(db, Begin(now)), clocks + [now];
    assert Ever(db') == Ever(db);
    forall p | p in Ever(db') ensures RowIsClocked(p, Ever(db')[p], more) {
      assert RowIsClocked(p, Ever(db)[p], clocks);
    }
  }

  lemma WriteIsClocked(db: Db, clocks: seq<int>, step: Step)
    requires Clocked(db, clocks) && step.Write? && Enabled(db, step)
    ensures Clocked(Apply(db, step), clocks)
  {
    var db' := Apply(db, step);
    assert Ever(db') == Ever(db);
    forall t | t in db'.inflight ensures 0 < t <= |clocks| && WriterIsClocked(db'.inflight[t], clocks[t - 1]) {
      assert WriterIsClocked(db.inflight[t], clocks[t - 1]);
    }
  }

  lemma CommitIsClocked(db: Db, clocks: seq<int>, xid: nat)
    requires Inv(db) && Clocked(db, clocks) && xid in db.inflight
    ensures Clocked(Apply(db, Commit(xid)), clocks)
  {
    var db', rows := Apply(db, Commit(xid)), db.inflight[xid].rows;
    CommitAddsRows(db, xid);
    assert WriterIsClocked(db.inflight[xid], clocks[xid - 1]);
    RowsTogether(Ever(db), rows, clocks, xid);
    assert forall t :: t in db'.inflight ==> t in db.inflight && db'.inflight[t] == db.inflight[t];
  }

  lemma RowsTogether(rows: map<Pos, Row>, more: map<Pos, Row>, clocks: seq<int>, xid: nat)
    requires 0 < xid <= |clocks| && forall p :: p in rows ==> RowIsClocked(p, rows[p], clocks)
    requires forall p :: p in more ==> p.major == xid && more[p].createdAt == clocks[xid - 1]
    ensures forall p :: p in rows + more ==> RowIsClocked(p, (rows + more)[p], clocks)
  {
  }

  lemma StepIsClocked(db: Db, clocks: seq<int>, step: Step)
    requires Inv(db) && Clocked(db, clocks) && Enabled(db, step)
    ensures Clocked(Apply(db, step), clocks + ClockOf(step))
  {
    assert clocks + [] == clocks;
    match step
    case Begin(now) => BeginIsClocked(db, clocks, now);
    case Write(_, _, _, _) => WriteIsClocked(db, clocks, step);
    case Commit(xid) => CommitIsClocked(db, clocks, xid);
    case _ => QuietStepIsClocked(db, clocks, step);
  }

  lemma QuietStepIsClocked(db: Db, clocks: seq<int>, step: Step)
    requires Inv(db) && Clocked(db, clocks) && Enabled(db, step)
    requires !step.Begin? && !step.Write? && !step.Commit?
    ensures Clocked(Apply(db, step), clocks)
  {
    if step.PruneCommit? { PruneMovesRows(db, db.pruners[step.pruner], step.top); }
    SameRowsClocked(db, Apply(db, step), clocks);
  }

  lemma SameRowsClocked(db: Db, db': Db, clocks: seq<int>)
    requires Clocked(db, clocks) && db'.nextXid == db.nextXid && Ever(db') == Ever(db)
    requires forall t :: t in db'.inflight ==> t in db.inflight && db'.inflight[t] == db.inflight[t]
    ensures Clocked(db', clocks)
  {
  }

  lemma MoreClocks(clocks: seq<int>, steps: seq<Step>)
    requires steps != []
    ensures clocks + ClockOf(steps[0]) + Clocks(steps[1..]) == clocks + Clocks(steps)
  {
    Regroup(clocks, ClockOf(steps[0]), Clocks(steps[1..]));
  }

  lemma Regroup<T>(a: seq<T>, b: seq<T>, c: seq<T>)
    ensures a + b + c == a + (b + c)
  {
  }

  lemma {:induction false} RunIsClocked(db: Db, clocks: seq<int>, steps: seq<Step>)
    requires Inv(db) && Clocked(db, clocks) && Legal(db, steps)
    ensures Clocked(Run(db, steps), clocks + Clocks(steps))
    decreases steps
  {
    if steps == [] {
      assert clocks + [] == clocks;
    } else {
      StepKeeps(db, steps[0]);
      StepIsClocked(db, clocks, steps[0]);
      RunIsClocked(Apply(db, steps[0]), clocks + ClockOf(steps[0]), steps[1..]);
      MoreClocks(clocks, steps);
    }
  }

  /** In every run each row ever logged was created at the clock its transaction began at. */
  lemma RowsCarryTheirBeginning(steps: seq<Step>, p: Pos)
    requires Legal(EMPTY, steps) && p in Ever(Run(EMPTY, steps))
    ensures 0 < p.major <= |Clocks(steps)| && Ever(Run(EMPTY, steps))[p].createdAt == Clocks(steps)[p.major - 1]
  {
    EmptyIsSound();
    RunIsClocked(EMPTY, [], steps);
    assert [] + Clocks(steps) == Clocks(steps);
    assert RowIsClocked(p, Ever(Run(EMPTY, steps))[p], Clocks(steps));
  }

  // ---- Age

  function Cutoffs(steps: seq<Step>): set<int> {
    set i | 0 <= i < |steps| && steps[i].PruneSelect? :: steps[i].cutoff
  }

  ghost predicate OlderThanSome(row: Row, cutoffs: set<int>) { exists x :: x in cutoffs && row.createdAt < x }

  /** Each component of the horizon is that of a pruned row. */
  ghost predicate HorizonIsARow(db: Db) { db.horizon == BEGINNING || Attains(db.pruned.Keys, db.horizon) }

  ghost predicate Attains(rows: set<Pos>, h: Pos) {
    (exists p :: p in rows && p.major == h.major) && (exists q :: q in rows && q.minor == h.minor)
  }

  ghost predicate PrunedAreOld(db: Db, cutoffs: set<int>) {
    forall p :: p in db.pruned ==> OlderThanSome(db.pruned[p], cutoffs)
  }

  ghost predicate BatchesAreOld(db: Db, cutoffs: set<int>) {
    forall k, p :: k in db.pruners && p in db.pruners[k] ==> p in Ever(db) && OlderThanSome(Ever(db)[p], cutoffs)
  }

  /** What was or is about to be pruned is older than one of the cutoffs. */
  ghost predicate PrunedByAge(db: Db, cutoffs: set<int>) {
    HorizonIsARow(db) && PrunedAreOld(db, cutoffs) && BatchesAreOld(db, cutoffs)
  }

  lemma SelectKeepsAge(db: Db, step: Step, cutoffs: set<int>)
    requires Inv(db) && PrunedByAge(db, cutoffs) && step.PruneSelect? && Enabled(db, step) && step.cutoff in cutoffs
    ensures PrunedByAge(Apply(db, step), cutoffs)
  {
    forall p | p in step.batch ensures p in Ever(db) && OlderThanSome(Ever(db)[p], cutoffs) {
      assert p in Aged(db.log, step.cutoff);
      assert Ever(db)[p] == db.log[p];
    }
    BatchIsAged(db, Apply(db, step), step.pruner, step.batch, cutoffs);
  }

  lemma BatchIsAged(db: Db, db': Db, k: nat, batch: set<Pos>, cutoffs: set<int>)
    requires PrunedByAge(db, cutoffs) && db' == db.(pruners := db.pruners[k := batch])
    requires forall p :: p in batch ==> p in Ever(db) && OlderThanSome(Ever(db)[p], cutoffs)
    ensures PrunedByAge(db', cutoffs)
  {
    forall j, p | j in db'.pruners && p in db'.pruners[j]
      ensures p in Ever(db') && OlderThanSome(Ever(db')[p], cutoffs)
    {
      assert Ever(db') == Ever(db);
      assert j != k ==> j in db.pruners && p in db.pruners[j];
    }
  }

  lemma PruneKeepsAge(db: Db, k: nat, top: Pos, cutoffs: set<int>)
    requires Inv(db) && PrunedByAge(db, cutoffs) && Enabled(db, PruneCommit(k, top))
    ensures PrunedByAge(Apply(db, PruneCommit(k, top)), cutoffs)
  {
    var batch := db.pruners[k];
    assert batch <= Ever(db).Keys;
    if batch != {} {
      PrunedBatchKeepsAge(db, batch, top, cutoffs);
    }
    PrunerLeaves(ApplyPrune(db, batch, top), k, cutoffs);
  }

  lemma PrunerLeaves(db: Db, k: nat, cutoffs: set<int>)
    requires PrunedByAge(db, cutoffs)
    ensures PrunedByAge(db.(pruners := db.pruners - {k}), cutoffs)
  {
    assert Ever(db.(pruners := db.pruners - {k})) == Ever(db);
    BatchesStayOld(db, db.(pruners := db.pruners - {k}), cutoffs);
  }

  lemma PrunedBatchKeepsAge(db: Db, batch: set<Pos>, top: Pos, cutoffs: set<int>)
    requires Inv(db) && PrunedByAge(db, cutoffs) && batch != {} && batch <= Ever(db).Keys && IsBatchMax(top, batch)
    requires forall p :: p in batch ==> OlderThanSome(Ever(db)[p], cutoffs)
    ensures PrunedByAge(ApplyPrune(db, batch, top), cutoffs)
  {
    var db' := ApplyPrune(db, batch, top);
    PruneMovesRows(db, batch, top);
    PrunedAfter(db, batch, top);
    PruneKeepsHorizonRow(db, db', batch, top);
    KeysStayApart(db.log.Keys, db.pruned.Keys, batch);
    PruneKeepsOld(db, db', batch, cutoffs);
    BatchesStayOld(db, db', cutoffs);
  }

  lemma KeysStayApart(log: set<Pos>, pruned: set<Pos>, batch: set<Pos>)
    requires log !! pruned
    ensures log - batch !! pruned + batch
  {
  }

  lemma BatchesStayOld(db: Db, db': Db, cutoffs: set<int>)
    requires BatchesAreOld(db, cutoffs) && Ever(db') == Ever(db)
    requires forall j :: j in db'.pruners ==> j in db.pruners && db'.pruners[j] == db.pruners[j]
    ensures BatchesAreOld(db', cutoffs)
  {
    forall j, p | j in db'.pruners && p in db'.pruners[j]
      ensures p in Ever(db') && OlderThanSome(Ever(db')[p], cutoffs)
    {
      assert j in db.pruners && p in db.pruners[j];
    }
  }

  lemma PruneKeepsHorizonRow(db: Db, db': Db, batch: set<Pos>, top: Pos)
    requires Inv(db) && HorizonIsARow(db) && IsBatchMax(top, batch) && batch <= Ever(db).Keys
    requires db'.horizon == Greatest(db.horizon, top) && db'.pruned.Keys == db.pruned.Keys + batch
    ensures HorizonIsARow(db')
  {
    var p :| p in batch && p.major == top.major;
    var q :| q in batch && q.minor == top.minor;
    assert p in Ever(db) && q in Ever(db);
    HorizonIsAttained(db.horizon, db.pruned.Keys, top, batch);
  }

  lemma PruneKeepsOld(db: Db, db': Db, batch: set<Pos>, cutoffs: set<int>)
    requires PrunedAreOld(db, cutoffs) && Ever(db') == Ever(db) && db.log.Keys !! db.pruned.Keys
    requires forall p :: p in batch ==> p in Ever(db) && OlderThanSome(Ever(db)[p], cutoffs)
    requires db'.pruned.Keys <= db.pruned.Keys + batch && db'.log.Keys !! db'.pruned.Keys
    ensures PrunedAreOld(db', cutoffs)
  {
    forall p | p in db'.pruned ensures OlderThanSome(db'.pruned[p], cutoffs) {
      assert db'.pruned[p] == Ever(db')[p] == Ever(db)[p];
      assert p in db.pruned ==> Ever(db)[p] == db.pruned[p];
    }
  }

  lemma HorizonIsAttained(h: Pos, pruned: set<Pos>, top: Pos, batch: set<Pos>)
    requires (h == BEGINNING || Attains(pruned, h)) && IsBatchMax(top, batch) && 0 < top.major && 0 < top.minor
    ensures Attains(pruned + batch, Greatest(h, top))
  {
    var p :| p in batch && p.major == top.major;
    var q :| q in batch && q.minor == top.minor;
    assert p in pruned + batch && q in pruned + batch;
    if h != BEGINNING {
      var p' :| p' in pruned && p'.major == h.major;
      var q' :| q' in pruned && q'.minor == h.minor;
      assert p' in pruned + batch && q' in pruned + batch;
    }
  }

  lemma StepKeepsAge(db: Db, step: Step, cutoffs: set<int>)
    requires Inv(db) && PrunedByAge(db, cutoffs) && Enabled(db, step)
    requires step.PruneSelect? ==> step.cutoff in cutoffs
    ensures PrunedByAge(Apply(db, step), cutoffs)
  {
    match step
    case PruneSelect(_, _, _, _) => SelectKeepsAge(db, step, cutoffs);
    case PruneCommit(k, top) => PruneKeepsAge(db, k, top, cutoffs);
    case Commit(xid) =>
      CommitAddsRows(db, xid);
      RowsStayAged(db, Apply(db, step), cutoffs);
    case _ => RowsStayAged(db, Apply(db, step), cutoffs);
  }

  lemma RowsStayAged(db: Db, db': Db, cutoffs: set<int>)
    requires PrunedByAge(db, cutoffs) && db'.horizon == db.horizon && db'.pruned == db.pruned
    requires forall k :: k in db'.pruners ==> k in db.pruners && db'.pruners[k] == db.pruners[k]
    requires forall p :: p in Ever(db) ==> p in Ever(db') && Ever(db')[p] == Ever(db)[p]
    ensures PrunedByAge(db', cutoffs)
  {
  }

  lemma {:induction false} RunKeepsAge(db: Db, steps: seq<Step>, cutoffs: set<int>)
    requires Inv(db) && PrunedByAge(db, cutoffs) && Legal(db, steps) && Cutoffs(steps) <= cutoffs
    ensures PrunedByAge(Run(db, steps), cutoffs)
    decreases steps
  {
    if steps != [] {
      StepKeeps(db, steps[0]);
      assert steps[0].PruneSelect? ==> steps[0].cutoff in Cutoffs(steps);
      StepKeepsAge(db, steps[0], cutoffs);
      LaterCutoffs(steps);
      RunKeepsAge(Apply(db, steps[0]), steps[1..], cutoffs);
    }
  }

  lemma LaterCutoffs(steps: seq<Step>)
    requires steps != []
    ensures Cutoffs(steps[1..]) <= Cutoffs(steps)
  {
    assert forall i :: 0 <= i < |steps[1..]| ==> steps[1..][i] == steps[i + 1];
  }

  /** In every run a nonzero cursor is refused if and only if a row of a younger transaction was pruned, or one of its
      own transaction and, in whatever transaction, one with a higher server_seq. */
  lemma RefusedIff(steps: seq<Step>, c: Pos)
    requires Legal(EMPTY, steps) && IsCursor(c) && c != BEGINNING
    ensures var db := Run(EMPTY, steps);
            !Accepts(db, c) <==>
              (exists p :: p in db.pruned && c.major < p.major)
              || (exists p, q :: p in db.pruned && q in db.pruned && p.major == c.major && c.minor < q.minor)
  {
    EmptyIsSound();
    RunKeeps(EMPTY, steps);
    RunKeepsAge(EMPTY, steps, Cutoffs(steps));
    var db := Run(EMPTY, steps);
    if !Accepts(db, c) {
      var p :| p in db.pruned.Keys && p.major == db.horizon.major;
      var q :| q in db.pruned.Keys && q.minor == db.horizon.minor;
      assert p in db.pruned && q in db.pruned;
    }
  }

  /** In every run the transaction of each pruned row began before the cutoff of some tick. */
  lemma PrunedBeganBeforeACutoff(steps: seq<Step>, p: Pos)
    requires Legal(EMPTY, steps) && p in Run(EMPTY, steps).pruned
    ensures 0 < p.major <= |Clocks(steps)|
    ensures exists i :: 0 <= i < |steps| && steps[i].PruneSelect? && Clocks(steps)[p.major - 1] < steps[i].cutoff
  {
    EmptyIsSound();
    RunKeeps(EMPTY, steps);
    RunKeepsAge(EMPTY, steps, Cutoffs(steps));
    var db := Run(EMPTY, steps);
    assert Ever(db)[p] == db.pruned[p];
    RowsCarryTheirBeginning(steps, p);
    assert OlderThanSome(db.pruned[p], Cutoffs(steps));
    var x :| x in Cutoffs(steps) && db.pruned[p].createdAt < x;
    var i :| 0 <= i < |steps| && steps[i].PruneSelect? && steps[i].cutoff == x;
  }

  /** In every run a tick's batch misses a row of a transaction begun before its cutoff only if the batch is full, and
      of rows no newer in changelog_id; and it has no other rows. */
  lemma BatchIsTheOldest(steps: seq<Step>, cutoff: int, limit: nat, batch: set<Pos>, p: Pos)
    requires Legal(EMPTY, steps) && IsPruneBatch(Run(EMPTY, steps).log, cutoff, limit, batch)
    requires p in Run(EMPTY, steps).log
    ensures 0 < p.major <= |Clocks(steps)|
    ensures var log, began := Run(EMPTY, steps).log, Clocks(steps)[p.major - 1];
            (p in batch ==> began < cutoff)
            && (p !in batch && began < cutoff ==>
                  |batch| == limit && forall q :: q in batch ==> q in log && log[q].id <= log[p].id)
  {
    EmptyIsSound();
    RunKeeps(EMPTY, steps);
    RowsCarryTheirBeginning(steps, p);
    BatchIsOldest(Run(EMPTY, steps), cutoff, limit, batch, p);
  }

  lemma BatchIsOldest(db: Db, cutoff: int, limit: nat, batch: set<Pos>, p: Pos)
    requires IsPruneBatch(db.log, cutoff, limit, batch) && p in db.log && db.log.Keys !! db.pruned.Keys
    ensures p in Ever(db) && Ever(db)[p] == db.log[p]
    ensures p in batch ==> db.log[p].createdAt < cutoff
    ensures p !in batch && db.log[p].createdAt < cutoff ==>
              |batch| == limit && forall q :: q in batch ==> q in db.log && db.log[q].id <= db.log[p].id
  {
    var aged := Aged(db.log, cutoff);
    var rest := aged - batch;
    assert aged == batch + rest;
    assert |aged| == |batch| + |rest|;
  }
}
