/** The changelog retention pruner: one tick, in its imperative form, against the
state machine's prune steps. */
module Retention {
  import opened Options
  import opened Keyset
  import opened ChangeFeed
  import opened FeedInvariants

  // ---- changelog_id is a primary key

  /** The positions that hold a row, committed or still in a writer. */
  predicate Placed(db: Db, p: Pos) {
    p in db.log || (p.major in db.inflight && p in db.inflight[p.major].rows)
  }

  function IdAt(db: Db, p: Pos): nat
    requires Placed(db, p)
  {
    if p in db.log then db.log[p].id else db.inflight[p.major].rows[p].id
  }

  ghost predicate IdsAreKeys(db: Db) {
    (forall p :: Placed(db, p) ==> IdAt(db, p) < db.nextId)
    && (forall p, q :: Placed(db, p) && Placed(db, q) && IdAt(db, p) == IdAt(db, q) ==> p == q)
  }

  predicate UniqueIds(log: map<Pos, Row>) {
    forall p, q :: p in log && q in log && log[p].id == log[q].id ==> p == q
  }

  lemma IdsStayKeys(db: Db, step: Step)
    requires Inv(db) && IdsAreKeys(db) && Enabled(db, step)
    ensures IdsAreKeys(Apply(db, step))
  {
    var db' := Apply(db, step);
    var written := Pos(if step.Write? then step.xid else 0, db.nextSeq);
    forall p | Placed(db', p)
      ensures if step.Write? && p == written then IdAt(db', p) == db.nextId
              else Placed(db, p) && IdAt(db', p) == IdAt(db, p)
    {
      PlacedBefore(db, step, p);
    }
  }

  lemma PlacedBefore(db: Db, step: Step, p: Pos)
    requires Inv(db) && Enabled(db, step) && Placed(Apply(db, step), p)
    ensures if step.Write? && p == Pos(step.xid, db.nextSeq) then IdAt(Apply(db, step), p) == db.nextId
            else Placed(db, p) && IdAt(Apply(db, step), p) == IdAt(db, p)
  {
    if step.Commit? { assert WriterIsSound(db, step.xid); }
    assert p in db.log ==> p in Ever(db);
  }

  lemma {:induction false} RunKeepsIds(db: Db, steps: seq<Step>)
    requires Inv(db) && IdsAreKeys(db) && Legal(db, steps)
    ensures Inv(Run(db, steps)) && IdsAreKeys(Run(db, steps))
    decreases steps
  {
    if steps != [] {
      StepKeeps(db, steps[0]);
      IdsStayKeys(db, steps[0]);
      RunKeepsIds(Apply(db, steps[0]), steps[1..]);
    }
  }

  /** What the pruner relies on: changelog_id is a key and positions are positive. */
  ghost predicate SoundLog(log: map<Pos, Row>) {
    UniqueIds(log) && forall p :: p in log ==> 0 < p.minor
  }

  lemma EveryReachableLogIsSound(steps: seq<Step>)
    requires Legal(EMPTY, steps)
    ensures SoundLog(Run(EMPTY, steps).log)
  {
    EmptyIsSound();
    RunKeepsIds(EMPTY, steps);
    var db := Run(EMPTY, steps);
    forall p | p in db.log ensures 0 < p.minor { assert p in Ever(db); }
    forall p, q | p in db.log && q in db.log && db.log[p].id == db.log[q].id ensures p == q {
      assert Placed(db, p) && Placed(db, q);
      assert IdAt(db, p) == IdAt(db, q);
    }
  }

  // ---- changelog_id order

  /** ids and server_seq values come from the two sequences in the same order. */
  ghost predicate DrawnTogether(db: Db) {
    (forall p :: Placed(db, p) ==> IdAt(db, p) < db.nextId && p.minor < db.nextSeq)
    && (forall p, q :: Placed(db, p) && Placed(db, q) ==> (IdAt(db, p) < IdAt(db, q) <==> p.minor < q.minor))
  }

  lemma DrawsStayTogether(db: Db, step: Step)
    requires Inv(db) && DrawnTogether(db) && Enabled(db, step)
    ensures DrawnTogether(Apply(db, step))
  {
    var db' := Apply(db, step);
    var written := Pos(if step.Write? then step.xid else 0, db.nextSeq);
    forall p | Placed(db', p)
      ensures if step.Write? && p == written then IdAt(db', p) == db.nextId
              else Placed(db, p) && IdAt(db', p) == IdAt(db, p)
    {
      PlacedBefore(db, step, p);
    }
  }

  lemma {:induction false} RunKeepsDraws(db: Db, steps: seq<Step>)
    requires Inv(db) && DrawnTogether(db) && Legal(db, steps)
    ensures DrawnTogether(Run(db, steps))
    decreases steps
  {
    if steps != [] {
      StepKeeps(db, steps[0]);
      DrawsStayTogether(db, steps[0]);
      RunKeepsDraws(Apply(db, steps[0]), steps[1..]);
    }
  }

  ghost predicate IdOrderIsCursorOrder(log: map<Pos, Row>) {
    forall p, q :: p in log && q in log && log[p].id < log[q].id ==> Less(p, q)
  }

  /** Of two rows, the one written later never carries the smaller xid. */
  ghost predicate NoLaterRowOfAnOlderWriter(log: map<Pos, Row>) {
    forall p, q :: p in log && q in log && p.minor < q.minor ==> p.major <= q.major
  }

  /** In every run the changelog_id order of the log is cursor order if and only if no writer wrote a row after a row of
      a younger writer. */
  lemma IdOrderIsCursorOrderIff(steps: seq<Step>)
    requires Legal(EMPTY, steps)
    ensures IdOrderIsCursorOrder(Run(EMPTY, steps).log) <==> NoLaterRowOfAnOlderWriter(Run(EMPTY, steps).log)
  {
    EmptyIsSound();
    RunKeepsDraws(EMPTY, steps);
    var db := Run(EMPTY, steps);
    forall p, q | p in db.log && q in db.log ensures db.log[p].id < db.log[q].id <==> p.minor < q.minor {
      assert Placed(db, p) && Placed(db, q);
      assert IdAt(db, p) < IdAt(db, q) <==> p.minor < q.minor;
    }
  }

  // ---- One tick

  datatype PruneResult = Misconfigured | Pruned(deleted: nat)

  lemma OldestExists(log: map<Pos, Row>, S: set<Pos>)
    requires S != {} && S <= log.Keys
    ensures exists p :: p in S && forall q :: q in S ==> log[p].id <= log[q].id
  {
    var p :| p in S;
    if S != {p} {
      OldestExists(log, S - {p});
      var m :| m in S - {p} && forall q :: q in S - {p} ==> log[m].id <= log[q].id;
      var oldest := if log[p].id <= log[m].id then p else m;
      assert oldest in S && forall q :: q in S ==> log[oldest].id <= log[q].id;
    }
  }

  /** WHERE created_at < cutoff ORDER BY changelog_id LIMIT limit. */
  method SelectPruneBatch(log: map<Pos, Row>, cutoff: int, limit: nat) returns (victims: seq<Pos>)
    ensures |Elements(victims)| == |victims| && IsPruneBatch(log, cutoff, limit, Elements(victims))
  {
    victims := [];
    var remaining := Aged(log, cutoff);
    ghost var chosen: set<Pos> := {};
    while |victims| < limit && remaining != {}
      invariant chosen == Elements(victims) && |chosen| == |victims| <= limit
      invariant chosen !! remaining && chosen + remaining == Aged(log, cutoff)
      invariant Older(log, chosen, remaining)
      decreases remaining
    {
      OldestExists(log, remaining);
      var p :| p in remaining && forall q :: q in remaining ==> log[p].id <= log[q].id;
      assert Elements(victims + [p]) == chosen + {p};
      chosen := chosen + {p};
      victims := victims + [p];
      remaining := remaining - {p};
    }
    assert |Aged(log, cutoff)| == |chosen| + |remaining|;
    assert remaining == Aged(log, cutoff) - chosen;
  }

  predicate Older(log: map<Pos, Row>, a: set<Pos>, b: set<Pos>) {
    forall p, q :: p in a && q in b ==> p in log && q in log && log[p].id <= log[q].id
  }

  /** The loop over the victims: their ids, and the two maxima, component by component. */
  method Maxima(log: map<Pos, Row>, victims: seq<Pos>) returns (ids: set<nat>, top: Pos)
    requires victims != [] && Elements(victims) <= log.Keys
    requires forall i :: 0 <= i < |victims| ==> 0 < victims[i].minor
    ensures IsBatchMax(top, Elements(victims))
    ensures ids == set p | p in victims && p in log :: log[p].id
  {
    assert forall i :: 0 <= i < |victims| ==> victims[i] in Elements(victims);
    ids := {};
    var maxXid8: Option<int> := None;
    var maxServerSeq := 0;
    for i := 0 to |victims|
      invariant ids == set p | p in victims[..i] && p in log :: log[p].id
      invariant maxXid8.None? <==> i == 0
      invariant i > 0 ==> exists k :: 0 <= k < i && victims[k].major == maxXid8.value
      invariant i > 0 ==> exists k :: 0 <= k < i && victims[k].minor == maxServerSeq
      invariant forall k :: 0 <= k < i ==> victims[k].major <= maxXid8.value && victims[k].minor <= maxServerSeq
      invariant i == 0 ==> maxServerSeq == 0
    {
      var v := victims[i];
      assert victims[..i + 1] == victims[..i] + [v];
      ids := ids + {log[v].id};
      if maxXid8.None? || v.major > maxXid8.value {
        maxXid8 := Some(v.major);
      }
      if v.minor > maxServerSeq {
        maxServerSeq := v.minor;
      }
    }
    assert victims[..|victims|] == victims;
    top := Pos(maxXid8.value, maxServerSeq);
  }

  class Store {
    var db: Db

    constructor ()
      ensures db == EMPTY
    {
      db := EMPTY;
    }

    /** DELETE ... WHERE changelog_id = ANY(ids). */
    method DeleteChangelogRows(ids: set<nat>) returns (deleted: nat)
      modifies this
      ensures var gone := set p | p in old(db).log && old(db).log[p].id in ids;
              deleted == |gone|
              && db == old(db).(log := old(db).log - gone,
                                pruned := old(db).pruned + (map p | p in gone :: old(db).log[p]))
    {
      var gone := set p | p in db.log && db.log[p].id in ids;
      db := db.(log := db.log - gone, pruned := db.pruned + (map p | p in gone :: db.log[p]));
      deleted := |gone|;
    }

    method AdvanceChangelogHorizon(top: Pos)
      modifies this
      ensures db == old(db).(horizon := Greatest(old(db).horizon, top))
    {
      db := db.(horizon := Greatest(db.horizon, top));
    }

    /** PruneOnce: the oldest aged rows go, the horizon moves to cover them, and nothing else changes;
        a misconfigured pruner changes nothing. */
    method PruneOnce(now: int, maxAge: int, batchSize: int)
        returns (r: PruneResult, ghost batch: set<Pos>, ghost top: Pos)
      requires SoundLog(db.log)
      modifies this
      ensures r.Misconfigured? <==> maxAge <= 0 || batchSize <= 0
      ensures r.Misconfigured? ==> db == old(db)
      ensures r.Pruned? ==>
                IsPruneBatch(old(db).log, now - maxAge, batchSize, batch)
                && r.deleted == |batch|
                && (batch != {} ==> IsBatchMax(top, batch))
                && db == ApplyPrune(old(db), batch, top)
    {
      batch, top := {}, BEGINNING;
      if maxAge <= 0 || batchSize <= 0 {
        return Misconfigured, batch, top;
      }
      var victims := SelectPruneBatch(db.log, now - maxAge, batchSize);
      batch := Elements(victims);
      if |victims| == 0 {
        return Pruned(0), batch, top;
      }
      VictimsAreRows(db.log, victims);
      var ids, max := Maxima(db.log, victims);
      top := max;
      IdsSelect(db.log, victims, ids);
      DeleteThenAdvance(db, batch, top);
      var deleted := DeleteChangelogRows(ids);
      AdvanceChangelogHorizon(max);
      r := Pruned(deleted);
    }
  }

  lemma VictimsAreRows(log: map<Pos, Row>, victims: seq<Pos>)
    requires SoundLog(log) && Elements(victims) <= log.Keys && victims != []
    ensures forall i :: 0 <= i < |victims| ==> 0 < victims[i].minor
    ensures Elements(victims) != {}
  {
    assert forall i :: 0 <= i < |victims| ==> victims[i] in Elements(victims);
    assert victims[0] in Elements(victims);
  }

  lemma DeleteThenAdvance(db: Db, batch: set<Pos>, top: Pos)
    requires batch != {} && batch <= db.log.Keys
    ensures db.(log := db.log - batch, pruned := db.pruned + (map p | p in batch :: db.log[p]),
                horizon := Greatest(db.horizon, top)) == ApplyPrune(db, batch, top)
  {
    assert (map p | p in batch :: db.log[p]) == (map p | p in batch && p in db.log :: db.log[p]);
  }

  /** Deleting by primary key removes exactly the selected rows. */
  lemma IdsSelect(log: map<Pos, Row>, victims: seq<Pos>, ids: set<nat>)
    requires UniqueIds(log) && Elements(victims) <= log.Keys
    requires ids == set p | p in victims && p in log :: log[p].id
    ensures (set p | p in log && log[p].id in ids) == Elements(victims)
  {
    forall p ensures p in log && log[p].id in ids <==> p in Elements(victims) {
      if p in Elements(victims) {
        assert p in victims && p in log;
      }
      if p in log && log[p].id in ids {
        var q :| q in victims && q in log && log[q].id == log[p].id;
      }
    }
  }

  /** A tick is the machine's select step followed at once by its commit step. */
  lemma TickIsTwoSteps(db: Db, k: nat, cutoff: int, limit: nat, batch: set<Pos>, top: Pos)
    requires k !in db.pruners && limit > 0 && IsPruneBatch(db.log, cutoff, limit, batch)
    requires batch != {} ==> IsBatchMax(top, batch)
    ensures var steps := [PruneSelect(k, cutoff, limit, batch), PruneCommit(k, top)];
            Legal(db, steps) && Run(db, steps) == ApplyPrune(db, batch, top)
  {
    var select, commit := PruneSelect(k, cutoff, limit, batch), PruneCommit(k, top);
    var d1 := Apply(db, select);
    var d2 := Apply(d1, commit);
    assert d2.pruners == db.pruners;
    assert [select, commit][1..] == [commit] && [commit][1..] == [];
    OneMore(d1, [commit]);
    OneMore(db, [select, commit]);
  }
}
