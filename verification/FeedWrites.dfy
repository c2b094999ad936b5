/** What a transaction leaves in the feed, in terms of the steps of a run: its last write of each entity and one row per
write if it commits, and nothing if it does not. */
module FeedWrites {
  import opened Options
  import opened Keyset
  import opened ChangeFeed
  import opened FeedInvariants

  // ---- Commits

  predicate WritesAgain(step: Step, xid: nat, ref: Ref) { step.Write? && step.xid == xid && step.ref == ref }

  /** The writer holds this state of the entity, and a row for it at the position. */
  ghost predicate Pending(db: Db, xid: nat, ref: Ref, at: Pos, data: nat, deleted: bool) {
    xid in db.inflight && ref in db.inflight[xid].writes && at in db.inflight[xid].rows
    && db.inflight[xid].rows[at].ref == ref
    && 0 <= at.minor < db.nextSeq && db.inflight[xid].writes[ref] == Entity(data, deleted, at.minor)
  }

  lemma {:induction false} StaysPending(db: Db, steps: seq<Step>, xid: nat, ref: Ref, at: Pos, data: nat, deleted: bool)
    requires Pending(db, xid, ref, at, data, deleted) && Legal(db, steps) && xid in Run(db, steps).inflight
    requires xid < db.nextXid && forall i :: 0 <= i < |steps| ==> !WritesAgain(steps[i], xid, ref)
    ensures Pending(Run(db, steps), xid, ref, at, data, deleted)
    decreases steps
  {
    if steps != [] {
      var db' := Apply(db, steps[0]);
      assert !WritesAgain(steps[0], xid, ref);
      if xid in db'.inflight {
        PendingStep(db, steps[0], xid, ref, at, data, deleted);
        assert forall i :: 0 <= i < |steps[1..]| ==> steps[1..][i] == steps[i + 1];
        StaysPending(db', steps[1..], xid, ref, at, data, deleted);
      } else {
        GoneForGood(db', steps[1..], xid);
      }
    }
  }

  lemma PendingStep(db: Db, step: Step, xid: nat, ref: Ref, at: Pos, data: nat, deleted: bool)
    requires Pending(db, xid, ref, at, data, deleted) && Enabled(db, step) && xid in Apply(db, step).inflight
    requires xid < db.nextXid && !WritesAgain(step, xid, ref)
    ensures Pending(Apply(db, step), xid, ref, at, data, deleted)
  {
  }

  lemma {:induction false} GoneForGood(db: Db, steps: seq<Step>, xid: nat)
    requires Legal(db, steps) && xid !in db.inflight && xid < db.nextXid
    ensures xid !in Run(db, steps).inflight
    decreases steps
  {
    if steps != [] {
      GoneForGood(Apply(db, steps[0]), steps[1..], xid);
    }
  }

  /** A transaction that writes an entity, for the last time, and later commits publishes exactly that state, under a
      row of its own that carries its xid and the write's server_seq. */
  lemma CommitPublishesTheLastWrite(before: seq<Step>, write: Step, after: seq<Step>)
    requires Legal(EMPTY, before) && write.Write? && Enabled(Run(EMPTY, before), write)
    requires Legal(Apply(Run(EMPTY, before), write), after)
    requires forall i :: 0 <= i < |after| ==> !WritesAgain(after[i], write.xid, write.ref)
    requires Enabled(Run(Apply(Run(EMPTY, before), write), after), Commit(write.xid))
    ensures var seqNo := Run(EMPTY, before).nextSeq;
            var z := Apply(Run(Apply(Run(EMPTY, before), write), after), Commit(write.xid));
            write.ref in z.entities && z.entities[write.ref] == Entity(write.data, write.deleted, seqNo)
            && Pos(write.xid, seqNo) in z.log && z.log[Pos(write.xid, seqNo)].ref == write.ref
  {
    EmptyIsSound();
    RunKeeps(EMPTY, before);
    var s := Run(EMPTY, before);
    assert WriterIsSound(s, write.xid);
    StaysPending(Apply(s, write), after, write.xid, write.ref, Pos(write.xid, s.nextSeq), write.data, write.deleted);
  }

  /** Committing changes no entity the transaction has not written, and no other step changes any. */
  lemma OnlyCommitsPublish(db: Db, step: Step, r: Ref)
    requires Enabled(db, step) && !(step.Commit? && r in db.inflight[step.xid].writes)
    ensures r in db.entities <==> r in Apply(db, step).entities
    ensures r in db.entities ==> Apply(db, step).entities[r] == db.entities[r]
  {
  }

  // ---- Nothing else is logged

  function Committed(steps: seq<Step>): set<nat> { set i | 0 <= i < |steps| && steps[i].Commit? :: steps[i].xid }

  ghost predicate FromCommits(db: Db, xids: set<nat>) { forall p :: p in Ever(db) ==> p.major in xids }

  lemma StepFromCommits(db: Db, step: Step, xids: set<nat>)
    requires Inv(db) && FromCommits(db, xids) && Enabled(db, step) && (step.Commit? ==> step.xid in xids)
    ensures FromCommits(Apply(db, step), xids)
  {
    if step.Commit? {
      CommitAddsRows(db, step.xid);
    } else if step.PruneCommit? {
      PruneMovesRows(db, db.pruners[step.pruner], step.top);
    } else {
      assert Ever(Apply(db, step)) == Ever(db);
    }
  }

  lemma {:induction false} RunFromCommits(db: Db, steps: seq<Step>, xids: set<nat>)
    requires Inv(db) && FromCommits(db, xids) && Legal(db, steps) && Committed(steps) <= xids
    ensures FromCommits(Run(db, steps), xids)
    decreases steps
  {
    if steps != [] {
      StepKeeps(db, steps[0]);
      assert steps[0].Commit? ==> steps[0].xid in Committed(steps);
      StepFromCommits(db, steps[0], xids);
      assert forall i :: 0 <= i < |steps[1..]| ==> steps[1..][i] == steps[i + 1];
      RunFromCommits(Apply(db, steps[0]), steps[1..], xids);
    }
  }

  /** In every run the transaction of each row ever logged committed: aborted and open ones leave no row. */
  lemma EveryRowWasCommitted(steps: seq<Step>, p: Pos)
    requires Legal(EMPTY, steps) && p in Ever(Run(EMPTY, steps))
    ensures exists i :: 0 <= i < |steps| && steps[i].Commit? && steps[i].xid == p.major
  {
    EmptyIsSound();
    RunFromCommits(EMPTY, steps, Committed(steps));
    var i :| 0 <= i < |steps| && steps[i].Commit? && steps[i].xid == p.major;
  }
}
