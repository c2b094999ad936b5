/** What a client gets out of the feed, over every interleaving of writers, prune
ticks and pulls: each committed row once, and in the end the server's own state. */
module FeedDelivery {
  import opened Keyset
  import opened ChangeFeed
  import opened FeedInvariants

  // ---- Gap-free, exactly once

  ghost predicate Owed(db: Db, c: Client, p: Pos) {
    p in Ever(db) && InScope(Ever(db)[p].ref, c.user) && Less(c.start, p) && AtMost(p, c.cursor)
  }

  ghost predicate DeliveryInv(db: Db, c: Client) {
    IsCursor(c.start) && IsCursor(c.cursor) && AtMost(c.start, c.cursor)
    && BelowXmin(db, c.cursor.major)
    && (c.start != BEGINNING ==> c.skipped == {})
    && (forall p :: p in c.skipped ==> p in db.pruned && p !in c.delivered)
    && Ascending(c.delivered)
    && (forall p :: p in c.delivered ==> Owed(db, c, p))
    && (forall p :: Owed(db, c, p) ==> p in c.delivered || p in c.skipped)
  }

  /** A client that resumes from a cursor the server issued to it earlier. */
  function Joining(u: User, c: Pos): Client { Client(u, c, c, [], map[], {}) }

  lemma JoiningIsSound(db: Db, u: User, c: Pos)
    requires Inv(db) && IsCursor(c) && BelowXmin(db, c.major)
    ensures DeliveryInv(db, Joining(u, c))
  {
  }

  lemma BeginningIsBelowXmin(db: Db)
    requires Inv(db)
    ensures BelowXmin(db, 0)
  {
    forall t: nat | t in db.inflight ensures 0 < t { assert WriterIsSound(db, t); }
  }

  lemma StepKeepsDelivery(db: Db, step: Step, c: Client)
    requires Inv(db) && Enabled(db, step) && DeliveryInv(db, c)
    ensures DeliveryInv(Apply(db, step), c)
  {
    var db' := Apply(db, step);
    XminAdvances(db, step, c.cursor.major);
    StepFreezes(db, step, c.cursor);
    PrunedGrows(db, step);
    forall p ensures Owed(db', c, p) <==> Owed(db, c, p) {
    }
  }

  lemma PrunedGrows(db: Db, step: Step)
    requires Enabled(db, step)
    ensures forall p :: p in db.pruned ==> p in Apply(db, step).pruned
  {
  }

  /** A committed in-scope row between the old and the new cursor is on the page, unless the client reads from
      the beginning and the row was already pruned. */
  lemma OnPage(db: Db, u: User, from: Pos, page: seq<Pos>, next: Pos, p: Pos)
    requires Inv(db) && Accepts(db, from) && Served(Servable(db, u), from, page, next) && BelowXmin(db, next.major)
    requires p in Ever(db) && InScope(Ever(db)[p].ref, u) && Less(from, p) && AtMost(p, next)
    ensures p in page || (from == BEGINNING && p in PrunedInScope(db, u))
  {
    if p in db.pruned {
      if from != BEGINNING { NothingPrunedAfter(db, from); }
    } else {
      assert BelowXmin(db, p.major);
      assert p in Servable(db, u);
    }
  }

  lemma NextIsSettled(db: Db, u: User, from: Pos, page: seq<Pos>, next: Pos)
    requires Inv(db) && IsCursor(from) && BelowXmin(db, from.major) && Served(Servable(db, u), from, page, next)
    ensures BelowXmin(db, next.major) && IsCursor(next)
  {
    if page != [] {
      assert next in Servable(db, u);
      assert next in Ever(db);
    }
  }

  lemma PageKeepsDelivery(db: Db, c: Client, page: seq<Pos>, next: Pos, c': Client)
    requires Inv(db) && DeliveryInv(db, c) && Accepts(db, c.cursor)
    requires Served(Servable(db, c.user), c.cursor, page, next)
    requires c'.user == c.user && c'.start == c.start && c'.cursor == next && c'.delivered == c.delivered + page
    requires c'.skipped == if c.cursor == BEGINNING then PrunedInScope(db, c.user) else c.skipped
    ensures DeliveryInv(db, c')
  {
    NextIsSettled(db, c.user, c.cursor, page, next);
    JoinAscending(c.delivered, page, c.cursor);
    forall p | Owed(db, c', p) ensures p in c'.delivered || p in c'.skipped {
      if AtMost(p, c.cursor) { assert Owed(db, c, p); } else { OnPage(db, c.user, c.cursor, page, next, p); }
    }
    PageIsOwed(db, c, page, next, c');
    PageKeepsSkipped(db, c, page, next, c');
  }

  lemma PageIsOwed(db: Db, c: Client, page: seq<Pos>, next: Pos, c': Client)
    requires Inv(db) && DeliveryInv(db, c) && Served(Servable(db, c.user), c.cursor, page, next)
    requires c'.user == c.user && c'.start == c.start && c'.cursor == next && c'.delivered == c.delivered + page
    ensures forall p :: p in c'.delivered ==> Owed(db, c', p)
  {
    forall p | p in c'.delivered ensures Owed(db, c', p) {
      if p in c.delivered { assert Owed(db, c, p); } else { assert p in page; }
    }
  }

  lemma PageKeepsSkipped(db: Db, c: Client, page: seq<Pos>, next: Pos, c': Client)
    requires Inv(db) && DeliveryInv(db, c)
    requires Served(Servable(db, c.user), c.cursor, page, next)
    requires c'.start == c.start && c'.delivered == c.delivered + page
    requires c'.skipped == if c.cursor == BEGINNING then PrunedInScope(db, c.user) else c.skipped
    ensures c'.start != BEGINNING ==> c'.skipped == {}
    ensures forall p :: p in c'.skipped ==> p in db.pruned && p !in c'.delivered
  {
    forall p | p in c'.skipped ensures p in db.pruned && p !in c'.delivered {
      assert p in page ==> p in db.log;
      assert c.cursor == BEGINNING && p in c.delivered ==> Owed(db, c, p);
    }
  }

  lemma PullKeepsDelivery(db: Db, c: Client, limit: nat)
    requires Inv(db) && DeliveryInv(db, c)
    ensures DeliveryInv(db, Pull(db, c, limit))
  {
    if Accepts(db, c.cursor) {
      PageIsExact(Servable(db, c.user), c.cursor, limit);
      var page := NextPage(db, c, limit);
      PageKeepsDelivery(db, c, page, Next(c.cursor, page), Pull(db, c, limit));
    }
  }

  lemma ResetIsSound(db: Db, c: Client)
    requires Inv(db)
    ensures DeliveryInv(db, Reset(c))
  {
    BeginningIsBelowXmin(db);
  }

  predicate NeverReset(actions: seq<Action>) { forall i :: 0 <= i < |actions| ==> actions[i] != ResetCursor }

  lemma {:induction false} RunKeepsDelivery(s: System, actions: seq<Action>)
    requires Inv(s.db) && DeliveryInv(s.db, s.client) && LegalRun(s, actions)
    ensures Inv(Execute(s, actions).db) && DeliveryInv(Execute(s, actions).db, Execute(s, actions).client)
    ensures Execute(s, actions).client.user == s.client.user
    ensures NeverReset(actions) ==> Execute(s, actions).client.start == s.client.start
    decreases actions
  {
    if actions != [] {
      match actions[0] {
        case Server(step) =>
          StepKeeps(s.db, step);
          StepKeepsDelivery(s.db, step, s.client);
        case PullPage(limit) => PullKeepsDelivery(s.db, s.client, limit);
        case ResetCursor => ResetIsSound(s.db, s.client);
      }
      RunKeepsDelivery(Act(s, actions[0]), actions[1..]);
    }
  }

  /** The next cursor of any answered pull is below the snapshot's xmin, so it can be resumed from at any time. */
  lemma IssuedCursorIsSettled(db: Db, c: Client, limit: nat)
    requires Inv(db) && DeliveryInv(db, c)
    ensures IsCursor(Pull(db, c, limit).cursor) && BelowXmin(db, Pull(db, c, limit).cursor.major)
  {
    PullKeepsDelivery(db, c, limit);
  }

  /** A client that resumes from a server-issued nonzero cursor has, after any run at all, received exactly
      the committed in-scope rows between the cursor it started from and its current one, each once and in order,
      whatever the order in which their transactions committed.  Only a reset moves the start, to the beginning;
      then the rows already pruned when it read from there are missing. */
  lemma GapFreeExactlyOnce(db: Db, u: User, from: Pos, actions: seq<Action>)
    requires Inv(db) && IsCursor(from) && from != BEGINNING && BelowXmin(db, from.major)
    requires LegalRun(System(db, Joining(u, from)), actions)
    ensures var t := Execute(System(db, Joining(u, from)), actions);
            Ascending(t.client.delivered)
            && AtMost(t.client.start, t.client.cursor)
            && (NeverReset(actions) ==> t.client.start == from)
            && (t.client.start != BEGINNING ==> t.client.skipped == {})
            && (forall p :: p in t.client.skipped ==> p in t.db.pruned)
            && forall p :: p in t.client.delivered <==>
                 p in Ever(t.db) && InScope(Ever(t.db)[p].ref, u) && Less(t.client.start, p)
                 && AtMost(p, t.client.cursor)
                 && p !in t.client.skipped
  {
    JoiningIsSound(db, u, from);
    RunKeepsDelivery(System(db, Joining(u, from)), actions);
    var t := Execute(System(db, Joining(u, from)), actions);
    forall p ensures p in t.client.delivered <==> Owed(t.db, t.client, p) && p !in t.client.skipped {
    }
  }

  // ---- Convergence without replay

  predicate Current(db: Db, view: map<Ref, Entity>, r: Ref)
    requires r in db.entities
  {
    if db.entities[r].deleted then r !in view else r in view && view[r] == db.entities[r]
  }

  /** Some row naming r has still to reach the client, or never will. */
  ghost predicate Pending(db: Db, c: Client, r: Ref) {
    exists p :: p in Ever(db) && Ever(db)[p].ref == r && (Less(c.cursor, p) || p in c.skipped)
  }

  ghost predicate ViewInv(db: Db, c: Client) {
    (forall r :: r in c.view ==> r in db.entities && InScope(r, c.user))
    && (forall r :: r in db.entities && InScope(r, c.user) ==> Current(db, c.view, r) || Pending(db, c, r))
  }

  lemma NewClientIsSound(db: Db, u: User)
    requires Inv(db)
    ensures DeliveryInv(db, NewClient(u)) && ViewInv(db, NewClient(u))
  {
    BeginningIsBelowXmin(db);
    forall r | r in db.entities ensures Pending(db, NewClient(u), r) {
      var p :| p in Ever(db) && Ever(db)[p].ref == r;
      assert Less(BEGINNING, p);
    }
  }

  lemma StillPending(db: Db, step: Step, c: Client, r: Ref)
    requires Inv(db) && Enabled(db, step) && DeliveryInv(db, c) && Pending(db, c, r)
    ensures Pending(Apply(db, step), c, r)
  {
    StepFreezes(db, step, c.cursor);
    var p :| p in Ever(db) && Ever(db)[p].ref == r && (Less(c.cursor, p) || p in c.skipped);
    assert p in Ever(Apply(db, step)) && Ever(Apply(db, step))[p].ref == r;
  }

  /** A commit announces every entity it changes beyond the client's cursor. */
  lemma CommitAnnounces(db: Db, xid: nat, c: Client, r: Ref)
    requires Inv(db) && xid in db.inflight && DeliveryInv(db, c) && r in db.inflight[xid].writes
    ensures Pending(Apply(db, Commit(xid)), c, r)
  {
    CommitAddsRows(db, xid);
    assert WriterIsSound(db, xid);
    var w := db.inflight[xid];
    var p :| p in w.rows && w.rows[p].ref == r;
    assert p in Ever(Apply(db, Commit(xid))) && Ever(Apply(db, Commit(xid)))[p].ref == r;
    assert Less(c.cursor, p);
  }

  lemma StepKeepsEntity(db: Db, step: Step, r: Ref)
    requires Enabled(db, step) && r in Apply(db, step).entities
    requires !(step.Commit? && r in db.inflight[step.xid].writes)
    ensures r in db.entities && Apply(db, step).entities[r] == db.entities[r]
  {
  }

  lemma EntityIsCurrentOrPending(db: Db, step: Step, c: Client, r: Ref)
    requires Inv(db) && Enabled(db, step) && DeliveryInv(db, c)
    requires r in db.entities && InScope(r, c.user) ==> Current(db, c.view, r) || Pending(db, c, r)
    requires r in Apply(db, step).entities && InScope(r, c.user)
    ensures Current(Apply(db, step), c.view, r) || Pending(Apply(db, step), c, r)
  {
    if step.Commit? && r in db.inflight[step.xid].writes {
      CommitAnnounces(db, step.xid, c, r);
    } else {
      StepKeepsEntity(db, step, r);
      if !Current(db, c.view, r) { StillPending(db, step, c, r); }
    }
  }

  lemma StepKeepsView(db: Db, step: Step, c: Client)
    requires Inv(db) && Enabled(db, step) && DeliveryInv(db, c) && ViewInv(db, c)
    ensures ViewInv(Apply(db, step), c)
  {
    var db' := Apply(db, step);
    forall r | r in db'.entities && InScope(r, c.user)
      ensures Current(db', c.view, r) || Pending(db', c, r)
    {
      EntityIsCurrentOrPending(db, step, c, r);
    }
    StepKeepsNames(db, step);
  }

  lemma StepKeepsNames(db: Db, step: Step)
    requires Enabled(db, step)
    ensures db.entities.Keys <= Apply(db, step).entities.Keys
  {
  }

  /** The page names only existing entities, so the code's "not found" branch is never taken. */
  lemma NamedEntitiesExist(db: Db, page: seq<Pos>)
    requires Inv(db)
    ensures forall r :: r in Refs(db, page) ==> r in db.entities
  {
    forall p | p in page && p in db.log ensures db.log[p].ref in db.entities {
      assert p in Ever(db) && Ever(db)[p] == db.log[p];
    }
  }

  /** An announced change is either on the page or still announced beyond the new cursor. */
  lemma PageKeepsPending(db: Db, c: Client, page: seq<Pos>, c': Client, r: Ref)
    requires Inv(db) && Accepts(db, c.cursor) && Pending(db, c, r) && InScope(r, c.user)
    requires forall p :: p in c.skipped ==> p in db.pruned
    requires Served(Servable(db, c.user), c.cursor, page, c'.cursor) && BelowXmin(db, c'.cursor.major)
    requires c'.skipped == if c.cursor == BEGINNING then PrunedInScope(db, c.user) else c.skipped
    ensures r in Refs(db, page) || Pending(db, c', r)
  {
    var p :| p in Ever(db) && Ever(db)[p].ref == r && (Less(c.cursor, p) || p in c.skipped);
    if !Less(c.cursor, p) {
      assert p in c'.skipped;
    } else if Less(c'.cursor, p) {
      assert Pending(db, c', r);
    } else {
      OnPage(db, c.user, c.cursor, page, c'.cursor, p);
      if p in page { assert p in db.log && db.log[p].ref == r; }
    }
  }

  lemma PageRefs(db: Db, u: User, from: Pos, page: seq<Pos>, next: Pos)
    requires Served(Servable(db, u), from, page, next)
    ensures forall r :: r in Refs(db, page) ==> InScope(r, u)
  {
  }

  lemma PageKeepsView(db: Db, c: Client, page: seq<Pos>, c': Client)
    requires Inv(db) && Accepts(db, c.cursor) && ViewInv(db, c) && c'.user == c.user
    requires forall p :: p in c.skipped ==> p in db.pruned
    requires Served(Servable(db, c.user), c.cursor, page, c'.cursor) && BelowXmin(db, c'.cursor.major)
    requires c'.skipped == if c.cursor == BEGINNING then PrunedInScope(db, c.user) else c.skipped
    requires c'.view == Refresh(c.view, db, Refs(db, page))
    ensures ViewInv(db, c')
  {
    var named := Refs(db, page);
    NamedEntitiesExist(db, page);
    PageRefs(db, c.user, c.cursor, page, c'.cursor);
    forall r | r in db.entities && InScope(r, c.user)
      ensures Current(db, c'.view, r) || Pending(db, c', r)
    {
      RefreshedIsCurrent(db, c.view, named, r);
      if r !in named && !Current(db, c.view, r) {
        PageKeepsPending(db, c, page, c', r);
      }
    }
    RefreshedNames(db, c.user, c.view, named);
  }

  lemma RefreshedIsCurrent(db: Db, view: map<Ref, Entity>, named: set<Ref>, r: Ref)
    requires r in db.entities
    ensures r in named ==> Current(db, Refresh(view, db, named), r)
    ensures r !in named ==> (Current(db, Refresh(view, db, named), r) <==> Current(db, view, r))
  {
  }

  lemma RefreshedNames(db: Db, u: User, view: map<Ref, Entity>, named: set<Ref>)
    requires forall r :: r in view ==> r in db.entities && InScope(r, u)
    requires forall r :: r in named ==> r in db.entities && InScope(r, u)
    ensures forall r :: r in Refresh(view, db, named) ==> r in db.entities && InScope(r, u)
  {
  }

  lemma PullKeepsView(db: Db, c: Client, limit: nat)
    requires Inv(db) && DeliveryInv(db, c) && ViewInv(db, c)
    ensures ViewInv(db, Pull(db, c, limit))
  {
    if Accepts(db, c.cursor) {
      PullKeepsDelivery(db, c, limit);
      PageIsExact(Servable(db, c.user), c.cursor, limit);
      PageKeepsView(db, c, NextPage(db, c, limit), Pull(db, c, limit));
    }
  }

  /** After a reset every change is announced again, unless its rows turn out to be gone. */
  lemma ResetKeepsView(db: Db, c: Client)
    requires Inv(db) && ViewInv(db, c)
    ensures ViewInv(db, Reset(c))
  {
    forall r | r in db.entities ensures Pending(db, Reset(c), r) {
      var p :| p in Ever(db) && Ever(db)[p].ref == r;
      assert Less(BEGINNING, p);
    }
  }

  lemma {:induction false} RunKeepsView(s: System, actions: seq<Action>)
    requires Inv(s.db) && DeliveryInv(s.db, s.client) && ViewInv(s.db, s.client) && LegalRun(s, actions)
    ensures ViewInv(Execute(s, actions).db, Execute(s, actions).client)
    decreases actions
  {
    if actions != [] {
      match actions[0] {
        case Server(step) =>
          StepKeeps(s.db, step);
          StepKeepsDelivery(s.db, step, s.client);
          StepKeepsView(s.db, step, s.client);
        case PullPage(limit) =>
          PullKeepsDelivery(s.db, s.client, limit);
          PullKeepsView(s.db, s.client, limit);
        case ResetCursor =>
          ResetIsSound(s.db, s.client);
          ResetKeepsView(s.db, s.client);
      }
      RunKeepsView(Act(s, actions[0]), actions[1..]);
    }
  }

  /** After a last page, every servable row is at or below the cursor. */
  lemma LastPageReachesTheEnd(S: set<Pos>, c: Pos, limit: nat, p: Pos)
    requires |After(S, c)| <= limit && p in S
    ensures AtMost(p, Next(c, Page(S, c, limit)))
  {
    PageSplits(S, c, limit);
    var next := Next(c, Page(S, c, limit));
    assert |Sorted(After(S, next))| == 0;
    assert p !in After(S, next);
  }

  /** When the last page is served and no writer is open, no row lies beyond the cursor. */
  lemma NothingBeyond(db: Db, u: User, from: Pos, next: Pos, p: Pos)
    requires Inv(db) && db.inflight == map[] && Accepts(db, from) && AtMost(from, next)
    requires from == BEGINNING ==> PrunedInScope(db, u) == {}
    requires forall q :: q in Servable(db, u) ==> AtMost(q, next)
    requires p in Ever(db) && InScope(Ever(db)[p].ref, u)
    ensures AtMost(p, next)
  {
    if p in db.pruned {
      assert p in PrunedInScope(db, u);
      NothingPrunedAfter(db, from);
    } else {
      assert BelowXmin(db, p.major);
      assert p in Servable(db, u);
    }
  }

  lemma SettledViewIsLive(db: Db, u: User, view: map<Ref, Entity>)
    requires forall r :: r in view ==> r in db.entities && InScope(r, u)
    requires forall r :: r in db.entities && InScope(r, u) ==> Current(db, view, r)
    ensures view == LiveInScope(db, u)
  {
    assert view.Keys == LiveInScope(db, u).Keys;
  }

  /** A client that starts empty and follows the feed through any run, resets included, ends up, at the first last page
      served while no writer is open, with exactly the server's live in-scope entities.  Rows may be pruned
      along the way: all that matters is that none was already gone when the client read from the beginning. */
  lemma Convergence(db: Db, u: User, actions: seq<Action>, limit: nat)
    requires Inv(db) && LegalRun(System(db, NewClient(u)), actions)
    requires var t := Execute(System(db, NewClient(u)), actions);
             t.db.inflight == map[] && Accepts(t.db, t.client.cursor)
             && !HasMore(t.db, t.client, limit) && Pull(t.db, t.client, limit).skipped == {}
    ensures var t := Execute(System(db, NewClient(u)), actions);
            Pull(t.db, t.client, limit).view == LiveInScope(t.db, u)
  {
    var s := System(db, NewClient(u));
    NewClientIsSound(db, u);
    RunKeepsDelivery(s, actions);
    RunKeepsView(s, actions);
    var t := Execute(s, actions);
    FinalViewIsLive(t.db, t.client, limit);
  }

  lemma FinalViewIsLive(db: Db, c: Client, limit: nat)
    requires Inv(db) && DeliveryInv(db, c) && ViewInv(db, c) && db.inflight == map[]
    requires Accepts(db, c.cursor) && !HasMore(db, c, limit) && Pull(db, c, limit).skipped == {}
    ensures Pull(db, c, limit).view == LiveInScope(db, c.user)
  {
    PullKeepsView(db, c, limit);
    PageIsExact(Servable(db, c.user), c.cursor, limit);
    var c' := Pull(db, c, limit);
    forall q | q in Servable(db, c.user) ensures AtMost(q, c'.cursor) {
      LastPageReachesTheEnd(Servable(db, c.user), c.cursor, limit, q);
    }
    NothingPending(db, c.cursor, c');
    SettledViewIsLive(db, c.user, c'.view);
  }

  lemma NothingPending(db: Db, from: Pos, c: Client)
    requires Inv(db) && db.inflight == map[] && Accepts(db, from) && AtMost(from, c.cursor)
    requires from == BEGINNING ==> PrunedInScope(db, c.user) == {}
    requires ViewInv(db, c) && c.skipped == {}
    requires forall q :: q in Servable(db, c.user) ==> AtMost(q, c.cursor)
    ensures forall r :: r in db.entities && InScope(r, c.user) ==> Current(db, c.view, r)
  {
    forall r | r in db.entities && InScope(r, c.user) ensures Current(db, c.view, r) {
      forall p | p in Ever(db) && Ever(db)[p].ref == r ensures !Less(c.cursor, p) {
        NothingBeyond(db, c.user, from, c.cursor, p);
      }
      assert !Pending(db, c, r);
    }
  }

  /** In particular no condition on `skipped` is needed while nothing at all has been pruned. */
  lemma ConvergenceWithoutPruning(steps: seq<Action>, u: User, limit: nat)
    requires LegalRun(System(EMPTY, NewClient(u)), steps)
    requires var t := Execute(System(EMPTY, NewClient(u)), steps);
             t.db.inflight == map[] && t.db.pruned == map[] && !HasMore(t.db, t.client, limit)
    ensures var t := Execute(System(EMPTY, NewClient(u)), steps);
            Pull(t.db, t.client, limit).view == LiveInScope(t.db, u)
  {
    EmptyIsSound();
    NewClientIsSound(EMPTY, u);
    RunKeepsDelivery(System(EMPTY, NewClient(u)), steps);
    var t := Execute(System(EMPTY, NewClient(u)), steps);
    assert Accepts(t.db, t.client.cursor);
    Convergence(EMPTY, u, steps, limit);
  }
}
