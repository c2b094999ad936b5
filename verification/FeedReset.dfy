/** What the cursor-reset signal achieves.  The service tells a refused client to
drop its cursor and read again from the beginning, and calls that always safe.
It is, exactly when every entity still has a changelog row or is already held
as it is, and the first page is not itself overtaken by the horizon. */
module FeedReset {
  import opened Options
  import opened Keyset
  import opened ChangeFeed
  import opened FeedInvariants
  import opened FeedDelivery

  /** Reading on until a last page, over an unchanging database; None if a page is refused. */
  function Resync(db: Db, c: Client, limit: nat): (r: Option<Client>)
    requires limit > 0
    decreases |After(Servable(db, c.user), c.cursor)|
  {
    if !Accepts(db, c.cursor) then None
    else if !HasMore(db, c, limit) then Some(Pull(db, c, limit))
    else
      PageAdvances(Servable(db, c.user), c.cursor, limit);
      Resync(db, Pull(db, c, limit), limit)
  }

  /** A client that drops its cursor, keeping what it holds, and reads to the end has the server's state. */
  ghost predicate Recovers(db: Db, c: Client, limit: nat)
    requires limit > 0
  {
    var r := Resync(db, Reset(c), limit);
    r.Some? && r.value.view == LiveInScope(db, c.user)
  }

  /** Some changelog row naming r survives and is settled. */
  ghost predicate Announced(db: Db, u: User, r: Ref) { exists p :: p in Servable(db, u) && db.log[p].ref == r }

  /** Every in-scope entity either has a surviving row or is held by the client as it is. */
  ghost predicate AnnouncedOrCurrent(db: Db, c: Client) {
    forall r :: r in db.entities && InScope(r, c.user) ==> Announced(db, c.user, r) || Current(db, c.view, r)
  }

  /** The first page is the last, or ends at or past the horizon. */
  predicate FirstPageClearsHorizon(db: Db, u: User, limit: nat) {
    |Servable(db, u)| <= limit || !Less(Next(BEGINNING, Page(Servable(db, u), BEGINNING, limit)), db.horizon)
  }

  lemma RefreshTwice(view: map<Ref, Entity>, db: Db, a: set<Ref>, b: set<Ref>)
    ensures Refresh(Refresh(view, db, a), db, b) == Refresh(view, db, a + b)
  {
  }

  lemma RefsOfConcat(db: Db, s: seq<Pos>, t: seq<Pos>)
    ensures Refs(db, s + t) == Refs(db, s) + Refs(db, t)
  {
  }

  function Rest(db: Db, c: Client): seq<Pos> { Sorted(After(Servable(db, c.user), c.cursor)) }

  /** A completed resync has refreshed every entity named by a servable row. */
  lemma {:induction false} ResyncReadsEverything(db: Db, c: Client, limit: nat)
    requires limit > 0 && Resync(db, c, limit).Some?
    ensures Resync(db, c, limit).value.view == Refresh(c.view, db, Refs(db, Rest(db, c)))
    decreases |After(Servable(db, c.user), c.cursor)|
  {
    var c' := Pull(db, c, limit);
    var page := NextPage(db, c, limit);
    PageSplits(Servable(db, c.user), c.cursor, limit);
    if HasMore(db, c, limit) {
      PageAdvances(Servable(db, c.user), c.cursor, limit);
      ResyncReadsEverything(db, c', limit);
      RefsOfConcat(db, page, Rest(db, c'));
      RefreshTwice(c.view, db, Refs(db, page), Refs(db, Rest(db, c')));
    } else {
      assert page == Rest(db, c);
    }
  }

  /** From an accepted nonzero cursor no later page is refused. */
  lemma {:induction false} ResyncGoesThrough(db: Db, c: Client, limit: nat)
    requires limit > 0 && Accepts(db, c.cursor) && c.cursor != BEGINNING
    requires forall p :: p in Servable(db, c.user) ==> Less(BEGINNING, p)
    ensures Resync(db, c, limit).Some?
    decreases |After(Servable(db, c.user), c.cursor)|
  {
    if HasMore(db, c, limit) {
      PageAdvances(Servable(db, c.user), c.cursor, limit);
      PageIsExact(Servable(db, c.user), c.cursor, limit);
      ResyncGoesThrough(db, Pull(db, c, limit), limit);
    }
  }

  lemma ServablePositions(db: Db, u: User)
    requires Inv(db)
    ensures forall p :: p in Servable(db, u) ==> Less(BEGINNING, p)
    ensures After(Servable(db, u), BEGINNING) == Servable(db, u)
  {
    forall p | p in Servable(db, u) ensures Less(BEGINNING, p) { assert p in Ever(db); }
  }

  /** Reading again from the beginning is not itself refused if and only if the first page clears the horizon. */
  lemma ResyncCompletesIff(db: Db, c: Client, limit: nat)
    requires Inv(db) && limit > 0
    ensures Resync(db, Reset(c), limit).Some? <==> FirstPageClearsHorizon(db, c.user, limit)
  {
    var S := Servable(db, c.user);
    var c' := Pull(db, Reset(c), limit);
    ServablePositions(db, c.user);
    if |S| > limit {
      PageAdvances(S, BEGINNING, limit);
      PageIsExact(S, BEGINNING, limit);
      assert c'.cursor in S;
      if Accepts(db, c'.cursor) { ResyncGoesThrough(db, c', limit); }
    }
  }

  lemma AnnouncedAreListed(db: Db, u: User, r: Ref)
    ensures r in Refs(db, Sorted(Servable(db, u))) <==> Announced(db, u, r)
  {
    var all := Sorted(Servable(db, u));
    assert forall p :: p in all <==> p in Elements(all);
  }

  /** A client that resets, whatever it held, recovers the server's state if and only if every entity in its scope has
      a surviving row or was already held as it is, and the first page clears the horizon. */
  lemma ResetRecoversIff(db: Db, c: Client, limit: nat)
    requires Inv(db) && limit > 0
    requires forall r :: r in c.view ==> r in db.entities && InScope(r, c.user)
    ensures Recovers(db, c, limit) <==> AnnouncedOrCurrent(db, c) && FirstPageClearsHorizon(db, c.user, limit)
  {
    ResyncCompletesIff(db, c, limit);
    ServablePositions(db, c.user);
    if FirstPageClearsHorizon(db, c.user, limit) {
      ResyncReadsEverything(db, Reset(c), limit);
      RefreshedIsLiveIff(db, c);
    }
  }

  /** In particular for every client of every run, refused or not. */
  lemma ResetRecoversIffInEveryRun(u: User, actions: seq<Action>, limit: nat)
    requires LegalRun(System(EMPTY, NewClient(u)), actions) && limit > 0
    ensures var t := Execute(System(EMPTY, NewClient(u)), actions);
            Recovers(t.db, t.client, limit)
            <==> AnnouncedOrCurrent(t.db, t.client) && FirstPageClearsHorizon(t.db, t.client.user, limit)
  {
    var s := System(EMPTY, NewClient(u));
    EmptyIsSound();
    NewClientIsSound(EMPTY, u);
    RunKeepsDelivery(s, actions);
    RunKeepsView(s, actions);
    ResetRecoversIff(Execute(s, actions).db, Execute(s, actions).client, limit);
  }

  lemma RefreshedIsLiveIff(db: Db, c: Client)
    requires forall r :: r in c.view ==> r in db.entities && InScope(r, c.user)
    ensures Refresh(c.view, db, Refs(db, Sorted(Servable(db, c.user)))) == LiveInScope(db, c.user)
            <==> AnnouncedOrCurrent(db, c)
  {
    var named := Refs(db, Sorted(Servable(db, c.user)));
    forall r ensures r in named <==> Announced(db, c.user, r) { AnnouncedAreListed(db, c.user, r); }
    RefreshIsLiveIff(db, c.user, c.view, named);
  }

  lemma RefreshIsLiveIff(db: Db, u: User, view: map<Ref, Entity>, named: set<Ref>)
    requires forall r :: r in view ==> r in db.entities && InScope(r, u)
    requires forall r :: r in named ==> InScope(r, u)
    ensures Refresh(view, db, named) == LiveInScope(db, u)
            <==> forall r :: r in db.entities && InScope(r, u) ==> r in named || Current(db, view, r)
  {
    var got, live := Refresh(view, db, named), LiveInScope(db, u);
    forall r | r in db.entities && InScope(r, u)
      ensures r in named || Current(db, view, r)
              <==> (r in got <==> r in live) && (r in got && r in live ==> got[r] == live[r])
    {
    }
    assert forall r :: r in got ==> r in db.entities && InScope(r, u);
    SameMapIff(got, live);
  }

  lemma SameMapIff(a: map<Ref, Entity>, b: map<Ref, Entity>)
    ensures a == b <==> forall r :: (r in a <==> r in b) && (r in a && r in b ==> a[r] == b[r])
  {
  }
}
