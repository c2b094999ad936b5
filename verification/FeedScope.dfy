/** Whose entities a client gets to see, in terms of their owners: the client's user and nobody, never another user. */
module FeedScope {
  import opened Options
  import opened Keyset
  import opened ChangeFeed
  import opened FeedInvariants
  import opened FeedDelivery

  /** In every run, resets and pruning included, a client holds no entity of another user. */
  lemma NoForeignEntityInAnyView(u: User, actions: seq<Action>, r: Ref)
    requires LegalRun(System(EMPTY, NewClient(u)), actions)
    requires r in Execute(System(EMPTY, NewClient(u)), actions).client.view
    ensures r.owner == None || r.owner == Some(u)
    ensures r in Execute(System(EMPTY, NewClient(u)), actions).db.entities
  {
    var s := System(EMPTY, NewClient(u));
    EmptyIsSound();
    NewClientIsSound(EMPTY, u);
    RunKeepsDelivery(s, actions);
    RunKeepsView(s, actions);
  }

  /** A view that has converged holds every live entity that is the user's own or nobody's, as it is, and nothing
      else. */
  lemma ConvergedViewHolds(db: Db, u: User, view: map<Ref, Entity>)
    requires view == LiveInScope(db, u)
    ensures forall r :: r in view <==>
              r in db.entities && !db.entities[r].deleted && (r.owner == None || r.owner == Some(u))
    ensures forall r :: r in view ==> view[r] == db.entities[r]
  {
  }

  /** In every run a row is served to a user exactly if it names an entity of that user or of nobody and its transaction
      is below every transaction still open and has been begun. */
  lemma ServedIff(steps: seq<Step>, u: User, p: Pos)
    requires Legal(EMPTY, steps) && p in Run(EMPTY, steps).log
    ensures var db := Run(EMPTY, steps);
            p in Servable(db, u) <==>
              (db.log[p].ref.owner == None || db.log[p].ref.owner == Some(u))
              && forall t :: t in db.inflight ==> p.major < t
  {
    EmptyIsSound();
    RunKeeps(EMPTY, steps);
    assert p in Ever(Run(EMPTY, steps));
  }

  /** A delivered row names an entity of the user or of nobody. */
  lemma NoForeignRowIsDelivered(db: Db, u: User, from: Pos, actions: seq<Action>, p: Pos)
    requires Inv(db) && IsCursor(from) && from != BEGINNING && BelowXmin(db, from.major)
    requires LegalRun(System(db, Joining(u, from)), actions)
    requires p in Execute(System(db, Joining(u, from)), actions).client.delivered
    ensures var t := Execute(System(db, Joining(u, from)), actions);
            p in Ever(t.db) && (Ever(t.db)[p].ref.owner == None || Ever(t.db)[p].ref.owner == Some(u))
  {
    GapFreeExactlyOnce(db, u, from, actions);
  }
}
