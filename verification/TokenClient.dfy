/** A client that holds nothing but a token and its entities, driven by the pull endpoint through whole runs: it moves
as the state machine's client does, and so converges. */
module TokenClient {
  import opened Options
  import opened ChangeFeed
  import opened FeedInvariants
  import opened FeedDelivery
  import opened FeedScope
  import opened PullService
  import Codec = CursorCodec

  datatype Holder = Holder(user: User, token: string, view: map<Ref, Entity>)

  /** A server step, a request with whatever limit, or dropping the token. */
  datatype Event = Step(step: ChangeFeed.Step) | Ask(rawLimit: int) | Forget

  /** What a holder does with an answer: an error changes nothing. */
  ghost predicate Takes(h: Holder, r: PullResult, h': Holder) {
    match r
    case Err(_) => h' == h
    case Ok(resp) => h'.user == h.user && h'.token == resp.nextCursor && Absorbed(h.view, resp, h'.view)
  }

  /** A run of events that takes db and h to db' and h', with what the endpoint answered along the way. */
  ghost predicate Follows(db: Db, h: Holder, events: seq<Event>, answers: seq<PullResult>, db': Db, h': Holder)
    decreases events
  {
    if events == [] then answers == [] && db' == db && h' == h
    else
      match events[0]
      case Step(step) => Enabled(db, step) && Follows(Apply(db, step), h, events[1..], answers, db', h')
      case Ask(rawLimit) =>
        answers != [] && IsAnswer(db, h.user, h.token, rawLimit, answers[0])
        && exists next :: Takes(h, answers[0], next) && Follows(db, next, events[1..], answers[1..], db', h')
      case Forget => Follows(db, h.(token := ""), events[1..], answers, db', h')
  }

  /** The machine's action for an event. */
  function ActionOf(e: Event): Action {
    match e
    case Step(step) => Server(step)
    case Ask(rawLimit) => PullPage(EffectiveLimit(rawLimit))
    case Forget => ResetCursor
  }

  function Actions(events: seq<Event>): seq<Action> {
    if events == [] then [] else [ActionOf(events[0])] + Actions(events[1..])
  }

  predicate InRange(db: Db) { db.nextXid <= Codec.TWO_64 && db.nextSeq <= Codec.TWO_63 }

  ghost predicate Mirrors(h: Holder, c: Client) {
    h.user == c.user && h.view == c.view && Codec.DecodePullCursor(h.token) == Some(c.cursor)
    && 0 <= c.cursor.major < Codec.TWO_64 && 0 <= c.cursor.minor < Codec.TWO_63
  }

  lemma AbsorbedOnce(view: map<Ref, Entity>, resp: PullResponse, a: map<Ref, Entity>, b: map<Ref, Entity>)
    requires Absorbed(view, resp, a) && Absorbed(view, resp, b)
    ensures a == b
  {
    forall r: Ref ensures (r in a <==> r in b) && (r in a ==> a[r] == b[r]) {
      if e :| Has(resp.upserts, Item(r, e)) {
        assert Item(r, e).ref == r;
      } else if e :| Has(resp.tombstones, Item(r, e)) {
        assert Item(r, e).ref == r;
      }
    }
  }

  /** One answered request keeps the holder and the machine's client together. */
  lemma AskKeepsMirror(db: Db, h: Holder, c: Client, rawLimit: int, r: PullResult, h': Holder)
    requires Inv(db) && InRange(db) && Mirrors(h, c) && IsAnswer(db, h.user, h.token, rawLimit, r) && Takes(h, r, h')
    ensures Mirrors(h', Pull(db, c, EffectiveLimit(rawLimit)))
    ensures r.Ok? ==> Accepts(db, c.cursor) && (r.response.hasMore <==> HasMore(db, c, EffectiveLimit(rawLimit)))
  {
    if r.Ok? {
      var limit := EffectiveLimit(rawLimit);
      TokenClientFollowsMachine(db, c, limit, r.response);
      AbsorbedOnce(h.view, r.response, h'.view, Pull(db, c, limit).view);
      NextIsInRange(db, c.user, c.cursor, limit);
    }
  }

  lemma {:induction false} CountersAdvance(db: Db, h: Holder, events: seq<Event>, answers: seq<PullResult>, db': Db,
                                           h': Holder)
    requires Follows(db, h, events, answers, db', h')
    ensures db.nextXid <= db'.nextXid && db.nextSeq <= db'.nextSeq
    decreases events
  {
    if events != [] {
      match events[0]
      case Step(step) => CountersAdvance(Apply(db, step), h, events[1..], answers, db', h');
      case Ask(_) =>
        var next :| Takes(h, answers[0], next) && Follows(db, next, events[1..], answers[1..], db', h');
        CountersAdvance(db, next, events[1..], answers[1..], db', h');
      case Forget => CountersAdvance(db, h.(token := ""), events[1..], answers, db', h');
    }
  }

  lemma FirstAction(s: System, events: seq<Event>)
    requires events != [] && Possible(s, ActionOf(events[0]))
    requires LegalRun(Act(s, ActionOf(events[0])), Actions(events[1..]))
    ensures LegalRun(s, Actions(events))
    ensures Execute(s, Actions(events)) == Execute(Act(s, ActionOf(events[0])), Actions(events[1..]))
  {
    assert Actions(events)[1..] == Actions(events[1..]);
  }

  /** Through every run of server steps, requests and forgotten tokens, the holder has exactly the machine client's
      cursor and entities, as long as the counters stay within their 64 bits. */
  lemma {:induction false} TokenRunFollowsMachine(db: Db, h: Holder, c: Client, events: seq<Event>,
                                                  answers: seq<PullResult>,
                                                  db': Db, h': Holder)
    requires Inv(db) && InRange(db') && Mirrors(h, c) && Follows(db, h, events, answers, db', h')
    ensures LegalRun(System(db, c), Actions(events))
    ensures var t := Execute(System(db, c), Actions(events)); t.db == db' && Mirrors(h', t.client)
    decreases events
  {
    if events != [] {
      CountersAdvance(db, h, events, answers, db', h');
      match events[0] {
        case Step(step) =>
          StepKeeps(db, step);
          TokenRunFollowsMachine(Apply(db, step), h, c, events[1..], answers, db', h');
        case Ask(rawLimit) =>
          var next :| Takes(h, answers[0], next) && Follows(db, next, events[1..], answers[1..], db', h');
          AskKeepsMirror(db, h, c, rawLimit, answers[0], next);
          TokenRunFollowsMachine(db, next, Pull(db, c, EffectiveLimit(rawLimit)), events[1..], answers[1..], db', h');
        case Forget =>
          TokenRunFollowsMachine(db, h.(token := ""), Reset(c), events[1..], answers, db', h');
      }
      FirstAction(System(db, c), events);
    }
  }

  /** A holder that starts with no token and nothing, through any run without pruning, holds exactly the live in-scope
      entities after the first last page it is answered while no writer is open. */
  lemma TokenClientConverges(u: User, events: seq<Event>, answers: seq<PullResult>, db: Db, h: Holder,
                             rawLimit: int, r: PullResult, h': Holder)
    requires Follows(EMPTY, Holder(u, "", map[]), events, answers, db, h) && InRange(db)
    requires db.inflight == map[] && db.pruned == map[]
    requires IsAnswer(db, u, h.token, rawLimit, r) && r.Ok? && !r.response.hasMore && Takes(h, r, h')
    ensures h'.view == LiveInScope(db, u)
    ensures forall e :: e in h'.view <==>
              e in db.entities && !db.entities[e].deleted && (e.owner == None || e.owner == Some(u))
    ensures forall e :: e in h'.view ==> h'.view[e] == db.entities[e]
  {
    var s := System(EMPTY, NewClient(u));
    EmptyIsSound();
    TokenRunFollowsMachine(EMPTY, Holder(u, "", map[]), NewClient(u), events, answers, db, h);
    NewClientIsSound(EMPTY, u);
    RunKeepsDelivery(s, Actions(events));
    var t := Execute(s, Actions(events));
    AskKeepsMirror(db, h, t.client, rawLimit, r, h');
    ConvergenceWithoutPruning(Actions(events), u, EffectiveLimit(rawLimit));
    ConvergedViewHolds(db, u, h'.view);
  }

  /** In every run, pruning and dropped tokens included, a holder has no entity of another user. */
  lemma HolderHasNoForeignEntity(u: User, events: seq<Event>, answers: seq<PullResult>, db: Db, h: Holder, e: Ref)
    requires Follows(EMPTY, Holder(u, "", map[]), events, answers, db, h) && InRange(db) && e in h.view
    ensures e.owner == None || e.owner == Some(u)
  {
    EmptyIsSound();
    TokenRunFollowsMachine(EMPTY, Holder(u, "", map[]), NewClient(u), events, answers, db, h);
    NoForeignEntityInAnyView(u, Actions(events), e);
  }
}
