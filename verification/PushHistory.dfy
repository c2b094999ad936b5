/** What a history of pushes leaves behind: monotone tombstones, the last writer,
replay and retry, order, and other users' rows. */
module PushHistory {
  import opened Options
  import opened Push

  // ---- Results

  /** An item is reported applied exactly when it changed the stored rows. */
  lemma AppliedIffChanged(t: Tables, w: Write)
    ensures Do(t, w).1 == Applied <==> Do(t, w).0 != t
  {
    var t' := Do(t, w).0;
    match w
    case Reject(_) =>
    case Ingest(k, row) => assert Do(t, w).1 == Applied ==>
        k in t'.events && (k in t.events ==> t'.events[k] != t.events[k]);
    case Upsert(id, row) => assert Do(t, w).1 == Applied ==>
        id in t'.sessions && (id in t.sessions ==> t'.sessions[id] != t.sessions[id]);
  }

  // ---- Events: append-only with a monotone tombstone

  predicate Ingests(w: Write, k: EventKey) { w.Ingest? && w.key == k }

  function AnyDeleted(ws: seq<Write>, k: EventKey): (r: bool)
    ensures r <==> exists i :: 0 <= i < |ws| && Ingests(ws[i], k) && ws[i].event.deleted
    decreases ws
  {
    if ws == [] then false
    else
      var rest := AnyDeleted(ws[1..], k);
      assert rest ==> exists i :: 1 <= i < |ws| && Ingests(ws[i], k) && ws[i].event.deleted by {
        if rest {
          var j :| 0 <= j < |ws[1..]| && Ingests(ws[1..][j], k) && ws[1..][j].event.deleted;
          assert ws[j + 1] == ws[1..][j];
        }
      }
      assert forall i :: 1 <= i < |ws| ==> ws[i] == ws[1..][i - 1];
      (Ingests(ws[0], k) && ws[0].event.deleted) || rest
  }

  /** Whatever is pushed, a stored event keeps every column but the tombstone, and that only goes from false to true:
      its final value is the OR of the stored flag and every accepted push of the key. */
  lemma {:induction false} EventOnlyGainsTombstone(t: Tables, ws: seq<Write>, k: EventKey)
    requires k in t.events
    ensures k in Replay(t, ws).events
    ensures Replay(t, ws).events[k] == t.events[k].(deleted := t.events[k].deleted || AnyDeleted(ws, k))
    decreases ws
  {
    if ws != [] {
      EventOnlyGainsTombstone(Do(t, ws[0]).0, ws[1..], k);
    }
  }

  predicate FirstIngest(ws: seq<Write>, k: EventKey, i: int) {
    0 <= i < |ws| && Ingests(ws[i], k) && forall j :: 0 <= j < i ==> !Ingests(ws[j], k)
  }

  lemma {:induction false} NoIngestNoRow(t: Tables, ws: seq<Write>, k: EventKey)
    requires k !in t.events && forall j :: 0 <= j < |ws| ==> !Ingests(ws[j], k)
    ensures k !in Replay(t, ws).events
    decreases ws
  {
    if ws != [] {
      NoIngestNoRow(Do(t, ws[0]).0, ws[1..], k);
    }
  }

  /** An event exists once some push of its key was accepted; it is the first such push, deleted if any was a
      tombstone. */
  lemma EventIsFirstPushWithOrOfTombstones(ws: seq<Write>, k: EventKey)
    ensures k in Replay(EMPTY, ws).events <==> exists i :: FirstIngest(ws, k, i)
    ensures forall i :: FirstIngest(ws, k, i) ==>
              Replay(EMPTY, ws).events[k] == ws[i].event.(deleted := AnyDeleted(ws, k))
  {
    if j :| 0 <= j < |ws| && Ingests(ws[j], k) {
      FirstExists(ws, k, j);
      var i :| FirstIngest(ws, k, i);
      var before := Replay(EMPTY, ws[..i]);
      NoIngestNoRow(EMPTY, ws[..i], k);
      assert ws == ws[..i] + ws[i..];
      ReplayJoin(EMPTY, ws[..i], ws[i..]);
      EventOnlyGainsTombstone(Do(before, ws[i]).0, ws[i..][1..], k);
      var first := ws[i].event;
      assert Replay(EMPTY, ws).events[k] == first.(deleted := first.deleted || AnyDeleted(ws[i + 1..], k)) by {
        assert ws[i..][1..] == ws[i + 1..];
      }
      DeletedFrom(ws, k, i);
      assert forall l :: FirstIngest(ws, k, l) ==> l == i;
    } else {
      NoIngestNoRow(EMPTY, ws, k);
    }
  }

  lemma {:induction false} FirstExists(ws: seq<Write>, k: EventKey, j: nat)
    requires j < |ws| && Ingests(ws[j], k)
    ensures exists i :: FirstIngest(ws, k, i)
    decreases j
  {
    if earlier :| 0 <= earlier < j && Ingests(ws[earlier], k) {
      FirstExists(ws, k, earlier);
    } else {
      assert FirstIngest(ws, k, j);
    }
  }

  lemma DeletedFrom(ws: seq<Write>, k: EventKey, i: int)
    requires FirstIngest(ws, k, i)
    ensures AnyDeleted(ws, k) <==> ws[i].event.deleted || AnyDeleted(ws[i + 1..], k)
  {
    assert forall j :: i < j < |ws| ==> ws[j] == ws[i + 1..][j - i - 1];
    if AnyDeleted(ws[i + 1..], k) {
      var j :| 0 <= j < |ws[i + 1..]| && Ingests(ws[i + 1..][j], k) && ws[i + 1..][j].event.deleted;
      assert ws[i + 1 + j] == ws[i + 1..][j];
    }
  }

  // ---- Sessions: last write wins

  predicate Claims(w: Write, id: nat) { w.Upsert? && w.id == id }

  /** Whoever pushes an id first owns it. */
  function Owner(ws: seq<Write>, id: nat): Option<nat>
    decreases ws
  {
    if ws == [] then None else if Claims(ws[0], id) then Some(ws[0].session.user) else Owner(ws[1..], id)
  }

  predicate ByOwner(w: Write, id: nat, user: nat) { Claims(w, id) && w.session.user == user }

  /** The owner's first push attaining the greatest updated_at. */
  predicate Wins(ws: seq<Write>, id: nat, user: nat, i: int) {
    0 <= i < |ws| && ByOwner(ws[i], id, user)
    && (forall j :: 0 <= j < i && ByOwner(ws[j], id, user) ==> ws[j].session.updatedAt < ws[i].session.updatedAt)
    && (forall j :: i < j < |ws| && ByOwner(ws[j], id, user) ==> ws[j].session.updatedAt <= ws[i].session.updatedAt)
  }

  lemma {:induction false} OwnerOfMore(ws: seq<Write>, w: Write, id: nat)
    ensures Owner(ws + [w], id)
            == if Owner(ws, id).Some? then Owner(ws, id) else if Claims(w, id) then Some(w.session.user) else None
    decreases ws
  {
    if ws == [] {
      assert Owner([], id) == None;
      assert [w][1..] == [];
    } else {
      assert (ws + [w])[1..] == ws[1..] + [w];
      OwnerOfMore(ws[1..], w, id);
    }
  }

  lemma {:induction false} NoOwnerNoClaim(ws: seq<Write>, id: nat)
    ensures Owner(ws, id).None? <==> forall j :: 0 <= j < |ws| ==> !Claims(ws[j], id)
    decreases ws
  {
    if ws != [] {
      NoOwnerNoClaim(ws[1..], id);
      assert forall j :: 1 <= j < |ws| ==> ws[j] == ws[1..][j - 1];
      assert forall j :: 0 <= j < |ws[1..]| ==> ws[1..][j] == ws[j + 1];
    }
  }

  ghost predicate StoresWinner(ws: seq<Write>, id: nat, stored: map<nat, SessionRow>) {
    match Owner(ws, id)
    case None => id !in stored
    case Some(user) => id in stored && exists i :: Wins(ws, id, user, i) && stored[id] == ws[i].session
  }

  lemma OneMoreWrite(ws: seq<Write>, w: Write, id: nat, t: Tables)
    requires StoresWinner(ws, id, t.sessions)
    ensures StoresWinner(ws + [w], id, Do(t, w).0.sessions)
  {
    OwnerOfMore(ws, w, id);
    NoOwnerNoClaim(ws, id);
    var all := ws + [w];
    if Owner(ws, id).Some? {
      var user := Owner(ws, id).value;
      var i :| Wins(ws, id, user, i) && t.sessions[id] == ws[i].session;
      assert forall j :: 0 <= j < |ws| && ByOwner(ws[j], id, user) ==>
          ws[j].session.updatedAt <= ws[i].session.updatedAt;
      assert forall j :: 0 <= j < |ws| ==> all[j] == ws[j];
      assert all[|ws|] == w;
      if ByOwner(w, id, user) && ws[i].session.updatedAt < w.session.updatedAt {
        assert Wins(all, id, user, |ws|);
      } else {
        assert Wins(all, id, user, i);
      }
    } else if Claims(w, id) {
      assert forall j :: 0 <= j < |ws| ==> all[j] == ws[j];
      assert Wins(all, id, w.session.user, |ws|);
    }
  }

  lemma {:induction false} WinnerIsStored(ws: seq<Write>, id: nat)
    ensures StoresWinner(ws, id, Replay(EMPTY, ws).sessions)
    decreases |ws|
  {
    if ws != [] {
      var n := |ws| - 1;
      assert ws == ws[..n] + [ws[n]] && ws[..n + 1] == ws;
      WinnerIsStored(ws[..n], id);
      ReplayOneMore(EMPTY, ws, n);
      OneMoreWrite(ws[..n], ws[n], id, Replay(EMPTY, ws[..n]));
    }
  }

  /** After any sequence of pushes the stored session is its first owner's first push attaining the greatest
      clamped updated_at, and there is one as soon as anyone has pushed the id. */
  lemma LastWriteWins(ws: seq<Write>, id: nat)
    ensures var stored := Replay(EMPTY, ws).sessions;
            (id in stored <==> exists j :: 0 <= j < |ws| && Claims(ws[j], id))
            && (id in stored ==> Owner(ws, id) == Some(stored[id].user)
                                 && exists i :: Wins(ws, id, stored[id].user, i) && stored[id] == ws[i].session)
            && (forall i, user :: Owner(ws, id) == Some(user) && Wins(ws, id, user, i) ==>
                  id in stored && stored[id] == ws[i].session)
  {
    WinnerIsStored(ws, id);
    NoOwnerNoClaim(ws, id);
    if Owner(ws, id).Some? {
      var user := Owner(ws, id).value;
      forall i, j | Wins(ws, id, user, i) && Wins(ws, id, user, j) ensures i == j {
      }
    }
  }

  // ---- Order

  /** Two pushes whose order cannot show: the same id means the same user and either distinct timestamps or the same
      row; the same event key means the same columns apart from the tombstone. */
  predicate OrderFree(a: Write, b: Write) {
    if a.Upsert? && b.Upsert? && a.id == b.id then
      a.session.user == b.session.user && (a.session.updatedAt != b.session.updatedAt || a.session == b.session)
    else if a.Ingest? && b.Ingest? && a.key == b.key then
      a.event.(deleted := true) == b.event.(deleted := true)
    else true
  }

  /** Two pushes commute from every stored state if and only if they are order-free. */
  lemma TwoPushesCommuteIff(a: Write, b: Write)
    ensures (forall t :: Replay(t, [a, b]) == Replay(t, [b, a])) <==> OrderFree(a, b)
  {
    forall t ensures Replay(t, [a, b]) == Do(Do(t, a).0, b).0 && Replay(t, [b, a]) == Do(Do(t, b).0, a).0 {
      TwoWrites(t, a, b);
      TwoWrites(t, b, a);
    }
    if OrderFree(a, b) {
      forall t ensures Do(Do(t, a).0, b).0 == Do(Do(t, b).0, a).0 {
        OrderFreeCommutes(t, a, b);
      }
    } else {
      OrderShows(a, b);
      assert Replay(EMPTY, [a, b]) != Replay(EMPTY, [b, a]);
    }
  }

  lemma TwoWrites(t: Tables, a: Write, b: Write)
    ensures Replay(t, [a, b]) == Do(Do(t, a).0, b).0
  {
    assert [a, b][1..] == [b] && [b][1..] == [];
    assert Replay(Do(t, a).0, [b]) == Do(Do(t, a).0, b).0;
  }

  lemma OrderShows(a: Write, b: Write)
    requires !OrderFree(a, b)
    ensures Do(Do(EMPTY, a).0, b).0 != Do(Do(EMPTY, b).0, a).0
  {
    var ab, ba := Do(Do(EMPTY, a).0, b).0, Do(Do(EMPTY, b).0, a).0;
    if a.Upsert? {
      assert ab.sessions[a.id] != ba.sessions[a.id];
    } else {
      assert ab.events[a.key].(deleted := true) != ba.events[a.key].(deleted := true);
    }
  }

  lemma OrderFreeCommutes(t: Tables, a: Write, b: Write)
    requires OrderFree(a, b)
    ensures Do(Do(t, a).0, b).0 == Do(Do(t, b).0, a).0
  {
    if a.Ingest? && b.Ingest? {
      EventsCommute(t, a, b);
    } else if a.Upsert? && b.Upsert? {
      SessionsCommute(t, a, b);
    }
  }

  lemma EventsCommute(t: Tables, a: Write, b: Write)
    requires a.Ingest? && b.Ingest? && OrderFree(a, b)
    ensures Do(Do(t, a).0, b).0 == Do(Do(t, b).0, a).0
  {
    if a.key == b.key {
      SameKeyCommutes(t, a, b);
      var row := Do(Do(t, a).0, b).0.events[a.key];
      IngestsTouchOneKey(t, a, b);
      IngestsTouchOneKey(t, b, a);
      assert t.events[a.key := row] == t.events[b.key := row];
    } else {
      OtherKeysCommute(t, a, b);
    }
  }

  lemma IngestsTouchOneKey(t: Tables, a: Write, b: Write)
    requires a.Ingest? && b.Ingest? && a.key == b.key
    ensures var ab := Do(Do(t, a).0, b).0;
            a.key in ab.events && ab == t.(events := t.events[a.key := ab.events[a.key]])
  {
  }

  lemma OtherKeysCommute(t: Tables, a: Write, b: Write)
    requires a.Ingest? && b.Ingest? && a.key != b.key
    ensures Do(Do(t, a).0, b).0 == Do(Do(t, b).0, a).0
  {
    IngestIs(t, a);
    IngestIs(t, b);
    IngestIs(Do(t, a).0, b);
    IngestIs(Do(t, b).0, a);
    SwapKeys(t.events, a.key, Ingested(t.events, a), b.key, Ingested(t.events, b));
  }

  /** The row an ingest leaves under its key. */
  function Ingested(events: map<EventKey, EventRow>, w: Write): EventRow
    requires w.Ingest?
  {
    if w.key !in events then w.event
    else events[w.key].(deleted := events[w.key].deleted || w.event.deleted)
  }

  lemma IngestIs(t: Tables, w: Write)
    requires w.Ingest?
    ensures Do(t, w).0 == t.(events := t.events[w.key := Ingested(t.events, w)])
  {
    if w.key in t.events && Do(t, w).1 == Duplicate {
      assert t.events[w.key := t.events[w.key]] == t.events;
    }
  }

  lemma SwapKeys<K, V>(m: map<K, V>, j: K, v: V, k: K, w: V)
    requires j != k
    ensures m[j := v][k := w] == m[k := w][j := v]
  {
  }

  lemma SameKeyCommutes(t: Tables, a: Write, b: Write)
    requires a.Ingest? && b.Ingest? && OrderFree(a, b) && a.key == b.key
    ensures Do(Do(t, a).0, b).0.events[a.key] == Do(Do(t, b).0, a).0.events[a.key]
  {
    var ab, ba := Do(Do(t, a).0, b).0.events[a.key], Do(Do(t, b).0, a).0.events[a.key];
    assert ab.deleted == ba.deleted;
    assert ab.(deleted := true) == ba.(deleted := true);
  }

  lemma SessionsCommute(t: Tables, a: Write, b: Write)
    requires a.Upsert? && b.Upsert? && OrderFree(a, b)
    ensures Do(Do(t, a).0, b).0 == Do(Do(t, b).0, a).0
  {
    var ab, ba := Do(Do(t, a).0, b).0, Do(Do(t, b).0, a).0;
    forall id ensures id in ab.sessions <==> id in ba.sessions {}
    forall id | id in ab.sessions ensures ab.sessions[id] == ba.sessions[id] {}
  }

  ghost predicate AllOrderFree(ws: seq<Write>) {
    forall i, j :: 0 <= i < j < |ws| ==> OrderFree(ws[i], ws[j])
  }

  /** Moving an order-free push to the front of a sequence changes nothing. */
  lemma {:induction false} MoveToFront(t: Tables, ws: seq<Write>, n: nat)
    requires n < |ws| && forall i :: 0 <= i < n ==> OrderFree(ws[i], ws[n])
    ensures Replay(t, ws) == Replay(t, [ws[n]] + ws[..n] + ws[n + 1..])
    decreases n
  {
    if n == 0 {
      assert ws == [ws[0]] + ws[..0] + ws[1..];
    } else {
      var t1 := Do(t, ws[0]).0;
      var rest := ws[1..];
      MoveToFront(t1, rest, n - 1);
      var moved := [rest[n - 1]] + rest[..n - 1] + rest[n..];
      var tail := ws[1..n] + ws[n + 1..];
      assert rest[..n - 1] == ws[1..n] && rest[n..] == ws[n + 1..];
      assert moved == [ws[n]] + tail && moved[1..] == tail;
      assert Replay(t, ws) == Replay(Do(t1, ws[n]).0, tail);
      OrderFreeCommutes(t, ws[0], ws[n]);
      var front := [ws[n]] + ws[..n] + ws[n + 1..];
      assert front[1..] == [ws[0]] + tail;
      assert ([ws[0]] + tail)[1..] == tail;
    }
  }

  lemma Without<T>(s: seq<T>, n: nat)
    requires n < |s|
    ensures multiset(s[..n] + s[n + 1..]) == multiset(s) - multiset{s[n]}
  {
    var before, after := s[..n], s[n + 1..];
    assert s == before + [s[n]] + after;
    assert multiset(before + after) == multiset(before) + multiset(after);
    assert multiset(s) == multiset(before) + multiset([s[n]]) + multiset(after);
  }

  /** Taking the element at n out of ws, and the head out of its permutation. */
  lemma RemoveOne<T>(ws: seq<T>, ws': seq<T>, n: nat)
    requires n < |ws| && ws' != [] && ws[n] == ws'[0] && multiset(ws) == multiset(ws')
    ensures multiset(ws[..n] + ws[n + 1..]) == multiset(ws'[1..])
  {
    Without(ws, n);
    WithoutHead(ws');
  }

  lemma WithoutHead<T>(s: seq<T>)
    requires s != []
    ensures multiset(s[1..]) == multiset(s) - multiset{s[0]}
  {
    assert s == [s[0]] + s[1..];
    assert multiset(s) == multiset([s[0]]) + multiset(s[1..]);
  }

  lemma RestOrderFree(ws: seq<Write>, n: nat)
    requires n < |ws| && AllOrderFree(ws)
    ensures AllOrderFree(ws[..n] + ws[n + 1..])
  {
    var rest := ws[..n] + ws[n + 1..];
    assert forall i :: 0 <= i < |rest| ==> rest[i] == ws[if i < n then i else i + 1];
  }

  /** Pairwise order-free pushes end in the same rows under every permutation. */
  lemma {:induction false} OrderDoesNotMatter(t: Tables, ws: seq<Write>, ws': seq<Write>)
    requires AllOrderFree(ws) && multiset(ws) == multiset(ws')
    ensures Replay(t, ws) == Replay(t, ws')
    decreases ws'
  {
    if ws' == [] {
      assert |ws| == |multiset(ws)| == 0;
    } else {
      assert ws'[0] in multiset(ws');
      var n :| 0 <= n < |ws| && ws[n] == ws'[0];
      var rest := ws[..n] + ws[n + 1..];
      RemoveOne(ws, ws', n);
      RestOrderFree(ws, n);
      OrderDoesNotMatter(Do(t, ws[n]).0, rest, ws'[1..]);
      MoveToFront(t, ws, n);
      assert [ws[n]] + ws[..n] + ws[n + 1..] == [ws[n]] + rest;
      assert ([ws[n]] + rest)[1..] == rest;
    }
  }

  function Map<A, B>(f: A -> B, s: seq<A>): (r: seq<B>)
    ensures |r| == |s|
  {
    seq(|s|, i requires 0 <= i < |s| => f(s[i]))
  }

  lemma {:induction false} MapPermutes<A, B>(f: A -> B, a: seq<A>, b: seq<A>)
    requires multiset(a) == multiset(b)
    ensures multiset(Map(f, a)) == multiset(Map(f, b))
    decreases b
  {
    if b == [] {
      assert |a| == |multiset(a)| == 0;
    } else {
      assert b[0] in multiset(b);
      var n :| 0 <= n < |a| && a[n] == b[0];
      RemoveOne(a, b, n);
      MapPermutes(f, a[..n] + a[n + 1..], b[1..]);
      MapWithout(f, a, n);
      MapWithout(f, b, 0);
      assert b[..0] + b[0 + 1..] == b[1..];
      OneBack(multiset(Map(f, a)), multiset(Map(f, b)), f(a[n]));
    }
  }

  lemma MapWithout<A, B>(f: A -> B, s: seq<A>, n: nat)
    requires n < |s|
    ensures f(s[n]) in multiset(Map(f, s))
    ensures multiset(Map(f, s[..n] + s[n + 1..])) == multiset(Map(f, s)) - multiset{f(s[n])}
  {
    var r := Map(f, s);
    assert Map(f, s[..n] + s[n + 1..]) == r[..n] + r[n + 1..];
    assert r[n] == f(s[n]) && r[n] in r;
    Without(r, n);
  }

  lemma OneBack<T>(a: multiset<T>, b: multiset<T>, x: T)
    requires x in a && x in b && a - multiset{x} == b - multiset{x}
    ensures a == b
  {
    assert a == (a - multiset{x}) + multiset{x};
    assert b == (b - multiset{x}) + multiset{x};
  }

  /** A session as one of the user's devices sends it, and when it arrives. */
  datatype Sent = Sent(device: nat, platform: string, session: SessionData)

  datatype Arrival = Arrival(sent: Sent, now: int)

  function CallerAt(user: nat, a: Arrival): Caller { Caller(user, a.sent.device, a.sent.platform, a.now) }

  /** The tables after each arrival has been pushed by itself. */
  function Arrived(t: Tables, cat: Catalog, user: nat, schedule: seq<Arrival>): Tables
    decreases schedule
  {
    if schedule == [] then t
    else
      var a := schedule[0];
      var next := Pushed(t, cat, Some(CallerAt(user, a)), [FocusSession(Some(a.sent.session))], None).0;
      Arrived(next, cat, user, schedule[1..])
  }

  predicate ArrivesInSkew(a: Arrival) {
    a.sent.session.updatedAt.Some? && InSkew(a.sent.session.updatedAt.value, a.now)
  }

  function Senders(schedule: seq<Arrival>): seq<Sent> { Map((a: Arrival) => a.sent, schedule) }

  /** What a session writes when it arrives within the skew, at whatever time. */
  function SkewFree(cat: Catalog, user: nat, s: Sent): Write {
    var now := if s.session.updatedAt.Some? then s.session.updatedAt.value else 0;
    PlanSession(cat, Caller(user, s.device, s.platform, now), Some(s.session))
  }

  function SkewFreeWrites(cat: Catalog, user: nat, sent: seq<Sent>): seq<Write> {
    Map((s: Sent) => SkewFree(cat, user, s), sent)
  }

  lemma OnePush(t: Tables, cat: Catalog, user: nat, a: Arrival)
    requires ArrivesInSkew(a)
    ensures Pushed(t, cat, Some(CallerAt(user, a)), [FocusSession(Some(a.sent.session))], None).0
            == Do(t, SkewFree(cat, user, a.sent)).0
  {
    var ws := Plans(cat, CallerAt(user, a), [FocusSession(Some(a.sent.session))]);
    assert ws == [SkewFree(cat, user, a.sent)];
    assert ws[1..] == [];
    assert Replay(t, ws) == Replay(Do(t, ws[0]).0, ws[1..]) == Do(t, ws[0]).0;
  }

  lemma {:induction false} ArrivalsAreWrites(t: Tables, cat: Catalog, user: nat, schedule: seq<Arrival>)
    requires forall i :: 0 <= i < |schedule| ==> ArrivesInSkew(schedule[i])
    ensures Arrived(t, cat, user, schedule) == Replay(t, SkewFreeWrites(cat, user, Senders(schedule)))
    decreases schedule
  {
    if schedule != [] {
      OnePush(t, cat, user, schedule[0]);
      ArrivalsAreWrites(Do(t, SkewFree(cat, user, schedule[0].sent)).0, cat, user, schedule[1..]);
      assert Senders(schedule)[1..] == Senders(schedule[1..]);
      assert SkewFreeWrites(cat, user, Senders(schedule))[1..] == SkewFreeWrites(cat, user, Senders(schedule[1..]));
    }
  }

  /** Two sessions with one id carry different timestamps. */
  predicate DistinctTimes(sent: seq<Sent>) {
    forall i, j :: 0 <= i < j < |sent| ==>
      sent[i].session.id != sent[j].session.id || sent[i].session.updatedAt != sent[j].session.updatedAt
  }

  /** A user's session pushes from any devices, with distinct timestamps for one id, end in the same rows whatever the
      order and the times they arrive at, as long as each arrives within the skew. */
  lemma SessionPushesCommute(t: Tables, cat: Catalog, user: nat, a: seq<Arrival>, b: seq<Arrival>)
    requires multiset(Senders(a)) == multiset(Senders(b)) && DistinctTimes(Senders(a))
    requires forall i :: 0 <= i < |a| ==> ArrivesInSkew(a[i])
    requires forall i :: 0 <= i < |b| ==> ArrivesInSkew(b[i])
    ensures Arrived(t, cat, user, a) == Arrived(t, cat, user, b)
  {
    ArrivalsAreWrites(t, cat, user, a);
    ArrivalsAreWrites(t, cat, user, b);
    var write := (s: Sent) => SkewFree(cat, user, s);
    MapPermutes(write, Senders(a), Senders(b));
    DistinctTimesOrderFree(cat, user, Senders(a));
    assert SkewFreeWrites(cat, user, Senders(a)) == Map(write, Senders(a));
    assert SkewFreeWrites(cat, user, Senders(b)) == Map(write, Senders(b));
    OrderDoesNotMatter(t, Map(write, Senders(a)), Map(write, Senders(b)));
  }

  lemma DistinctTimesOrderFree(cat: Catalog, user: nat, sent: seq<Sent>)
    requires DistinctTimes(sent)
    ensures AllOrderFree(SkewFreeWrites(cat, user, sent))
  {
    var ws := SkewFreeWrites(cat, user, sent);
    forall i, j | 0 <= i < j < |ws| ensures OrderFree(ws[i], ws[j]) {
      assert ws[i] == SkewFree(cat, user, sent[i]) && ws[j] == SkewFree(cat, user, sent[j]);
      SkewFreeIs(cat, user, sent[i]);
      SkewFreeIs(cat, user, sent[j]);
    }
  }

  lemma SkewFreeIs(cat: Catalog, user: nat, s: Sent)
    ensures var w := SkewFree(cat, user, s);
            w.Reject?
            || (w.Upsert? && s.session.id == Some(w.id) && w.session.user == user
                && s.session.updatedAt == Some(w.session.updatedAt))
  {
  }

  // ---- Replay

  /** The write would change nothing. */
  predicate Absorbed(t: Tables, w: Write) { Do(t, w).0 == t }

  lemma AbsorbedOnceDone(t: Tables, w: Write)
    ensures Absorbed(Do(t, w).0, w)
  {
  }

  lemma AbsorbedStays(t: Tables, w: Write, v: Write)
    requires Absorbed(t, w)
    ensures Absorbed(Do(t, v).0, w)
  {
    AppliedIffChanged(t, w);
    AppliedIffChanged(Do(t, v).0, w);
  }

  lemma {:induction false} AbsorbedForever(t: Tables, w: Write, ws: seq<Write>)
    requires Absorbed(t, w)
    ensures Absorbed(Replay(t, ws), w)
    decreases ws
  {
    if ws != [] {
      AbsorbedStays(t, w, ws[0]);
      AbsorbedForever(Do(t, ws[0]).0, w, ws[1..]);
    }
  }

  lemma {:induction false} AllAbsorbed(t: Tables, ws: seq<Write>)
    requires forall i :: 0 <= i < |ws| ==> Absorbed(t, ws[i])
    ensures Replay(t, ws) == t && forall i :: 0 <= i < |ws| ==> Outcomes(t, ws)[i] != Applied
    decreases ws
  {
    if ws != [] {
      AppliedIffChanged(t, ws[0]);
      AllAbsorbed(t, ws[1..]);
    }
  }

  lemma StillAbsorbed(t: Tables, ws: seq<Write>, between: seq<Write>, i: nat)
    requires i < |ws|
    ensures Absorbed(Replay(Replay(t, ws), between), ws[i])
  {
    var done := Do(Replay(t, ws[..i]), ws[i]).0;
    AbsorbedOnceDone(Replay(t, ws[..i]), ws[i]);
    assert ws == ws[..i + 1] + ws[i + 1..];
    ReplayOneMore(t, ws, i);
    ReplayJoin(t, ws[..i + 1], ws[i + 1..]);
    AbsorbedForever(done, ws[i], ws[i + 1..]);
    AbsorbedForever(Replay(t, ws), ws[i], between);
  }

  /** Pushing again what was already pushed changes nothing, whatever anyone pushed in between, and nothing is reported
      applied. */
  lemma ReplayIsInvisible(t: Tables, ws: seq<Write>, between: seq<Write>)
    ensures var z := Replay(Replay(t, ws), between);
            Replay(z, ws) == z && forall i :: 0 <= i < |ws| ==> Outcomes(z, ws)[i] != Applied
  {
    var z := Replay(Replay(t, ws), between);
    forall i | 0 <= i < |ws| ensures Absorbed(z, ws[i]) { StillAbsorbed(t, ws, between, i); }
    AllAbsorbed(z, ws);
  }

  /** The batch is stable between two times: every focus session is within the skew at both. */
  predicate StableItem(item: Item, now: int, later: int) {
    item.FocusSession? && item.session.Some? && item.session.value.updatedAt.Some? ==>
      InSkew(item.session.value.updatedAt.value, now) && InSkew(item.session.value.updatedAt.value, later)
  }

  /** The catalog answers the item's lookups as it did before. */
  predicate SameLookups(cat: Catalog, cat': Catalog, c: Caller, item: Item) {
    match item
    case ActivityEvent(Some(d)) =>
      var app := cat.app(d.bundleId, c.platform);
      cat'.app(d.bundleId, c.platform) == app && cat'.category(c.user, app) == cat.category(c.user, app)
    case FocusSession(Some(d)) =>
      d.project.Given? ==> ((c.user, d.project.value) in cat'.projects <==> (c.user, d.project.value) in cat.projects)
    case _ => true
  }

  lemma StablePlans(cat: Catalog, cat': Catalog, c: Caller, later: int, items: seq<Item>, n: nat)
    requires n <= |items| && forall i :: 0 <= i < n ==> StableItem(items[i], c.now, later)
    requires forall i :: 0 <= i < n ==> SameLookups(cat, cat', c, items[i])
    ensures Plans(cat, c, items)[..n] == Plans(cat', c.(now := later), items)[..n]
  {
    forall i | 0 <= i < n ensures Plan(cat, c, items[i]) == Plan(cat', c.(now := later), items[i]) {
      assert StableItem(items[i], c.now, later) && SameLookups(cat, cat', c, items[i]);
    }
  }

  /** The same write, or the same event with its columns looked up anew. */
  predicate Echoes(w: Write, w': Write) {
    w' == w || (w.Ingest? && w'.Ingest? && w'.key == w.key && w'.event.deleted == w.event.deleted)
  }

  lemma EchoIsInvisible(t: Tables, ws: seq<Write>, between: seq<Write>, ws': seq<Write>)
    requires |ws'| == |ws| && forall i :: 0 <= i < |ws| ==> Echoes(ws[i], ws'[i])
    ensures var z := Replay(Replay(t, ws), between);
            Replay(z, ws') == z && forall i :: 0 <= i < |ws'| ==> Outcomes(z, ws')[i] != Applied
  {
    var z := Replay(Replay(t, ws), between);
    forall i | 0 <= i < |ws'| ensures Absorbed(z, ws'[i]) {
      StillAbsorbed(t, ws, between, i);
      AppliedIffChanged(z, ws[i]);
      AppliedIffChanged(z, ws'[i]);
    }
    AllAbsorbed(z, ws');
  }

  lemma EchoPlans(cat: Catalog, cat': Catalog, c: Caller, later: int, item: Item)
    requires StableItem(item, c.now, later) && (item.FocusSession? ==> SameLookups(cat, cat', c, item))
    ensures Echoes(Plan(cat, c, item), Plan(cat', c.(now := later), item))
  {
  }

  /** A push that failed after n items, then anyone's pushes, then the whole batch again, with apps and categories
      looked up anew: the rows are those of the batch continuing where it stopped, and no item of the first part is
      reported applied twice. */
  lemma RetryResumes(t: Tables, cat: Catalog, cat': Catalog, c: Caller, later: int, items: seq<Item>, n: nat,
                     between: seq<Write>)
    requires |items| <= MAX_BATCH_ITEMS && n < |items|
    requires forall i :: 0 <= i < n ==> StableItem(items[i], c.now, later)
    requires forall i :: 0 <= i < n && items[i].FocusSession? ==> SameLookups(cat, cat', c, items[i])
    ensures var failed := Pushed(t, cat, Some(c), items, Some(n));
            var z := Replay(failed.0, between);
            var retried := Pushed(z, cat', Some(c.(now := later)), items, None);
            failed.1 == Failed(n)
            && retried.0 == Replay(z, Plans(cat', c.(now := later), items)[n..])
            && retried.1.Results? && |retried.1.results| == |items|
            && forall i :: 0 <= i < n ==> retried.1.results[i] != Applied
  {
    var first, second := Plans(cat, c, items), Plans(cat', c.(now := later), items);
    forall i | 0 <= i < n ensures Echoes(first[..n][i], second[..n][i]) { EchoPlans(cat, cat', c, later, items[i]); }
    EchoIsInvisible(t, first[..n], between, second[..n]);
    var z := Replay(Replay(t, first[..n]), between);
    assert second == second[..n] + second[n..];
    ReplayJoin(z, second[..n], second[n..]);
  }

  /** A part of a sequence of writes and then all of it is all of it. */
  lemma PartThenAll(t: Tables, ws: seq<Write>, n: nat)
    requires n <= |ws|
    ensures Replay(Replay(t, ws[..n]), ws) == Replay(t, ws)
  {
    ReplayIsInvisible(t, ws[..n], []);
    assert ws == ws[..n] + ws[n..];
    ReplayJoin(t, ws[..n], ws[n..]);
    ReplayJoin(Replay(t, ws[..n]), ws[..n], ws[n..]);
  }

  /** An attempt at the batch: when it was made, what the catalog held then, and the item its database failed at. */
  datatype Attempt = Attempt(now: int, catalog: Catalog, stop: nat)

  /** The tables after each attempt has applied what it got to. */
  function Attempted(t: Tables, c: Caller, items: seq<Item>, attempts: seq<Attempt>): Tables {
    if attempts == [] then t
    else
      var last := attempts[|attempts| - 1];
      var before := Attempted(t, c, items, attempts[..|attempts| - 1]);
      Pushed(before, last.catalog, Some(c.(now := last.now)), items, Some(last.stop)).0
  }

  lemma PushedPrefix(t: Tables, cat: Catalog, c: Caller, items: seq<Item>, n: nat)
    requires n <= |items| <= MAX_BATCH_ITEMS
    ensures Pushed(t, cat, Some(c), items, Some(n)).0 == Replay(t, Plans(cat, c, items)[..n])
  {
    assert Plans(cat, c, items)[..|items|] == Plans(cat, c, items);
  }

  /** The item means the same in the attempt and at the end. */
  predicate Unchanged(a: Attempt, cat: Catalog, c: Caller, item: Item) {
    StableItem(item, a.now, c.now) && SameLookups(a.catalog, cat, c, item)
  }

  /** Any number of attempts, each at its own time and broken off anywhere, and then a complete push end in the rows of
      one complete push, if for the items each attempt got to the sessions were within the skew then and are at the end,
      and the catalog answers as it did. */
  lemma {:induction false} RetriesEndTheSame(t: Tables, cat: Catalog, c: Caller, items: seq<Item>,
                                             attempts: seq<Attempt>)
    requires |items| <= MAX_BATCH_ITEMS && forall k :: 0 <= k < |attempts| ==> attempts[k].stop <= |items|
    requires forall k, i :: 0 <= k < |attempts| && 0 <= i < attempts[k].stop ==>
               Unchanged(attempts[k], cat, c, items[i])
    ensures Pushed(Attempted(t, c, items, attempts), cat, Some(c), items, None).0
            == Pushed(t, cat, Some(c), items, None).0
    decreases |attempts|
  {
    if attempts != [] {
      var last, before := attempts[|attempts| - 1], attempts[..|attempts| - 1];
      var t1 := Attempted(t, c, items, before);
      RetriesEndTheSame(t, cat, c, items, before);
      var earlier := c.(now := last.now);
      forall i | 0 <= i < last.stop
        ensures StableItem(items[i], earlier.now, c.now) && SameLookups(last.catalog, cat, earlier, items[i])
      {
        assert Unchanged(attempts[|attempts| - 1], cat, c, items[i]);
      }
      StablePlans(last.catalog, cat, earlier, c.now, items, last.stop);
      assert earlier.(now := c.now) == c;
      PushedPrefix(t1, last.catalog, earlier, items, last.stop);
      PartThenAll(t1, Plans(cat, c, items), last.stop);
    }
  }

  /** The stated promise: a prefix of a batch and then the whole batch is the whole batch once. */
  lemma PrefixThenWholeIsWholeOnce(t: Tables, cat: Catalog, cat': Catalog, c: Caller, later: int, items: seq<Item>,
                                   n: nat)
    requires |items| <= MAX_BATCH_ITEMS && n <= |items|
    requires forall i :: 0 <= i < n ==> StableItem(items[i], c.now, later)
    requires forall i :: 0 <= i < n ==> SameLookups(cat, cat', c, items[i])
    ensures var prefix := Pushed(t, cat, Some(c), items[..n], None).0;
            Pushed(prefix, cat', Some(c.(now := later)), items, None).0
            == Pushed(t, cat', Some(c.(now := later)), items, None).0
  {
    StablePlans(cat, cat', c, later, items, n);
    assert Plans(cat, c, items[..n]) == Plans(cat, c, items)[..n];
    PartThenAll(t, Plans(cat', c.(now := later), items), n);
  }

  /** Outside the skew a replay is not a no-op: an applied session pushed again at a later time leaves the rows alone
      if and only if its updated_at was within the skew both times. */
  lemma SessionReplayIsNoOpIff(t: Tables, cat: Catalog, c: Caller, later: int, data: SessionData)
    requires c.now < later
    requires Do(t, PlanSession(cat, c, Some(data))).1 == Applied
    ensures var once := Do(t, PlanSession(cat, c, Some(data))).0;
            data.updatedAt.Some?
            && (Do(once, PlanSession(cat, c.(now := later), Some(data))).0 == once
                <==> InSkew(data.updatedAt.value, c.now) && InSkew(data.updatedAt.value, later))
  {
    var once := Do(t, PlanSession(cat, c, Some(data))).0;
    AppliedIffChanged(once, PlanSession(cat, c.(now := later), Some(data)));
  }

  // ---- Tenants

  function Author(w: Write): Option<nat> {
    match w
    case Ingest(k, _) => Some(k.user)
    case Upsert(_, row) => Some(row.user)
    case Reject(_) => None
  }

  /** Every other user has the same rows before and after. */
  ghost predicate OthersKept(t: Tables, t': Tables, user: nat) {
    (forall k: EventKey :: k.user != user ==>
        (k in t'.events <==> k in t.events) && (k in t.events ==> t'.events[k] == t.events[k]))
    && (forall id :: id in t.sessions && t.sessions[id].user != user ==>
       id in t'.sessions && t'.sessions[id] == t.sessions[id])
    && (forall id :: id in t'.sessions && t'.sessions[id].user != user ==>
       id in t.sessions && t.sessions[id] == t'.sessions[id])
  }

  lemma {:induction false} WritesOfOneUser(t: Tables, ws: seq<Write>, user: nat)
    requires forall i :: 0 <= i < |ws| ==> Author(ws[i]).None? || Author(ws[i]) == Some(user)
    ensures OthersKept(t, Replay(t, ws), user)
    decreases ws
  {
    if ws != [] {
      WritesOfOneUser(Do(t, ws[0]).0, ws[1..], user);
    }
  }

  /** No push, complete or broken off, creates, changes or removes a row of another user. */
  lemma NoPushTouchesAnotherUser(t: Tables, cat: Catalog, devices: map<nat, Device>, user: nat, device: nat, now: int,
                                 items: seq<Item>, failAt: Option<nat>)
    ensures OthersKept(t, Pushed(t, cat, CallerOf(devices, user, device, now), items, failAt).0, user)
  {
    var c := CallerOf(devices, user, device, now);
    if |items| <= MAX_BATCH_ITEMS && c.Some? {
      var ws := Plans(cat, c.value, items);
      var n := if failAt.Some? && failAt.value < |items| then failAt.value else |items|;
      assert ws[..|items|] == ws;
      WritesOfOneUser(t, ws[..n], user);
    }
  }
}
