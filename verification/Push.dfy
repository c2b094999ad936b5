/** Push ingestion: append-only activity events with tombstones, last-write-wins focus sessions.

An item that passes validation becomes one write, a row computed from the item, the
catalog and the clock.  What a batch does is the effect of its writes in order, and the
promises about replay, retry and order are promises about sequences of writes. */
module Push {
  import opened Options

  /** An optional wire field: left out, not parseable, or parsed. */
  datatype Field<+T> = Absent | Malformed | Given(value: T)

  const MAX_BATCH_ITEMS := 500

  /** 24 hours in nanoseconds. */
  const MAX_CLOCK_SKEW := 24 * 3600 * 1_000_000_000

  // ---- Rows and items

  datatype EventKey = EventKey(user: nat, eventId: nat, startedAt: int)

  datatype EventRow = EventRow(
    device: nat, endedAt: int, kind: string, source: string, precision: string, app: nat,
    bundleId: string, windowTitle: Option<string>, category: Option<nat>, deleted: bool)

  datatype SessionRow = SessionRow(
    user: nat, device: nat, project: Option<nat>, kind: string, plannedDurationS: Option<int>, startedAt: int,
    endedAt: Option<int>, status: string, note: Option<string>, updatedAt: int, deletedAt: Option<int>)

  datatype Tables = Tables(events: map<EventKey, EventRow>, sessions: map<nat, SessionRow>)

  const EMPTY := Tables(map[], map[])

  datatype EventData = EventData(
    eventId: Option<nat>, startedAt: Option<int>, endedAt: Option<int>, bundleId: string,
    windowTitle: Option<string>, precision: string, kind: Option<string>, deleted: bool)

  datatype SessionData = SessionData(
    id: Option<nat>, updatedAt: Option<int>, startedAt: Option<int>, endedAt: Field<int>, project: Field<nat>,
    kind: string, status: string, plannedDurationS: Option<int>, note: Option<string>, deleted: bool)

  /** None is a payload that is not the entity's JSON. */
  datatype Item = ActivityEvent(event: Option<EventData>) | FocusSession(session: Option<SessionData>) | Unsupported

  datatype Code = ValidationError | ForeignKeyViolation | Forbidden | UnsupportedEntityType

  datatype Result = Applied | Duplicate | Invalid(code: Code)

  datatype Response = Results(results: seq<Result>) | ErrBatchTooLarge | ErrDeviceNotFound | Failed(item: nat)

  datatype Device = Device(owner: nat, platform: string, revoked: bool)

  /** Catalog lookups: the app of a bundle id on a platform, the category of an app for a user, each user's projects. */
  datatype Catalog = Catalog(app: (string, string) -> nat, category: (nat, nat) -> Option<nat>,
                             projects: set<(nat, nat)>)

  /** Who pushes, from which device, and when. */
  datatype Caller = Caller(user: nat, device: nat, platform: string, now: int)

  // ---- Validation

  function Optional<T>(f: Field<T>): Option<T> { if f.Given? then Some(f.value) else None }

  predicate ValidType(s: string) {
    s == "app_active" || s == "idle" || s == "locked" || s == "mobile_usage" || s == "manual"
  }

  predicate ValidPrecision(s: string) { s == "exact" || s == "approximate" }

  predicate ValidKind(s: string) { s == "focus" || s == "break" || s == "meeting" }

  predicate ValidStatus(s: string) { s == "running" || s == "completed" || s == "abandoned" }

  /** An omitted type is "manual". */
  function TypeOf(kind: Option<string>): string { if kind.Some? then kind.value else "manual" }

  function SourceOf(platform: string): string {
    if platform == "macos" then "desktop" else if platform == "ios" then "mobile" else "manual"
  }

  predicate InSkew(updatedAt: int, now: int) { -MAX_CLOCK_SKEW <= now - updatedAt <= MAX_CLOCK_SKEW }

  /** A timestamp more than a day off is replaced by the server's. */
  function Clamp(updatedAt: int, now: int): int { if InSkew(updatedAt, now) then updatedAt else now }

  datatype Write = Ingest(key: EventKey, event: EventRow) | Upsert(id: nat, session: SessionRow) | Reject(code: Code)

  function PlanEvent(cat: Catalog, c: Caller, data: Option<EventData>): Write {
    match data
    case Some(EventData(Some(eventId), Some(startedAt), Some(endedAt), bundleId, windowTitle, precision, kind,
        deleted)) =>
      if endedAt < startedAt || bundleId == "" || !ValidPrecision(precision) || (kind.Some? && !ValidType(kind.value))
      then Reject(ValidationError)
      else
        var app := cat.app(bundleId, c.platform);
        Ingest(EventKey(c.user, eventId, startedAt),
               EventRow(c.device, endedAt, TypeOf(kind), SourceOf(c.platform), precision, app,
                        bundleId, windowTitle, cat.category(c.user, app), deleted))
    case _ => Reject(ValidationError)
  }

  /** The project is checked before kind and status, so it decides the code when both are wrong. */
  function PlanSession(cat: Catalog, c: Caller, data: Option<SessionData>): Write {
    match data
    case Some(SessionData(Some(id), Some(updatedAt), Some(startedAt), endedAt, project, kind, status, planned, note,
        deleted)) =>
      if endedAt.Malformed? || project.Malformed? then Reject(ValidationError)
      else if project.Given? && (c.user, project.value) !in cat.projects then Reject(ForeignKeyViolation)
      else if !ValidKind(kind) || !ValidStatus(status) then Reject(ValidationError)
      else
        var at := Clamp(updatedAt, c.now);
        Upsert(id,
               SessionRow(c.user, c.device, Optional(project), kind, planned, startedAt, Optional(endedAt), status,
                          note, at, if deleted then Some(at) else None))
    case _ => Reject(ValidationError)
  }

  function Plan(cat: Catalog, c: Caller, item: Item): Write {
    match item
    case ActivityEvent(data) => PlanEvent(cat, c, data)
    case FocusSession(data) => PlanSession(cat, c, data)
    case Unsupported => Reject(UnsupportedEntityType)
  }

  function Plans(cat: Catalog, c: Caller, items: seq<Item>): (ws: seq<Write>)
    ensures |ws| == |items|
  {
    seq(|items|, i requires 0 <= i < |items| => Plan(cat, c, items[i]))
  }

  // ---- What a write does

  function Do(t: Tables, w: Write): (Tables, Result) {
    match w
    case Reject(code) => (t, Invalid(code))
    case Ingest(k, row) =>
      if k !in t.events then (t.(events := t.events[k := row]), Applied)
      else if row.deleted && !t.events[k].deleted
      then (t.(events := t.events[k := t.events[k].(deleted := true)]), Applied)
      else (t, Duplicate)
    case Upsert(id, row) =>
      if id !in t.sessions || (t.sessions[id].user == row.user && t.sessions[id].updatedAt < row.updatedAt)
      then (t.(sessions := t.sessions[id := row]), Applied)
      else if t.sessions[id].user != row.user then (t, Invalid(Forbidden))
      else (t, Duplicate)
  }

  function Replay(t: Tables, ws: seq<Write>): Tables
    decreases ws
  {
    if ws == [] then t else Replay(Do(t, ws[0]).0, ws[1..])
  }

  function Outcomes(t: Tables, ws: seq<Write>): (rs: seq<Result>)
    ensures |rs| == |ws|
    decreases ws
  {
    if ws == [] then [] else [Do(t, ws[0]).1] + Outcomes(Do(t, ws[0]).0, ws[1..])
  }

  /** The device must be the caller's and live. */
  function CallerOf(devices: map<nat, Device>, user: nat, device: nat, now: int): Option<Caller> {
    if device in devices && devices[device].owner == user && !devices[device].revoked
    then Some(Caller(user, device, devices[device].platform, now)) else None
  }

  /** The outcome of a push whose database fails at item `failAt`, if it fails: what was applied before stays. */
  function Pushed(t: Tables, cat: Catalog, caller: Option<Caller>, items: seq<Item>, failAt: Option<nat>)
    : (Tables, Response)
  {
    if |items| > MAX_BATCH_ITEMS then (t, ErrBatchTooLarge)
    else if caller.None? then (t, ErrDeviceNotFound)
    else
      var ws := Plans(cat, caller.value, items);
      if failAt.Some? && failAt.value < |items| then (Replay(t, ws[..failAt.value]), Failed(failAt.value))
      else (Replay(t, ws), Results(Outcomes(t, ws)))
  }

  // ---- The service

  class PushService {
    var events: map<EventKey, EventRow>
    var sessions: map<nat, SessionRow>
    const devices: map<nat, Device>
    const catalog: Catalog

    constructor (devices: map<nat, Device>, catalog: Catalog)
      ensures Contents() == EMPTY && this.devices == devices && this.catalog == catalog
    {
      this.devices, this.catalog := devices, catalog;
      events, sessions := map[], map[];
    }

    function Contents(): Tables
      reads this
    {
      Tables(events, sessions)
    }

    /** INSERT ... ON CONFLICT DO NOTHING. */
    method InsertActivityEvent(key: EventKey, row: EventRow) returns (inserted: bool)
      modifies this`events
      ensures inserted <==> key !in old(events)
      ensures events == if inserted then old(events)[key := row] else old(events)
    {
      inserted := key !in events;
      if inserted {
        events := events[key := row];
      }
    }

    /** UPDATE ... SET deleted = true WHERE deleted = false. */
    method TombstoneActivityEvent(key: EventKey) returns (updated: bool)
      modifies this`events
      ensures updated <==> key in old(events) && !old(events)[key].deleted
      ensures events == if updated then old(events)[key := old(events)[key].(deleted := true)] else old(events)
    {
      updated := key in events && !events[key].deleted;
      if updated {
        events := events[key := events[key].(deleted := true)];
      }
    }

    /** INSERT ... ON CONFLICT (id) DO UPDATE, only over an older row of the same user. */
    method UpsertFocusSession(id: nat, row: SessionRow) returns (upserted: bool)
      modifies this`sessions
      ensures upserted <==>
                id !in old(sessions)
                || (old(sessions)[id].user == row.user && old(sessions)[id].updatedAt < row.updatedAt)
      ensures sessions == if upserted then old(sessions)[id := row] else old(sessions)
    {
      upserted := id !in sessions || (sessions[id].user == row.user && sessions[id].updatedAt < row.updatedAt);
      if upserted {
        sessions := sessions[id := row];
      }
    }

    method ApplyActivityEvent(c: Caller, data: Option<EventData>) returns (result: Result)
      modifies this
      ensures (Contents(), result) == Do(old(Contents()), PlanEvent(catalog, c, data))
    {
      var plan := PlanEvent(catalog, c, data);
      if plan.Reject? {
        return Invalid(plan.code);
      }
      var inserted := InsertActivityEvent(plan.key, plan.event);
      if !inserted {
        if plan.event.deleted {
          var tombstoned := TombstoneActivityEvent(plan.key);
          return if tombstoned then Applied else Duplicate;
        }
        return Duplicate;
      }
      result := Applied;
    }

    method ApplyFocusSession(c: Caller, data: Option<SessionData>) returns (result: Result)
      modifies this
      ensures (Contents(), result) == Do(old(Contents()), PlanSession(catalog, c, data))
    {
      var plan := PlanSession(catalog, c, data);
      if plan.Reject? {
        return Invalid(plan.code);
      }
      var upserted := UpsertFocusSession(plan.id, plan.session);
      if !upserted {
        var existing := sessions[plan.id];
        if existing.user != c.user {
          return Invalid(Forbidden);
        }
        return Duplicate;
      }
      result := Applied;
    }

    method ApplyItem(c: Caller, item: Item) returns (result: Result)
      modifies this
      ensures (Contents(), result) == Do(old(Contents()), Plan(catalog, c, item))
    {
      match item
      case ActivityEvent(data) => result := ApplyActivityEvent(c, data);
      case FocusSession(data) => result := ApplyFocusSession(c, data);
      case Unsupported => result := Invalid(UnsupportedEntityType);
    }

    /** Items are applied one by one, each on its own; an error that is not about the item stops the batch. */
    method PushBatch(user: nat, device: nat, now: int, items: seq<Item>, failAt: Option<nat>)
        returns (response: Response)
      modifies this
      ensures (Contents(), response)
              == Pushed(old(Contents()), catalog, CallerOf(devices, user, device, now), items, failAt)
    {
      if |items| > MAX_BATCH_ITEMS {
        return ErrBatchTooLarge;
      }
      if !(device in devices && devices[device].owner == user && !devices[device].revoked) {
        return ErrDeviceNotFound;
      }
      var c := Caller(user, device, devices[device].platform, now);
      ghost var ws := Plans(catalog, c, items);
      var results: seq<Result> := [];
      var index := 0;
      while index < |items|
        invariant 0 <= index <= |items| && (failAt.Some? ==> index <= failAt.value || |items| <= failAt.value)
        invariant Contents() == Replay(old(Contents()), ws[..index])
        invariant results == Outcomes(old(Contents()), ws[..index])
      {
        if failAt == Some(index) {
          return Failed(index);
        }
        ghost var before := Contents();
        var result := ApplyItem(c, items[index]);
        ReplayOneMore(old(Contents()), ws, index);
        results := results + [result];
        index := index + 1;
      }
      assert ws[..|items|] == ws;
      response := Results(results);
    }
  }

  // ---- Sequences of writes

  lemma {:induction false} ReplayJoin(t: Tables, a: seq<Write>, b: seq<Write>)
    ensures Replay(t, a + b) == Replay(Replay(t, a), b)
    ensures Outcomes(t, a + b) == Outcomes(t, a) + Outcomes(Replay(t, a), b)
    decreases a
  {
    if a == [] {
      assert a + b == b;
    } else {
      assert (a + b)[1..] == a[1..] + b;
      ReplayJoin(Do(t, a[0]).0, a[1..], b);
    }
  }

  lemma ReplayOneMore(t: Tables, ws: seq<Write>, n: nat)
    requires n < |ws|
    ensures Replay(t, ws[..n + 1]) == Do(Replay(t, ws[..n]), ws[n]).0
    ensures Outcomes(t, ws[..n + 1]) == Outcomes(t, ws[..n]) + [Do(Replay(t, ws[..n]), ws[n]).1]
  {
    assert ws[..n + 1] == ws[..n] + [ws[n]];
    ReplayJoin(t, ws[..n], [ws[n]]);
    var z := Replay(t, ws[..n]);
    assert [ws[n]][1..] == [];
    assert Outcomes(Do(z, ws[n]).0, []) == [];
    assert Outcomes(z, [ws[n]]) == [Do(z, ws[n]).1];
  }
}
