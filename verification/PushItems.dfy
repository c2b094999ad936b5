/** What is stored, column by column, in terms of the items that were pushed. */
module PushItems {
  import opened Options
  import opened Push
  import opened PushHistory

  /** One item as it arrives: what the catalog holds, who pushes it, and when. */
  datatype ItemPush = ItemPush(catalog: Catalog, caller: Caller, item: Item)

  function Written(history: seq<ItemPush>): seq<Write> {
    Map((p: ItemPush) => Plan(p.catalog, p.caller, p.item), history)
  }

  /** The tables after a history of items. */
  function TablesAfter(history: seq<ItemPush>): Tables { Replay(EMPTY, Written(history)) }

  function ItemsOf(cat: Catalog, c: Caller, items: seq<Item>): seq<ItemPush> {
    Map((item: Item) => ItemPush(cat, c, item), items)
  }

  /** A batch adds its items to the history, those before the failure if it fails. */
  lemma BatchIsItsItems(history: seq<ItemPush>, cat: Catalog, c: Caller, items: seq<Item>, failAt: Option<nat>)
    requires |items| <= 500
    ensures var n := if failAt.Some? && failAt.value < |items| then failAt.value else |items|;
            Pushed(TablesAfter(history), cat, Some(c), items, failAt).0
            == TablesAfter(history + ItemsOf(cat, c, items[..n]))
  {
    var n := if failAt.Some? && failAt.value < |items| then failAt.value else |items|;
    var more := ItemsOf(cat, c, items[..n]);
    assert Written(history + more) == Written(history) + Written(more);
    assert Written(more) == Plans(cat, c, items)[..n];
    assert Plans(cat, c, items)[..|items|] == Plans(cat, c, items);
    assert Pushed(TablesAfter(history), cat, Some(c), items, failAt).0
           == Replay(TablesAfter(history), Plans(cat, c, items)[..n]);
    ReplayJoin(EMPTY, Written(history), Written(more));
  }

  // ---- Events

  /** The item is an event the service accepts. */
  predicate AcceptsEvent(item: Item) {
    item.ActivityEvent? && item.event.Some?
    && var d := item.event.value;
       d.eventId.Some? && d.startedAt.Some? && d.endedAt.Some? && d.startedAt.value <= d.endedAt.value
       && d.bundleId != "" && (d.precision == "exact" || d.precision == "approximate")
       && (d.kind == None || d.kind == Some("app_active") || d.kind == Some("idle") || d.kind == Some("locked")
           || d.kind == Some("mobile_usage") || d.kind == Some("manual"))
  }

  predicate NamesEvent(p: ItemPush, k: EventKey) {
    AcceptsEvent(p.item) && p.caller.user == k.user
    && p.item.event.value.eventId == Some(k.eventId) && p.item.event.value.startedAt == Some(k.startedAt)
  }

  lemma NamesEventIff(p: ItemPush, k: EventKey)
    ensures Ingests(Plan(p.catalog, p.caller, p.item), k) <==> NamesEvent(p, k)
    ensures NamesEvent(p, k) ==> Plan(p.catalog, p.caller, p.item).event.deleted == p.item.event.value.deleted
  {
  }

  lemma WrittenEvents(history: seq<ItemPush>, k: EventKey)
    ensures forall i :: 0 <= i < |history| ==>
              (Ingests(Written(history)[i], k) <==> NamesEvent(history[i], k))
              && (NamesEvent(history[i], k) ==>
                 Written(history)[i].event.deleted == history[i].item.event.value.deleted)
  {
    forall i | 0 <= i < |history|
      ensures Ingests(Written(history)[i], k) <==> NamesEvent(history[i], k)
      ensures NamesEvent(history[i], k) ==> Written(history)[i].event.deleted == history[i].item.event.value.deleted
    {
      NamesEventIff(history[i], k);
      assert Written(history)[i] == Plan(history[i].catalog, history[i].caller, history[i].item);
    }
  }

  /** After any history an event is stored exactly if some accepted item of its user named it, and it is tombstoned
      exactly if one of those said so. */
  lemma StoredEventIff(history: seq<ItemPush>, k: EventKey)
    ensures var stored := TablesAfter(history).events;
            (k in stored <==> exists i :: 0 <= i < |history| && NamesEvent(history[i], k))
            && (k in stored ==>
                  (stored[k].deleted <==>
                     exists i :: 0 <= i < |history| && NamesEvent(history[i], k)
                         && history[i].item.event.value.deleted))
  {
    var ws := Written(history);
    WrittenEvents(history, k);
    EventIsFirstPushWithOrOfTombstones(ws, k);
    assert AnyDeleted(ws, k) <==>
           exists i :: 0 <= i < |history| && NamesEvent(history[i], k) && history[i].item.event.value.deleted;
    if i :| 0 <= i < |history| && NamesEvent(history[i], k) {
      FirstExists(ws, k, i);
    }
    assert forall i :: FirstIngest(ws, k, i) ==> NamesEvent(history[i], k);
  }

  /** Its columns are those of the first item that named it. */
  lemma StoredEventIsTheFirst(history: seq<ItemPush>, k: EventKey, i: nat)
    requires i < |history| && NamesEvent(history[i], k) && forall j :: 0 <= j < i ==> !NamesEvent(history[j], k)
    ensures k in TablesAfter(history).events
    ensures var row, p := TablesAfter(history).events[k], history[i];
            var d := p.item.event.value;
            row.device == p.caller.device && Some(row.endedAt) == d.endedAt && row.bundleId == d.bundleId
            && row.windowTitle == d.windowTitle && row.precision == d.precision
            && (d.kind == None ==> row.kind == "manual") && (d.kind.Some? ==> row.kind == d.kind.value)
            && (p.caller.platform == "macos" ==> row.source == "desktop")
            && (p.caller.platform == "ios" ==> row.source == "mobile")
            && (p.caller.platform != "macos" && p.caller.platform != "ios" ==> row.source == "manual")
            && row.app == p.catalog.app(d.bundleId, p.caller.platform)
            && row.category == p.catalog.category(p.caller.user, row.app)
  {
    var ws := Written(history);
    WrittenEvents(history, k);
    EventIsFirstPushWithOrOfTombstones(ws, k);
    assert FirstIngest(ws, k, i);
    assert ws[i] == Plan(history[i].catalog, history[i].caller, history[i].item);
  }

  // ---- Sessions

  /** The item is a session the service accepts from the caller. */
  predicate AcceptsSession(p: ItemPush) {
    p.item.FocusSession? && p.item.session.Some?
    && var d := p.item.session.value;
       d.id.Some? && d.updatedAt.Some? && d.startedAt.Some? && d.endedAt != Malformed && d.project != Malformed
       && (d.project.Given? ==> (p.caller.user, d.project.value) in p.catalog.projects)
       && (d.kind == "focus" || d.kind == "break" || d.kind == "meeting")
       && (d.status == "running" || d.status == "completed" || d.status == "abandoned")
  }

  predicate NamesSession(p: ItemPush, id: nat) { AcceptsSession(p) && p.item.session.value.id == Some(id) }

  /** The time a session is filed under: its own, unless that is more than 24 hours off the clock. */
  predicate FiledAt(p: ItemPush, at: int)
    requires AcceptsSession(p)
  {
    var updatedAt, day := p.item.session.value.updatedAt.value, 86_400_000_000_000;
    at == if p.caller.now - day <= updatedAt <= p.caller.now + day then updatedAt else p.caller.now
  }

  /** The row has the columns of the item. */
  predicate IsRowOf(row: SessionRow, p: ItemPush)
    requires AcceptsSession(p)
  {
    var d := p.item.session.value;
    row.user == p.caller.user && row.device == p.caller.device
    && (d.project == Absent <==> row.project == None) && (d.project.Given? ==> row.project == Some(d.project.value))
    && (d.endedAt == Absent <==> row.endedAt == None) && (d.endedAt.Given? ==> row.endedAt == Some(d.endedAt.value))
    && row.kind == d.kind && row.status == d.status && row.note == d.note
    && row.plannedDurationS == d.plannedDurationS && Some(row.startedAt) == d.startedAt
    && FiledAt(p, row.updatedAt) && row.deletedAt == if d.deleted then Some(row.updatedAt) else None
  }

  lemma NamesSessionIff(p: ItemPush, id: nat)
    ensures Claims(Plan(p.catalog, p.caller, p.item), id) <==> NamesSession(p, id)
    ensures NamesSession(p, id) ==> IsRowOf(Plan(p.catalog, p.caller, p.item).session, p)
  {
  }

  /** The first item to name the id makes its user the owner. */
  predicate MakesOwner(history: seq<ItemPush>, id: nat, i: int) {
    0 <= i < |history| && NamesSession(history[i], id) && forall j :: 0 <= j < i ==> !NamesSession(history[j], id)
  }

  /** After any history a session is stored exactly if some accepted item named it; its row is that of an item of its
      owner, the user of the first such item, filed no earlier than any other of the owner's and later than all
      before. */
  lemma StoredSessionIff(history: seq<ItemPush>, id: nat)
    ensures var stored := TablesAfter(history).sessions;
            (id in stored <==> exists i :: 0 <= i < |history| && NamesSession(history[i], id))
            && (id in stored ==> exists i :: IsWinner(history, id, stored[id], i))
            && (id in stored ==> forall i :: MakesOwner(history, id, i) ==> stored[id].user == history[i].caller.user)
  {
    var ws := Written(history);
    WrittenNames(history, id);
    LastWriteWins(ws, id);
    if id in TablesAfter(history).sessions {
      var row := TablesAfter(history).sessions[id];
      var i :| Wins(ws, id, row.user, i) && row == ws[i].session;
      WinnerIs(history, id, row.user, i);
      forall j | MakesOwner(history, id, j) ensures row.user == history[j].caller.user {
        OwnerIsFirst(ws, id, j);
      }
    }
  }

  lemma WrittenNames(history: seq<ItemPush>, id: nat)
    ensures var ws := Written(history);
            forall i :: 0 <= i < |history| ==>
              (Claims(ws[i], id) <==> NamesSession(history[i], id))
              && (NamesSession(history[i], id) ==> IsRowOf(ws[i].session, history[i]))
  {
    var ws := Written(history);
    forall i | 0 <= i < |history|
      ensures Claims(ws[i], id) <==> NamesSession(history[i], id)
      ensures NamesSession(history[i], id) ==> IsRowOf(ws[i].session, history[i])
    {
      NamesSessionIff(history[i], id);
      assert ws[i] == Plan(history[i].catalog, history[i].caller, history[i].item);
    }
  }

  lemma WinnerIs(history: seq<ItemPush>, id: nat, user: nat, i: int)
    requires Wins(Written(history), id, user, i)
    ensures IsWinner(history, id, Written(history)[i].session, i)
  {
    WrittenNames(history, id);
  }

  lemma {:induction false} OwnerIsFirst(ws: seq<Write>, id: nat, j: nat)
    requires j < |ws| && Claims(ws[j], id) && forall k :: 0 <= k < j ==> !Claims(ws[k], id)
    ensures Owner(ws, id) == Some(ws[j].session.user)
    decreases ws
  {
    if j > 0 {
      assert forall k :: 0 <= k < j - 1 ==> ws[1..][k] == ws[k + 1];
      OwnerIsFirst(ws[1..], id, j - 1);
    }
  }

  /** The row is item i's, and of the items of its user for this id none is filed later, and none before i as late. */
  ghost predicate IsWinner(history: seq<ItemPush>, id: nat, row: SessionRow, i: int) {
    0 <= i < |history| && NamesSession(history[i], id) && IsRowOf(row, history[i])
    && forall j, at :: 0 <= j < |history| && NamesSession(history[j], id) && history[j].caller.user == row.user
                       && FiledAt(history[j], at) ==>
         at <= row.updatedAt && (j < i ==> at < row.updatedAt)
  }

  // ---- Answers

  /** The result at a position is what the item there met after those before it. */
  lemma {:induction false} ResultsAreInOrder(t: Tables, ws: seq<Write>, i: nat)
    requires i < |ws|
    ensures Outcomes(t, ws)[i] == Do(Replay(t, ws[..i]), ws[i]).1
    decreases i
  {
    if i > 0 {
      ResultsAreInOrder(Do(t, ws[0]).0, ws[1..], i - 1);
      assert ws[..i][1..] == ws[1..][..i - 1] && ws[..i][0] == ws[0];
    }
  }

  /** An accepted event is a duplicate if its key is stored and it does not tombstone it anew. */
  lemma EventAnswer(t: Tables, p: ItemPush, k: EventKey)
    requires NamesEvent(p, k)
    ensures var r := Do(t, Plan(p.catalog, p.caller, p.item)).1;
            (r == Applied || r == Duplicate)
            && (r == Duplicate <==>
                  k in t.events && (p.item.event.value.deleted ==> t.events[k].deleted))
  {
  }

  /** An accepted session is forbidden if another user's row has its id, a duplicate if a row of the user's own is filed
      no earlier, and applied otherwise. */
  lemma SessionAnswer(t: Tables, p: ItemPush, id: nat, at: int)
    requires NamesSession(p, id) && FiledAt(p, at)
    ensures var r := Do(t, Plan(p.catalog, p.caller, p.item)).1;
            (r == Invalid(Forbidden) <==> id in t.sessions && t.sessions[id].user != p.caller.user)
            && (r == Duplicate <==>
                  id in t.sessions && t.sessions[id].user == p.caller.user && at <= t.sessions[id].updatedAt)
            && (r == Applied || r == Duplicate || r == Invalid(Forbidden))
  {
  }

  /** Everything else is invalid and stores nothing: an event or session that is not accepted, and any other type. */
  lemma RejectedItemsStoreNothing(t: Tables, p: ItemPush)
    requires !AcceptsEvent(p.item) && !AcceptsSession(p)
    ensures var (t', r) := Do(t, Plan(p.catalog, p.caller, p.item));
            t' == t
            && (p.item == Unsupported ==> r == Invalid(UnsupportedEntityType))
            && (p.item.ActivityEvent? ==> r == Invalid(ValidationError))
            && (p.item.FocusSession? ==> r == Invalid(ValidationError) || r == Invalid(ForeignKeyViolation))
  {
  }

  /** A session naming a project that is not the caller's is refused as such, and stores nothing. */
  lemma ForeignProjectIsRefused(t: Tables, p: ItemPush)
    requires p.item.FocusSession? && p.item.session.Some?
    requires var d := p.item.session.value;
             d.id.Some? && d.updatedAt.Some? && d.startedAt.Some? && d.endedAt != Malformed
             && d.project.Given? && (p.caller.user, d.project.value) !in p.catalog.projects
    ensures Do(t, Plan(p.catalog, p.caller, p.item)) == (t, Invalid(ForeignKeyViolation))
  {
  }

  /** Who may push at all: a live device of the user's, at its platform; anything else changes nothing. */
  lemma OnlyOwnLiveDevicesPush(t: Tables, cat: Catalog, devices: map<nat, Device>, user: nat, device: nat, now: int,
                               items: seq<Item>, failAt: Option<nat>)
    ensures var c := CallerOf(devices, user, device, now);
            (c.Some? <==> device in devices && devices[device].owner == user && !devices[device].revoked)
            && (c.Some? ==> c.value == Caller(user, device, devices[device].platform, now))
            && (c.None? ==> Pushed(t, cat, c, items, failAt)
                            == (t, if |items| > 500 then ErrBatchTooLarge else ErrDeviceNotFound))
  {
  }
}
