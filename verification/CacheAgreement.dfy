/** The message cache of a conversation agrees with the item rows it summarises, over whole runs. */
module CacheAgreement {
  import opened ItemOrder
  import opened ConversationDb

  predicate AgreesAt(db: Db, key: ConversationKey) {
    key in db.conversations ==> db.conversations[key].messages == Summary(db.items, key.tenant, key.conversation)
  }

  predicate Agrees(db: Db) { forall key | key in db.conversations :: AgreesAt(db, key) }

  /** Every key in use was once handed out as a generated conversation id. */
  predicate Known(db: Db, used: set<ConversationKey>) {
    && db.conversations.Keys <= used
    && forall k | k in db.items :: ConversationKey(k.tenant, k.conversation) in used
  }

  function UsedBy(call: Call): set<ConversationKey> {
    if call.request.Create? then {ConversationKey(call.tenant, call.request.newId)} else {}
  }

  /** The id generator never hands a tenant the same conversation id twice. */
  predicate FreshIds(used: set<ConversationKey>, calls: seq<Call>)
    decreases |calls|
  {
    calls == [] || (UsedBy(calls[0]) !! used && FreshIds(used + UsedBy(calls[0]), calls[1..]))
  }

  lemma NewRowsListAsGiven(rows: seq<Row>)
    requires Sorted(rows) && UniqueIds(set r | r in rows)
    ensures Ordered(set r | r in rows) == rows
  {
    var s := set r | r in rows;
    SortedUnique(Ordered(s), rows, s);
  }

  lemma AcceptedRowsFacts(field: ItemsField, required: bool, now: int, start: int)
    requires AcceptedRows(field, required, now, start).Some?
    ensures var rows := AcceptedRows(field, required, now, start).value;
            && |rows| <= MAX_ITEMS_PER_REQUEST
            && !HasDuplicate(rows)
            && (forall i | 0 <= i < |rows| :: rows[i].position == SaturatingAdd(start, i))
            && (start + |rows| <= I64_MAX ==> Sorted(rows))
  {
  }

  lemma DistinctIds(rows: seq<Row>)
    requires !HasDuplicate(rows)
    ensures UniqueIds(set r | r in rows)
  {
    forall a, b | a in rows && b in rows && a.id == b.id ensures a == b {
      var i :| 0 <= i < |rows| && rows[i] == a;
      var j :| 0 <= j < |rows| && rows[j] == b;
    }
  }

  predicate SameElsewhere(a: ItemTable, b: ItemTable, tenant: string, id: string) {
    forall k | k in a.Keys + b.Keys && (k.tenant != tenant || k.conversation != id) :: k in a && k in b && a[k] == b[k]
  }

  lemma OthersAgree(db: Db, db': Db, tenant: string, id: string)
    requires Agrees(db)
    requires forall key | key in db'.conversations && key != ConversationKey(tenant, id) ::
               key in db.conversations && db'.conversations[key] == db.conversations[key]
    requires SameElsewhere(db.items, db'.items, tenant, id)
    requires AgreesAt(db', ConversationKey(tenant, id))
    ensures Agrees(db')
  {
    hide Ordered, UniqueIds;
    forall key | key in db'.conversations ensures AgreesAt(db', key) {
      if key != ConversationKey(tenant, id) {
        assert AgreesAt(db, key);
        forall x
          ensures x in Rows(db'.items, key.tenant, key.conversation) <==>
                  x in Rows(db.items, key.tenant, key.conversation)
        {
          RowsContain(db'.items, key.tenant, key.conversation, x);
          RowsContain(db.items, key.tenant, key.conversation, x);
        }
        assert Rows(db'.items, key.tenant, key.conversation) == Rows(db.items, key.tenant, key.conversation);
      }
    }
  }

  predicate NoLeftovers(db: Db, tenant: string, id: string) { Rows(db.items, tenant, id) == {} }

  lemma NothingStored(items: ItemTable, tenant: string, id: string, rows: seq<Row>)
    requires Rows(items, tenant, id) == {}
    ensures forall i | 0 <= i < |rows| :: ItemKey(tenant, id, rows[i].id) !in items
  {
    forall i | 0 <= i < |rows| ensures ItemKey(tenant, id, rows[i].id) !in items {
      var k := ItemKey(tenant, id, rows[i].id);
      if k in items {
        RowsContain(items, tenant, id, RowOf(k, items[k]));
        assert false;
      }
    }
  }

  lemma CreateAgrees(db: Db, tenant: string, newId: string, now: int, metadata: MetadataField, items: ItemsField)
    requires Agrees(db) && NoLeftovers(db, tenant, newId)
    ensures Agrees(HandleCreate(db, tenant, newId, now, metadata, items).db)
    ensures !HandleCreate(db, tenant, newId, now, metadata, items).reply.ServerError?
  {
    hide AcceptedRows, InsertRows, Rows, Ordered, UniqueIds, Summary, SameElsewhere;
    var rows := AcceptedRows(items, false, now, 1);
    if rows.Some? && !metadata.InvalidMetadata? {
      AcceptedRowsFacts(items, false, now, 1);
      FirstRowsInserted(db.items, tenant, newId, rows.value);
      OthersAgree(db, HandleCreate(db, tenant, newId, now, metadata, items).db, tenant, newId);
    }
  }

  /** Under a new id the rows are inserted, and are summarised in the order given. */
  lemma FirstRowsInserted(items: ItemTable, tenant: string, id: string, rows: seq<Row>)
    requires Rows(items, tenant, id) == {} && !HasDuplicate(rows) && Sorted(rows)
    ensures var r := InsertRows(items, tenant, id, rows);
            r.Some? && Summary(r.value, tenant, id) == DataOf(rows) && SameElsewhere(items, r.value, tenant, id)
  {
    hide InsertRows, Rows, Ordered, HasDuplicate, Sorted, UniqueIds;
    NothingStored(items, tenant, id, rows);
    InsertSucceeds(items, tenant, id, rows);
    InsertedKeys(items, tenant, id, rows);
    DistinctIds(rows);
    NewRowsListAsGiven(rows);
    assert {} + (set x | x in rows) == set x | x in rows;
  }

  lemma SyncAgrees(db: Db, items: ItemTable, tenant: string, id: string)
    requires Agrees(db)
    requires SameElsewhere(db.items, items, tenant, id)
    ensures Agrees(Sync(db.(items := items), tenant, id))
  {
    OthersAgree(db, Sync(db.(items := items), tenant, id), tenant, id);
  }

  lemma InsertElsewhere(items: ItemTable, tenant: string, id: string, rows: seq<Row>)
    requires InsertRows(items, tenant, id, rows).Some?
    ensures SameElsewhere(items, InsertRows(items, tenant, id, rows).value, tenant, id)
  {
    InsertedKeys(items, tenant, id, rows);
  }

  /** Accepted items are always inserted: they are distinct and not in the table yet. */
  lemma CreateItemsShape(db: Db, tenant: string, id: string, now: int, items: ItemsField)
    ensures var h := HandleCreateItems(db, tenant, id, now, items);
            var start := SaturatingAdd(MaxPosition(Rows(db.items, tenant, id)), 1);
            || ((h.reply == NotFound || h.reply == BadRequest) && h.db == db)
            || (&& ConversationKey(tenant, id) in db.conversations
                && AcceptedRows(items, true, now, start).Some?
                && var inserted := InsertRows(db.items, tenant, id, AcceptedRows(items, true, now, start).value);
                  && inserted.Some?
                  && h.db == Sync(db.(items := inserted.value), tenant, id)
                  && h.reply.Listed?)
  {
    var start := SaturatingAdd(MaxPosition(Rows(db.items, tenant, id)), 1);
    var accepted := AcceptedRows(items, true, now, start);
    if accepted.Some? {
      AcceptedRowsFacts(items, true, now, start);
      if forall i | 0 <= i < |accepted.value| :: ItemKey(tenant, id, accepted.value[i].id) !in db.items {
        InsertSucceeds(db.items, tenant, id, accepted.value);
      }
    }
  }

  lemma CreateItemsAgrees(db: Db, tenant: string, id: string, now: int, items: ItemsField)
    requires Agrees(db)
    ensures Agrees(HandleCreateItems(db, tenant, id, now, items).db)
    ensures !HandleCreateItems(db, tenant, id, now, items).reply.ServerError?
  {
    CreateItemsShape(db, tenant, id, now, items);
    var h := HandleCreateItems(db, tenant, id, now, items);
    if h.reply.Listed? {
      var start := SaturatingAdd(MaxPosition(Rows(db.items, tenant, id)), 1);
      var rows := AcceptedRows(items, true, now, start).value;
      InsertElsewhere(db.items, tenant, id, rows);
      SyncAgrees(db, InsertRows(db.items, tenant, id, rows).value, tenant, id);
    }
  }

  lemma DeleteItemAgrees(db: Db, tenant: string, id: string, item: string)
    requires Agrees(db)
    ensures Agrees(HandleDeleteItem(db, tenant, id, item).db)
    ensures !HandleDeleteItem(db, tenant, id, item).reply.ServerError?
  {
    SyncAgrees(db, db.items - {ItemKey(tenant, id, item)}, tenant, id);
  }

  lemma DeleteAgrees(db: Db, tenant: string, id: string)
    requires Agrees(db)
    ensures Agrees(HandleDelete(db, tenant, id).db)
    ensures !HandleDelete(db, tenant, id).reply.ServerError?
  {
    forall key | key in HandleDelete(db, tenant, id).db.conversations
      ensures AgreesAt(HandleDelete(db, tenant, id).db, key)
    {
      assert AgreesAt(db, key);
    }
  }

  lemma UpdateAgrees(db: Db, tenant: string, id: string, metadata: MetadataField)
    requires Agrees(db)
    ensures Agrees(HandleUpdate(db, tenant, id, metadata).db)
    ensures !HandleUpdate(db, tenant, id, metadata).reply.ServerError?
  {
    var key := ConversationKey(tenant, id);
    if key in db.conversations { assert AgreesAt(db, key); }
    OthersAgree(db, HandleUpdate(db, tenant, id, metadata).db, tenant, id);
  }

  lemma ReadsChangeNothing(db: Db, call: Call)
    requires call.request.Malformed? || call.request.Get? || call.request.ListItems? || call.request.GetItem?
    ensures var h := Handle(db, call.tenant, call.request); h.db == db && !h.reply.ServerError?
  {
  }

  predicate Sound(h: Handled) { Agrees(h.db) && !h.reply.ServerError? }

  lemma CallAgrees(db: Db, call: Call)
    requires Agrees(db)
    requires call.request.Create? ==> NoLeftovers(db, call.tenant, call.request.newId)
    ensures Sound(Handle(db, call.tenant, call.request))
  {
    var t, h := call.tenant, Handle(db, call.tenant, call.request);
    match call.request {
      case Create(newId, now, metadata, items) =>
        CreateAgrees(db, t, newId, now, metadata, items);
        assert h == HandleCreate(db, t, newId, now, metadata, items);
      case CreateItems(id, now, items) =>
        CreateItemsAgrees(db, t, id, now, items);
        assert h == HandleCreateItems(db, t, id, now, items);
      case Update(id, metadata) =>
        UpdateAgrees(db, t, id, metadata);
        assert h == HandleUpdate(db, t, id, metadata);
      case DeleteItem(id, item) =>
        DeleteItemAgrees(db, t, id, item);
        assert h == HandleDeleteItem(db, t, id, item);
      case Delete(id) =>
        DeleteAgrees(db, t, id);
        assert h == HandleDelete(db, t, id);
      case _ =>
        ReadsChangeNothing(db, call);
    }
  }

  /** What a call may do to keys and creation times. */
  predicate Within(db: Db, db': Db, fresh': set<ConversationKey>) {
    && db'.conversations.Keys <= db.conversations.Keys + fresh'
    && (forall key | key in db.conversations && key in db'.conversations ::
          db'.conversations[key].createdAt == db.conversations[key].createdAt)
    && (forall k | k in db'.items && k !in db.items ::
          ConversationKey(k.tenant, k.conversation) in db.conversations.Keys + fresh')
  }

  lemma CreateWithin(db: Db, tenant: string, newId: string, now: int, metadata: MetadataField, items: ItemsField)
    ensures Within(db, HandleCreate(db, tenant, newId, now, metadata, items).db, {ConversationKey(tenant, newId)})
  {
    if AcceptedRows(items, false, now, 1).Some? {
      InsertedKeys(db.items, tenant, newId, AcceptedRows(items, false, now, 1).value);
    }
  }

  lemma CreateItemsWithin(db: Db, tenant: string, id: string, now: int, items: ItemsField)
    ensures Within(db, HandleCreateItems(db, tenant, id, now, items).db, {})
  {
    hide AcceptedRows, InsertRows, MaxPosition, HandleCreateItems, Rows, Summary;
    CreateItemsShape(db, tenant, id, now, items);
    var start := SaturatingAdd(MaxPosition(Rows(db.items, tenant, id)), 1);
    if AcceptedRows(items, true, now, start).Some? {
      InsertedKeys(db.items, tenant, id, AcceptedRows(items, true, now, start).value);
    }
  }

  lemma CallWithin(db: Db, call: Call)
    ensures Within(db, Handle(db, call.tenant, call.request).db, UsedBy(call))
  {
    match call.request {
      case Create(newId, now, metadata, items) => CreateWithin(db, call.tenant, newId, now, metadata, items);
      case CreateItems(id, now, items) => CreateItemsWithin(db, call.tenant, id, now, items);
      case _ =>
    }
  }

  lemma StepAgrees(db: Db, used: set<ConversationKey>, call: Call)
    requires Agrees(db) && Known(db, used) && UsedBy(call) !! used
    ensures var next := Handle(db, call.tenant, call.request).db;
            Agrees(next) && Known(next, used + UsedBy(call)) && Within(db, next, UsedBy(call))
  {
    CallAgrees(db, call);
    CallWithin(db, call);
  }

  /**
   * After every run of requests handled one at a time with fresh conversation ids, each stored
   * conversation's messages are the data of its item rows by (position, item id), and a conversation
   * that is still there was created when it was created.
   */
  lemma {:induction false} RunsAgree(db: Db, used: set<ConversationKey>, calls: seq<Call>)
    requires Agrees(db) && Known(db, used) && FreshIds(used, calls)
    ensures Agrees(RunCalls(db, calls))
    ensures CreationKept(db, used, RunCalls(db, calls))
    decreases |calls|
  {
    if calls != [] {
      StepAgrees(db, used, calls[0]);
      RunsAgree(Handle(db, calls[0].tenant, calls[0].request).db, used + UsedBy(calls[0]), calls[1..]);
    }
  }

  predicate CreationKept(db: Db, used: set<ConversationKey>, later: Db) {
    forall key | key in later.conversations && key in used ::
      key in db.conversations && later.conversations[key].createdAt == db.conversations[key].createdAt
  }

  // ---------------------------------------------------------------------------
  // Creation times
  // ---------------------------------------------------------------------------

  lemma {:induction false} RunAppend(db: Db, a: seq<Call>, b: seq<Call>)
    ensures RunCalls(db, a + b) == RunCalls(RunCalls(db, a), b)
    decreases |a|
  {
    hide Handle;
    if a == [] {
      assert a + b == b;
    } else {
      assert (a + b)[1..] == a[1..] + b;
      RunAppend(Handle(db, a[0].tenant, a[0].request).db, a[1..], b);
    }
  }

  predicate Creates(call: Call, key: ConversationKey, at: int) {
    && call.tenant == key.tenant && call.request.Create?
    && call.request.newId == key.conversation && call.request.now == at
  }

  /** Every conversation was there before with the same creation time, or stems from a create of that time. */
  predicate TimesExplained(db: Db, calls: seq<Call>, later: Db) {
    forall key | key in later.conversations ::
      || (key in db.conversations && later.conversations[key].createdAt == db.conversations[key].createdAt)
      || exists call :: call in calls && Creates(call, key, later.conversations[key].createdAt)
  }

  lemma CallTimes(db: Db, call: Call)
    ensures TimesExplained(db, [call], Handle(db, call.tenant, call.request).db)
  {
    hide AcceptedRows, InsertRows, Rows, Summary, MaxPosition, Page, ListedRows, HandleCreate;
    assert call in [call];
    match call.request {
      case Create(newId, now, metadata, items) => CreateTimes(db, call.tenant, newId, now, metadata, items);
      case _ =>
    }
  }

  lemma CreateTimes(db: Db, tenant: string, id: string, now: int, metadata: MetadataField, items: ItemsField)
    ensures var later := HandleCreate(db, tenant, id, now, metadata, items).db;
            forall key | key in later.conversations ::
              || (key in db.conversations && later.conversations[key].createdAt == db.conversations[key].createdAt)
              || (key == ConversationKey(tenant, id) && later.conversations[key].createdAt == now)
  {
    hide AcceptedRows, InsertRows, DataOf;
  }

  lemma {:induction false} RunTimes(db: Db, calls: seq<Call>)
    ensures TimesExplained(db, calls, RunCalls(db, calls))
    decreases |calls|
  {
    hide Handle, Creates;
    if calls != [] {
      var next := Handle(db, calls[0].tenant, calls[0].request).db;
      CallTimes(db, calls[0]);
      RunTimes(next, calls[1..]);
      assert forall call | call in calls[1..] || call in [calls[0]] :: call in calls;
    }
  }

  function UsedAfter(used: set<ConversationKey>, calls: seq<Call>): set<ConversationKey>
    decreases |calls|
  {
    if calls == [] then used else UsedAfter(used + UsedBy(calls[0]), calls[1..])
  }

  lemma {:induction false} RunKnown(db: Db, used: set<ConversationKey>, a: seq<Call>, b: seq<Call>)
    requires Agrees(db) && Known(db, used) && FreshIds(used, a + b)
    ensures var mid, used' := RunCalls(db, a), UsedAfter(used, a);
            Agrees(mid) && Known(mid, used') && FreshIds(used', b)
    decreases |a|
  {
    hide Handle, Agrees, Known, UsedBy;
    if a == [] {
      assert a + b == b;
    } else {
      assert (a + b)[0] == a[0] && (a + b)[1..] == a[1..] + b;
      StepAgrees(db, used, a[0]);
      RunKnown(Handle(db, a[0].tenant, a[0].request).db, used + UsedBy(a[0]), a[1..], b);
    }
  }

  /**
   * From empty tables and with fresh ids, at any moment of any run: the cache agrees, every stored
   * conversation stems from a create request and carries its time, and keeps it ever after.
   */
  lemma TimesNeverChange(calls: seq<Call>, more: seq<Call>)
    requires FreshIds({}, calls + more)
    ensures var now, later := RunCalls(Db(map[], map[]), calls), RunCalls(Db(map[], map[]), calls + more);
            && Agrees(now)
            && (forall key | key in now.conversations ::
                  exists call :: call in calls && Creates(call, key, now.conversations[key].createdAt))
            && (forall key | key in now.conversations && key in later.conversations ::
                  later.conversations[key].createdAt == now.conversations[key].createdAt)
  {
    hide Creates, Handle, FreshIds, UsedBy;
    var start := Db(map[], map[]);
    var now, used := RunCalls(start, calls), UsedAfter({}, calls);
    RunKnown(start, {}, calls, more);
    RunTimes(start, calls);
    RunAppend(start, calls, more);
    RunsAgree(now, used, more);
  }

  // ---------------------------------------------------------------------------
  // Why the ids must be fresh
  // ---------------------------------------------------------------------------

  lemma OrderedSize(items: ItemTable, tenant: string, id: string)
    ensures |Summary(items, tenant, id)| == |Rows(items, tenant, id)|
  {
  }

  /**
   * Deleting a conversation leaves its item rows behind.  A create that succeeds gives a cache that
   * agrees exactly when no rows were left under the new id.
   */
  lemma CreateAgreesIff(db: Db, tenant: string, newId: string, now: int, metadata: MetadataField, items: ItemsField)
    requires Agrees(db)
    requires HandleCreate(db, tenant, newId, now, metadata, items).reply.Shown?
    ensures AgreesAt(HandleCreate(db, tenant, newId, now, metadata, items).db, ConversationKey(tenant, newId)) <==>
            NoLeftovers(db, tenant, newId)
  {
    hide AcceptedRows, InsertRows, Rows, Ordered, UniqueIds, HasDuplicate, Summary;
    var h := HandleCreate(db, tenant, newId, now, metadata, items);
    AcceptedAreDistinct(items, now);
    if NoLeftovers(db, tenant, newId) {
      CreateAgrees(db, tenant, newId, now, metadata, items);
    } else {
      var rows := AcceptedRows(items, false, now, 1).value;
      InsertedKeys(db.items, tenant, newId, rows);
      LeftoversShow(db.items, h.db.items, tenant, newId, rows);
    }
  }

  lemma AcceptedAreDistinct(items: ItemsField, now: int)
    ensures AcceptedRows(items, false, now, 1).Some? ==> !HasDuplicate(AcceptedRows(items, false, now, 1).value)
  {
  }

  /** Rows left behind make the summary longer than what was created. */
  lemma LeftoversShow(items: ItemTable, more: ItemTable, tenant: string, id: string, rows: seq<Row>)
    requires Rows(more, tenant, id) == Rows(items, tenant, id) + (set x | x in rows)
    requires forall x | x in rows :: ItemKey(tenant, id, x.id) !in items
    requires Rows(items, tenant, id) != {} && !HasDuplicate(rows)
    ensures |Summary(more, tenant, id)| > |rows|
  {
    hide Rows, Ordered, UniqueIds, HasDuplicate;
    var old', new' := Rows(items, tenant, id), set x | x in rows;
    forall x | x in old' ensures x !in rows { RowsContain(items, tenant, id, x); }
    assert old' !! new';
    assert |old' + new'| == |old'| + |new'|;
    DistinctSize(rows);
    OrderedSize(more, tenant, id);
  }

  lemma {:induction false} DistinctSize(rows: seq<Row>)
    requires !HasDuplicate(rows)
    ensures |set x | x in rows| == |rows|
  {
    if rows != [] {
      var rest := rows[1..];
      assert forall i | 0 <= i < |rest| :: rest[i] == rows[i + 1];
      forall x | x in rest ensures x != rows[0] {
        var i :| 0 <= i < |rest| && rest[i] == x;
        assert rows[0].id != rows[i + 1].id;
      }
      DistinctSize(rest);
      assert (set x | x in rows) == {rows[0]} + set x | x in rest;
    }
  }

  /** Create with items, delete, and create again under the same id: the stale rows show through. */
  lemma ReusedIdDisagrees(db: Db, tenant: string, first: Request, again: Request)
    requires Agrees(db)
    requires first.Create? && first.items.Given? && first.items.items != []
    requires again.Create? && again.newId == first.newId
    requires Handle(db, tenant, first).reply.Shown?
    requires var deleted := RunCalls(db, [Call(tenant, first), Call(tenant, Delete(first.newId))]);
             Handle(deleted, tenant, again).reply.Shown?
    ensures var deleted := RunCalls(db, [Call(tenant, first), Call(tenant, Delete(first.newId))]);
            !AgreesAt(Handle(deleted, tenant, again).db, ConversationKey(tenant, first.newId))
  {
    hide Rows, Ordered, Summary, MaxPosition, AcceptedRows, InsertRows;
    var id := first.newId;
    var rows := AcceptedRows(first.items, false, first.now, 1).value;
    var created := Handle(db, tenant, first).db;
    var deleted := Handle(created, tenant, Delete(id)).db;
    TwoCalls(db, Call(tenant, first), Call(tenant, Delete(id)));
    GivenRows(first.items, first.now);
    InsertedKeys(db.items, tenant, id, rows);
    assert rows[0] in Rows(deleted.items, tenant, id);
    OthersAgree(db, deleted, tenant, id);
    CreateAgreesIff(deleted, tenant, id, again.now, again.metadata, again.items);
  }

  lemma GivenRows(items: ItemsField, now: int)
    requires items.Given? && items.items != [] && AcceptedRows(items, false, now, 1).Some?
    ensures AcceptedRows(items, false, now, 1).value != []
  {
  }

  lemma TwoCalls(db: Db, a: Call, b: Call)
    ensures RunCalls(db, [a, b]) == Handle(Handle(db, a.tenant, a.request).db, b.tenant, b.request).db
  {
    hide Handle;
    var calls := [a, b];
    var mid := Handle(db, a.tenant, a.request).db;
    var last := Handle(mid, b.tenant, b.request).db;
    assert calls[1..] == [b] && [b][1..] == [];
    assert RunCalls(last, []) == last;
    assert RunCalls(mid, [b]) == last;
  }
}
