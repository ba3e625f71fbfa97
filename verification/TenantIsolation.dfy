/** Whatever other tenants do, a tenant's replies and rows are those of a run without them. */
module TenantIsolation {
  import opened JsonValues
  import opened ItemOrder
  import opened ConversationDb

  function Conversations(db: Db, tenant: string): ConversationTable {
    map key | key in db.conversations && key.tenant == tenant :: db.conversations[key]
  }

  function Items(db: Db, tenant: string): ItemTable {
    map k | k in db.items && k.tenant == tenant :: db.items[k]
  }

  /** The part of the tables that is a tenant's own. */
  function View(db: Db, tenant: string): Db { Db(Conversations(db, tenant), Items(db, tenant)) }

  /** The replies to one tenant's requests, in order. */
  function RepliesTo(db: Db, calls: seq<Call>, tenant: string): seq<Reply>
    decreases |calls|
  {
    if calls == [] then []
    else
      var h := Handle(db, calls[0].tenant, calls[0].request);
      (if calls[0].tenant == tenant then [h.reply] else []) + RepliesTo(h.db, calls[1..], tenant)
  }

  function Only(calls: seq<Call>, tenant: string): seq<Call> {
    if calls == [] then []
    else (if calls[0].tenant == tenant then [calls[0]] else []) + Only(calls[1..], tenant)
  }

  /** Key by key, what two databases have in common for a tenant. */
  predicate Alike(a: Db, b: Db, tenant: string) {
    && (forall key | key in a.conversations.Keys + b.conversations.Keys && key.tenant == tenant ::
          key in a.conversations && key in b.conversations && a.conversations[key] == b.conversations[key])
    && (forall k | k in a.items.Keys + b.items.Keys && k.tenant == tenant ::
          k in a.items && k in b.items && a.items[k] == b.items[k])
  }

  lemma AlikeIsSameView(a: Db, b: Db, tenant: string)
    ensures Alike(a, b, tenant) <==> View(a, tenant) == View(b, tenant)
  {
    if View(a, tenant) == View(b, tenant) {
      forall key | key in a.conversations.Keys + b.conversations.Keys && key.tenant == tenant
        ensures key in a.conversations && key in b.conversations && a.conversations[key] == b.conversations[key]
      {
        assert key in Conversations(a, tenant) <==> key in Conversations(b, tenant);
        assert Conversations(a, tenant)[key] == Conversations(b, tenant)[key];
      }
      forall k | k in a.items.Keys + b.items.Keys && k.tenant == tenant
        ensures k in a.items && k in b.items && a.items[k] == b.items[k]
      {
        assert k in Items(a, tenant) <==> k in Items(b, tenant);
        assert Items(a, tenant)[k] == Items(b, tenant)[k];
      }
    }
  }

  lemma AlikeRows(a: Db, b: Db, tenant: string, id: string)
    requires Alike(a, b, tenant)
    ensures Rows(a.items, tenant, id) == Rows(b.items, tenant, id)
  {
    forall x ensures x in Rows(a.items, tenant, id) <==> x in Rows(b.items, tenant, id) {
      RowsContain(a.items, tenant, id, x);
      RowsContain(b.items, tenant, id, x);
    }
  }

  lemma {:induction false} AlikeInserts(a: Db, b: Db, tenant: string, id: string, rows: seq<Row>)
    requires Alike(a, b, tenant)
    ensures var x, y := InsertRows(a.items, tenant, id, rows), InsertRows(b.items, tenant, id, rows);
            && (x.Some? <==> y.Some?)
            && (x.Some? ==> Alike(a.(items := x.value), b.(items := y.value), tenant))
    decreases |rows|
  {
    if rows != [] {
      var k := ItemKey(tenant, id, rows[0].id);
      if k !in a.items {
        var item := Item(rows[0].data, rows[0].createdAt, rows[0].position);
        AlikeInserts(a.(items := a.items[k := item]), b.(items := b.items[k := item]), tenant, id, rows[1..]);
      }
    }
  }

  lemma AlikeSync(a: Db, b: Db, tenant: string, id: string)
    requires Alike(a, b, tenant)
    ensures Alike(Sync(a, tenant, id), Sync(b, tenant, id), tenant)
  {
    AlikeRows(a, b, tenant, id);
  }

  /** Two outcomes a tenant cannot tell apart. */
  predicate SameOutcome(x: Handled, y: Handled, tenant: string) { x.reply == y.reply && Alike(x.db, y.db, tenant) }

  lemma AlikeUpserts(a: Db, b: Db, tenant: string, id: string, record: Conversation)
    requires Alike(a, b, tenant)
    ensures var key := ConversationKey(tenant, id);
            Alike(a.(conversations := Upsert(a.conversations, key, record)),
                  b.(conversations := Upsert(b.conversations, key, record)), tenant)
  {
  }

  lemma CreateSeesOwn(a: Db, b: Db, tenant: string, newId: string, now: int, metadata: MetadataField, items: ItemsField)
    requires Alike(a, b, tenant)
    ensures SameOutcome(HandleCreate(a, tenant, newId, now, metadata, items),
                        HandleCreate(b, tenant, newId, now, metadata, items), tenant)
  {
    hide AcceptedRows, InsertRows, DataOf, Alike, Upsert;
    var rows := AcceptedRows(items, false, now, 1);
    if rows.Some? && !metadata.InvalidMetadata? {
      var m := if metadata.ValidMetadata? then metadata.m else EMPTY_OBJECT;
      var key, record := ConversationKey(tenant, newId), Conversation(now, m, DataOf(rows.value));
      AlikeUpserts(a, b, tenant, newId, record);
      AlikeInserts(a.(conversations := Upsert(a.conversations, key, record)),
                   b.(conversations := Upsert(b.conversations, key, record)), tenant, newId, rows.value);
    }
  }

  lemma AlikeKeys(a: Db, b: Db, tenant: string, id: string)
    requires Alike(a, b, tenant)
    ensures ConversationKey(tenant, id) in a.conversations <==> ConversationKey(tenant, id) in b.conversations
    ensures forall item :: ItemKey(tenant, id, item) in a.items <==> ItemKey(tenant, id, item) in b.items
  {
  }

  lemma CreateItemsSeesOwn(a: Db, b: Db, tenant: string, id: string, now: int, items: ItemsField)
    requires Alike(a, b, tenant)
    ensures SameOutcome(HandleCreateItems(a, tenant, id, now, items),
                        HandleCreateItems(b, tenant, id, now, items), tenant)
  {
    hide AcceptedRows, InsertRows, Rows, MaxPosition, Sync, Alike, ListedRows;
    AlikeKeys(a, b, tenant, id);
    AlikeRows(a, b, tenant, id);
    var start := SaturatingAdd(MaxPosition(Rows(a.items, tenant, id)), 1);
    var rows := AcceptedRows(items, true, now, start);
    if rows.Some? {
      AlikeInserts(a, b, tenant, id, rows.value);
      var x, y := InsertRows(a.items, tenant, id, rows.value), InsertRows(b.items, tenant, id, rows.value);
      if x.Some? { AlikeSync(a.(items := x.value), b.(items := y.value), tenant, id); }
    }
  }

  lemma DeleteItemSeesOwn(a: Db, b: Db, tenant: string, id: string, item: string)
    requires Alike(a, b, tenant)
    ensures SameOutcome(HandleDeleteItem(a, tenant, id, item), HandleDeleteItem(b, tenant, id, item), tenant)
  {
    var k := ItemKey(tenant, id, item);
    AlikeSync(a.(items := a.items - {k}), b.(items := b.items - {k}), tenant, id);
  }

  lemma UpdateSeesOwn(a: Db, b: Db, tenant: string, id: string, metadata: MetadataField)
    requires Alike(a, b, tenant)
    ensures SameOutcome(HandleUpdate(a, tenant, id, metadata), HandleUpdate(b, tenant, id, metadata), tenant)
  {
  }

  lemma DeleteSeesOwn(a: Db, b: Db, tenant: string, id: string)
    requires Alike(a, b, tenant)
    ensures SameOutcome(HandleDelete(a, tenant, id), HandleDelete(b, tenant, id), tenant)
  {
  }

  lemma ReadSeesOwn(a: Db, b: Db, tenant: string, r: Request)
    requires Alike(a, b, tenant) && (r.Malformed? || r.Get? || r.ListItems? || r.GetItem?)
    ensures SameOutcome(Handle(a, tenant, r), Handle(b, tenant, r), tenant)
  {
    hide Page, Rows, ListedRows;
    if r.ListItems? { AlikeRows(a, b, tenant, r.conversation); }
  }

  /** A request's reply and effect depend only on its own tenant's rows. */
  lemma OwnCall(a: Db, b: Db, tenant: string, r: Request)
    requires Alike(a, b, tenant)
    ensures SameOutcome(Handle(a, tenant, r), Handle(b, tenant, r), tenant)
  {
    hide HandleCreate, HandleCreateItems, HandleDeleteItem, HandleUpdate, HandleDelete, Alike, SameOutcome;
    match r {
      case Create(newId, now, metadata, items) => CreateSeesOwn(a, b, tenant, newId, now, metadata, items);
      case CreateItems(id, now, items) => CreateItemsSeesOwn(a, b, tenant, id, now, items);
      case DeleteItem(id, item) => DeleteItemSeesOwn(a, b, tenant, id, item);
      case Update(id, metadata) => UpdateSeesOwn(a, b, tenant, id, metadata);
      case Delete(id) => DeleteSeesOwn(a, b, tenant, id);
      case _ => ReadSeesOwn(a, b, tenant, r);
    }
  }

  lemma OthersCreate(db: Db, tenant: string, other: string, id: string, now: int, metadata: MetadataField,
                     items: ItemsField)
    requires other != tenant
    ensures Alike(db, HandleCreate(db, other, id, now, metadata, items).db, tenant)
  {
    hide AcceptedRows, InsertRows, Rows, DataOf;
    var rows := AcceptedRows(items, false, now, 1);
    if rows.Some? { InsertedKeys(db.items, other, id, rows.value); }
  }

  lemma InsertIsAlike(db: Db, tenant: string, other: string, id: string, rows: seq<Row>)
    requires other != tenant && InsertRows(db.items, other, id, rows).Some?
    ensures Alike(db, db.(items := InsertRows(db.items, other, id, rows).value), tenant)
  {
    hide InsertRows, Rows;
    InsertedKeys(db.items, other, id, rows);
  }

  lemma SyncIsAlike(db: Db, tenant: string, other: string, id: string)
    requires other != tenant
    ensures Alike(db, Sync(db, other, id), tenant)
  {
    hide Summary;
  }

  lemma AlikeTransitive(a: Db, b: Db, c: Db, tenant: string)
    requires Alike(a, b, tenant) && Alike(b, c, tenant)
    ensures Alike(a, c, tenant)
  {
    assert forall key | key in c.conversations && key.tenant == tenant :: key in b.conversations;
    assert forall k | k in c.items && k.tenant == tenant :: k in b.items;
  }

  lemma OthersCreateItems(db: Db, tenant: string, other: string, id: string, now: int, items: ItemsField)
    requires other != tenant
    ensures Alike(db, HandleCreateItems(db, other, id, now, items).db, tenant)
  {
    hide AcceptedRows, InsertRows, Rows, MaxPosition, ListedRows, Sync, Alike;
    SameIsAlike(db, tenant);
    var start := SaturatingAdd(MaxPosition(Rows(db.items, other, id)), 1);
    var rows := AcceptedRows(items, true, now, start);
    if rows.Some? && InsertRows(db.items, other, id, rows.value).Some? {
      var inserted := db.(items := InsertRows(db.items, other, id, rows.value).value);
      InsertIsAlike(db, tenant, other, id, rows.value);
      SyncIsAlike(inserted, tenant, other, id);
      AlikeTransitive(db, inserted, Sync(inserted, other, id), tenant);
    }
  }

  lemma SameIsAlike(db: Db, tenant: string)
    ensures Alike(db, db, tenant)
  {
  }

  lemma OthersDeleteItem(db: Db, tenant: string, other: string, id: string, item: string)
    requires other != tenant
    ensures Alike(db, HandleDeleteItem(db, other, id, item).db, tenant)
  {
    hide Sync;
    var less := db.(items := db.items - {ItemKey(other, id, item)});
    SyncIsAlike(less, tenant, other, id);
    AlikeTransitive(db, less, Sync(less, other, id), tenant);
  }

  /** Another tenant's request changes none of a tenant's rows. */
  lemma OthersCall(db: Db, tenant: string, other: string, r: Request)
    requires other != tenant
    ensures Alike(db, Handle(db, other, r).db, tenant)
  {
    hide HandleCreate, HandleCreateItems, HandleDeleteItem, Page, ListedRows;
    match r {
      case Create(newId, now, metadata, items) => OthersCreate(db, tenant, other, newId, now, metadata, items);
      case CreateItems(id, now, items) => OthersCreateItems(db, tenant, other, id, now, items);
      case DeleteItem(id, item) => OthersDeleteItem(db, tenant, other, id, item);
      case _ =>
    }
  }

  /** For every run: a tenant's replies and rows equal those of the run with all others' requests removed. */
  lemma {:induction false} TenantsAreIndependent(a: Db, b: Db, calls: seq<Call>, tenant: string)
    requires View(a, tenant) == View(b, tenant)
    ensures RepliesTo(a, calls, tenant) == RepliesTo(b, Only(calls, tenant), tenant)
    ensures View(RunCalls(a, calls), tenant) == View(RunCalls(b, Only(calls, tenant)), tenant)
    decreases |calls|
  {
    AlikeIsSameView(a, b, tenant);
    if calls != [] {
      var call := calls[0];
      var a' := Handle(a, call.tenant, call.request).db;
      if call.tenant == tenant {
        var b' := Handle(b, tenant, call.request).db;
        OwnCall(a, b, tenant, call.request);
        AlikeIsSameView(a', b', tenant);
        assert Only(calls, tenant)[1..] == Only(calls[1..], tenant);
        TenantsAreIndependent(a', b', calls[1..], tenant);
      } else {
        OthersCall(a, tenant, call.tenant, call.request);
        AlikeIsSameView(a, a', tenant);
        assert Only(calls, tenant) == [] + Only(calls[1..], tenant) == Only(calls[1..], tenant);
        TenantsAreIndependent(a', b, calls[1..], tenant);
      }
    }
  }
}
