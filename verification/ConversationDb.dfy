/**
 * The conversation tables and what each request does to them.  Requests are parsed: a body that is
 * not a JSON object, or a path segment that is not UTF-8, is `Malformed`; generated ids and the clock
 * are part of the request.
 */
module ConversationDb {
  import opened Prelude
  import opened JsonValues
  import opened ItemOrder

  datatype ConversationKey = ConversationKey(tenant: string, conversation: string)

  datatype ItemKey = ItemKey(tenant: string, conversation: string, item: string)

  datatype Conversation = Conversation(createdAt: int, metadata: Json, messages: seq<Json>)

  datatype Item = Item(data: Json, createdAt: int, position: int)

  type ConversationTable = map<ConversationKey, Conversation>

  type ItemTable = map<ItemKey, Item>

  datatype Db = Db(conversations: ConversationTable, items: ItemTable)

  const I64_MAX: int := 0x7FFF_FFFF_FFFF_FFFF
  const MAX_ITEMS_PER_REQUEST := 20
  const MAX_PAGE_LIMIT: nat := 100

  function SaturatingAdd(a: int, b: int): int { if a + b > I64_MAX then I64_MAX else a + b }

  // ---------------------------------------------------------------------------
  // Queries
  // ---------------------------------------------------------------------------

  function RowOf(key: ItemKey, item: Item): Row { Row(key.item, item.data, item.createdAt, item.position) }

  /** The item rows of one conversation of one tenant. */
  function Rows(items: ItemTable, tenant: string, conversation: string): (s: set<Row>)
    ensures UniqueIds(s)
  {
    set k | k in items && k.tenant == tenant && k.conversation == conversation :: RowOf(k, items[k])
  }

  lemma RowsContain(items: ItemTable, tenant: string, conversation: string, r: Row)
    ensures r in Rows(items, tenant, conversation) <==>
            var k := ItemKey(tenant, conversation, r.id);
            k in items && RowOf(k, items[k]) == r
  {
    var k := ItemKey(tenant, conversation, r.id);
    if k in items && RowOf(k, items[k]) == r {
      assert RowOf(k, items[k]) in Rows(items, tenant, conversation);
    }
  }

  function DataOf(rows: seq<Row>): (data: seq<Json>)
    ensures |data| == |rows| && forall i | 0 <= i < |rows| :: data[i] == rows[i].data
  {
    seq(|rows|, i requires 0 <= i < |rows| => rows[i].data)
  }

  lemma DataOfAppend(a: seq<Row>, b: seq<Row>)
    ensures DataOf(a + b) == DataOf(a) + DataOf(b)
  {
  }

  /** What the message cache of a conversation summarises. */
  function Summary(items: ItemTable, tenant: string, conversation: string): seq<Json> {
    DataOf(Ordered(Rows(items, tenant, conversation)))
  }

  /** `COALESCE(MAX(position), 0)`. */
  function MaxPosition(s: set<Row>): (p: int)
    requires UniqueIds(s)
    ensures forall r | r in s :: r.position <= p
    ensures if s == {} then p == 0 else exists r :: r in s && r.position == p
  {
    if s == {} then 0
    else
      var o := Ordered(s);
      LastIsLargest(o, s);
      o[|o| - 1].position
  }

  lemma LastIsLargest(o: seq<Row>, s: set<Row>)
    requires Lists(o, s) && Sorted(o) && o != []
    ensures o[|o| - 1] in s && forall r | r in s :: r.position <= o[|o| - 1].position
  {
    var last := o[|o| - 1];
    assert last in o;
    forall r | r in s ensures r.position <= last.position {
      var i :| 0 <= i < |o| && o[i] == r;
      if i < |o| - 1 { assert Before(o[i], last); }
    }
  }

  // ---------------------------------------------------------------------------
  // Updates
  // ---------------------------------------------------------------------------

  /** `INSERT ... ON CONFLICT DO UPDATE`: on conflict the creation time is kept. */
  function Upsert(t: ConversationTable, key: ConversationKey, record: Conversation): ConversationTable {
    t[key := if key in t then record.(createdAt := t[key].createdAt) else record]
  }

  /** Inserts in one transaction; a key that exists already undoes all of it. */
  function InsertRows(items: ItemTable, tenant: string, conversation: string, rows: seq<Row>): Option<ItemTable>
    decreases |rows|
  {
    if rows == [] then Some(items)
    else
      var k := ItemKey(tenant, conversation, rows[0].id);
      if k in items then None
      else
        InsertRows(items[k := Item(rows[0].data, rows[0].createdAt, rows[0].position)],
                   tenant, conversation, rows[1..])
  }

  /** Rewrite the message cache from the rows. */
  function Sync(db: Db, tenant: string, conversation: string): Db {
    var key := ConversationKey(tenant, conversation);
    if key !in db.conversations then db
    else db.(conversations :=
             db.conversations[key := db.conversations[key].(messages := Summary(db.items, tenant, conversation))])
  }

  // ---------------------------------------------------------------------------
  // Requests
  // ---------------------------------------------------------------------------

  /** An entry of an `items` array: normalised, with its own or a generated id, or refused. */
  datatype NewItem = NewItem(id: string, data: Json) | RefusedItem

  datatype ItemsField = Missing | NotAnArray | Given(items: seq<NewItem>)

  datatype MetadataField = Absent | NullMetadata | ValidMetadata(m: Json) | InvalidMetadata

  datatype Request =
    | Malformed
    | Create(newId: string, now: int, metadata: MetadataField, items: ItemsField)
    | Get(conversation: string)
    | Update(conversation: string, metadata: MetadataField)
    | Delete(conversation: string)
    | CreateItems(conversation: string, now: int, items: ItemsField)
    | ListItems(conversation: string, after: Option<string>, limit: nat, ascending: bool)
    | GetItem(conversation: string, item: string)
    | DeleteItem(conversation: string, item: string)

  datatype Reply =
    | Shown(id: string, createdAt: int, metadata: Json)
    | Deleted(id: string)
    | Listed(data: seq<Json>, hasMore: bool, firstId: string, lastId: string)
    | ItemShown(item: Json)
    | BadRequest
    | NotFound
    | ServerError

  datatype Handled = Handled(db: Db, reply: Reply)

  function ParseItems(field: ItemsField, required: bool): Option<seq<NewItem>> {
    match field
    case Missing => if required then None else Some([])
    case NotAnArray => None
    case Given(items) => if |items| > MAX_ITEMS_PER_REQUEST then None else Some(items)
  }

  /** Rows for new items, at consecutive positions from `start`; none if any item is refused. */
  function BuildRows(now: int, start: int, items: seq<NewItem>): Option<seq<Row>> {
    if exists i | 0 <= i < |items| :: items[i].RefusedItem? then None
    else Some(seq(|items|, i requires 0 <= i < |items| && items[i].NewItem? =>
                    Row(items[i].id, items[i].data, now, SaturatingAdd(start, i))))
  }

  predicate HasDuplicate(rows: seq<Row>) { exists i, j | 0 <= i < j < |rows| :: rows[i].id == rows[j].id }

  /** The rows a create request asks for, if the request is acceptable. */
  function AcceptedRows(field: ItemsField, required: bool, now: int, start: int): Option<seq<Row>> {
    match ParseItems(field, required)
    case None => None
    case Some(items) =>
      match BuildRows(now, start, items)
      case None => None
      case Some(rows) => if HasDuplicate(rows) then None else Some(rows)
  }

  function ListedRows(rows: seq<Row>, hasMore: bool): Reply {
    Listed(DataOf(rows), hasMore,
           if rows == [] then "" else rows[0].id,
           if rows == [] then "" else rows[|rows| - 1].id)
  }

  function EffectiveLimit(limit: nat): (n: nat)
    ensures 1 <= n <= MAX_PAGE_LIMIT
  {
    if limit < 1 then 1 else if limit > MAX_PAGE_LIMIT then MAX_PAGE_LIMIT else limit
  }

  function HandleCreate(db: Db, tenant: string, newId: string, now: int, metadata: MetadataField,
                        items: ItemsField): Handled {
    if metadata.InvalidMetadata? then Handled(db, BadRequest)
    else
      var m := if metadata.ValidMetadata? then metadata.m else EMPTY_OBJECT;
      match AcceptedRows(items, false, now, 1)
      case None => Handled(db, BadRequest)
      case Some(rows) =>
        var key := ConversationKey(tenant, newId);
        var conversations := Upsert(db.conversations, key, Conversation(now, m, DataOf(rows)));
        match InsertRows(db.items, tenant, newId, rows)
        case None => Handled(Db(conversations, db.items), ServerError)
        case Some(inserted) => Handled(Db(conversations, inserted), Shown(newId, now, m))
  }

  function HandleUpdate(db: Db, tenant: string, id: string, metadata: MetadataField): Handled {
    var key := ConversationKey(tenant, id);
    if metadata.InvalidMetadata? then Handled(db, BadRequest)
    else if key !in db.conversations then Handled(db, NotFound)
    else
      var c := db.conversations[key];
      var m := match metadata case ValidMetadata(m) => m case NullMetadata => EMPTY_OBJECT case _ => c.metadata;
      Handled(db.(conversations := Upsert(db.conversations, key, c.(metadata := m))), Shown(id, c.createdAt, m))
  }

  function HandleDelete(db: Db, tenant: string, id: string): Handled {
    var key := ConversationKey(tenant, id);
    if key !in db.conversations then Handled(db, NotFound)
    else Handled(db.(conversations := db.conversations - {key}), Deleted(id))
  }

  function HandleCreateItems(db: Db, tenant: string, id: string, now: int, items: ItemsField): Handled {
    if ConversationKey(tenant, id) !in db.conversations then Handled(db, NotFound)
    else
      var start := SaturatingAdd(MaxPosition(Rows(db.items, tenant, id)), 1);
      match AcceptedRows(items, true, now, start)
      case None => Handled(db, BadRequest)
      case Some(rows) =>
        if exists i | 0 <= i < |rows| :: ItemKey(tenant, id, rows[i].id) in db.items then Handled(db, BadRequest)
        else
          match InsertRows(db.items, tenant, id, rows)
          case None => Handled(db, ServerError)
          case Some(inserted) =>
            Handled(Sync(db.(items := inserted), tenant, id), ListedRows(rows, false))
  }

  function HandleList(db: Db, tenant: string, id: string, after: Option<string>, limit: nat, ascending: bool): Handled {
    if ConversationKey(tenant, id) !in db.conversations then Handled(db, NotFound)
    else
      var n := EffectiveLimit(limit);
      var rows := Page(Rows(db.items, tenant, id), after, n + 1, ascending);
      Handled(db, ListedRows(Take(rows, n), |rows| > n))
  }

  function HandleGetItem(db: Db, tenant: string, id: string, item: string): Handled {
    var k := ItemKey(tenant, id, item);
    Handled(db, if k in db.items then ItemShown(db.items[k].data) else NotFound)
  }

  function HandleDeleteItem(db: Db, tenant: string, id: string, item: string): Handled {
    var key, k := ConversationKey(tenant, id), ItemKey(tenant, id, item);
    if key !in db.conversations || k !in db.items then Handled(db, NotFound)
    else
      var c := db.conversations[key];
      Handled(Sync(db.(items := db.items - {k}), tenant, id), Shown(id, c.createdAt, c.metadata))
  }

  function Handle(db: Db, tenant: string, r: Request): Handled {
    match r
    case Malformed => Handled(db, BadRequest)
    case Create(newId, now, metadata, items) => HandleCreate(db, tenant, newId, now, metadata, items)
    case Get(id) =>
      var key := ConversationKey(tenant, id);
      Handled(db, if key in db.conversations
                  then Shown(id, db.conversations[key].createdAt, db.conversations[key].metadata)
                  else NotFound)
    case Update(id, metadata) => HandleUpdate(db, tenant, id, metadata)
    case Delete(id) => HandleDelete(db, tenant, id)
    case CreateItems(id, now, items) => HandleCreateItems(db, tenant, id, now, items)
    case ListItems(id, after, limit, ascending) => HandleList(db, tenant, id, after, limit, ascending)
    case GetItem(id, item) => HandleGetItem(db, tenant, id, item)
    case DeleteItem(id, item) => HandleDeleteItem(db, tenant, id, item)
  }

  /** A request and the tenant it comes from. */
  datatype Call = Call(tenant: string, request: Request)

  /** Requests handled one at a time. */
  function RunCalls(db: Db, calls: seq<Call>): Db
    decreases |calls|
  {
    if calls == [] then db else RunCalls(Handle(db, calls[0].tenant, calls[0].request).db, calls[1..])
  }

  // ---------------------------------------------------------------------------
  // Facts about single operations
  // ---------------------------------------------------------------------------

  lemma {:induction false} InsertedKeys(items: ItemTable, tenant: string, conversation: string, rows: seq<Row>)
    ensures var r := InsertRows(items, tenant, conversation, rows);
            r.Some? ==>
              && items.Keys <= r.value.Keys
              && (forall k | k in items :: r.value[k] == items[k])
              && (forall k | k in r.value && k !in items :: k.tenant == tenant && k.conversation == conversation)
              && Rows(r.value, tenant, conversation) == Rows(items, tenant, conversation) + (set x | x in rows)
              && (forall x | x in rows :: ItemKey(tenant, conversation, x.id) !in items)
    decreases |rows|
  {
    if rows != [] {
      var k := ItemKey(tenant, conversation, rows[0].id);
      if k !in items {
        var more := items[k := Item(rows[0].data, rows[0].createdAt, rows[0].position)];
        InsertedKeys(more, tenant, conversation, rows[1..]);
        OneMoreRow(items, tenant, conversation, rows[0]);
        assert (set x | x in rows) == {rows[0]} + set x | x in rows[1..];
      }
    }
  }

  lemma OneMoreRow(items: ItemTable, tenant: string, conversation: string, r: Row)
    requires ItemKey(tenant, conversation, r.id) !in items
    ensures var more := items[ItemKey(tenant, conversation, r.id) := Item(r.data, r.createdAt, r.position)];
            Rows(more, tenant, conversation) == Rows(items, tenant, conversation) + {r}
  {
    var more := items[ItemKey(tenant, conversation, r.id) := Item(r.data, r.createdAt, r.position)];
    forall x ensures x in Rows(more, tenant, conversation) <==> x in Rows(items, tenant, conversation) + {r} {
      RowsContain(more, tenant, conversation, x);
      RowsContain(items, tenant, conversation, x);
    }
  }

  /** Distinct ids that are not in the table yet are always inserted. */
  lemma {:induction false} InsertSucceeds(items: ItemTable, tenant: string, conversation: string, rows: seq<Row>)
    requires !HasDuplicate(rows)
    requires forall i | 0 <= i < |rows| :: ItemKey(tenant, conversation, rows[i].id) !in items
    ensures InsertRows(items, tenant, conversation, rows).Some?
    decreases |rows|
  {
    if rows != [] {
      var k := ItemKey(tenant, conversation, rows[0].id);
      var more := items[k := Item(rows[0].data, rows[0].createdAt, rows[0].position)];
      assert !HasDuplicate(rows[1..]) by {
        forall i, j | 0 <= i < j < |rows[1..]| ensures rows[1..][i].id != rows[1..][j].id {
          assert rows[i + 1].id != rows[j + 1].id;
        }
      }
      forall i | 0 <= i < |rows[1..]| ensures ItemKey(tenant, conversation, rows[1..][i].id) !in more {
        assert rows[0].id != rows[i + 1].id;
      }
      InsertSucceeds(more, tenant, conversation, rows[1..]);
    }
  }
}
