/**
 * What a client that has seen every request and reply can tell: which conversations and items are
 * stored, and what each further request is answered.
 */
module ConversationHistory {
  import opened Prelude
  import opened JsonValues
  import opened ItemOrder
  import opened ConversationDb
  import opened CacheAgreement
  import StoreLaws

  datatype Exchange = Exchange(call: Call, reply: Reply)

  /** The requests of a run with their replies. */
  function Exchanges(db: Db, calls: seq<Call>): seq<Exchange> {
    if calls == [] then []
    else
      var init, last := calls[..|calls| - 1], calls[|calls| - 1];
      Exchanges(db, init) + [Exchange(last, Handle(RunCalls(db, init), last.tenant, last.request).reply)]
  }

  // ---------------------------------------------------------------------------
  // Reading the history
  // ---------------------------------------------------------------------------

  datatype Kept = Kept(createdAt: int, metadata: Json)

  datatype Noted = Noted(data: Json, createdAt: int)

  predicate IsCreate(e: Exchange, key: ConversationKey) {
    match e
    case Exchange(Call(tenant, Create(newId, _, _, _)), reply) =>
      tenant == key.tenant && newId == key.conversation && (reply.Shown? || reply.ServerError?)
    case _ => false
  }

  predicate IsDelete(e: Exchange, key: ConversationKey) {
    match e
    case Exchange(Call(tenant, Delete(id)), Deleted(_)) => tenant == key.tenant && id == key.conversation
    case _ => false
  }

  /** What an update asks for, over the metadata there is. */
  function Updated(metadata: MetadataField, current: Json): Json {
    match metadata
    case ValidMetadata(m) => m
    case NullMetadata => Obj([])
    case _ => current
  }

  /** Under a known id the creation time stays, whatever the reply says. */
  function KeptAfter(kept: Option<Kept>, key: ConversationKey, e: Exchange): Option<Kept> {
    match e
    case Exchange(Call(_, Create(_, now, metadata, _)), _) =>
      if !IsCreate(e, key) then kept
      else Some(Kept(match kept { case Some(k) => k.createdAt case None => now }, Updated(metadata, Obj([]))))
    case Exchange(Call(tenant, Update(id, metadata)), Shown(_, _, _)) =>
      if tenant != key.tenant || id != key.conversation || kept.None? then kept
      else Some(Kept(kept.value.createdAt, Updated(metadata, kept.value.metadata)))
    case _ => if IsDelete(e, key) then None else kept
  }

  /** The items a request offers. */
  function Offered(field: ItemsField): seq<NewItem> {
    match field
    case Given(items) => items
    case _ => []
  }

  function ItemGiven(items: seq<NewItem>, id: string, now: int, otherwise: Option<Noted>): Option<Noted> {
    if items == [] then otherwise
    else match items[0]
         case NewItem(given, data) =>
           if given == id then Some(Noted(data, now)) else ItemGiven(items[1..], id, now, otherwise)
         case RefusedItem => ItemGiven(items[1..], id, now, otherwise)
  }

  /** Deleting a conversation leaves its items. */
  function NotedAfter(noted: Option<Noted>, k: ItemKey, e: Exchange): Option<Noted> {
    if e.call.tenant != k.tenant then noted
    else match (e.call.request, e.reply)
         case (Create(newId, now, _, field), Shown(_, _, _)) =>
           if newId != k.conversation then noted else ItemGiven(Offered(field), k.item, now, noted)
         case (CreateItems(id, now, field), Listed(_, _, _, _)) =>
           if id != k.conversation then noted else ItemGiven(Offered(field), k.item, now, noted)
         case (DeleteItem(id, item), Shown(_, _, _)) =>
           if id == k.conversation && item == k.item then None else noted
         case _ => noted
  }

  function StoredAt(db: Db, key: ConversationKey): Option<Kept> {
    if key !in db.conversations then None
    else Some(Kept(db.conversations[key].createdAt, db.conversations[key].metadata))
  }

  function NotedAt(db: Db, k: ItemKey): Option<Noted> {
    if k in db.items then Some(Noted(db.items[k].data, db.items[k].createdAt)) else None
  }

  function KeptIn(start: Db, h: seq<Exchange>, key: ConversationKey): Option<Kept> {
    if h == [] then StoredAt(start, key)
    else KeptAfter(KeptIn(start, h[..|h| - 1], key), key, h[|h| - 1])
  }

  function NotedIn(start: Db, h: seq<Exchange>, k: ItemKey): Option<Noted> {
    if h == [] then NotedAt(start, k) else NotedAfter(NotedIn(start, h[..|h| - 1], k), k, h[|h| - 1])
  }

  // ---------------------------------------------------------------------------
  // The tables are what the history tells
  // ---------------------------------------------------------------------------

  lemma CallKept(db: Db, call: Call, key: ConversationKey)
    ensures var h := Handle(db, call.tenant, call.request);
            StoredAt(h.db, key) == KeptAfter(StoredAt(db, key), key, Exchange(call, h.reply))
  {
    hide AcceptedRows, InsertRows, Rows, Summary, MaxPosition, Page, ListedRows, DataOf;
  }

  function NotedAmong(items: ItemTable, k: ItemKey): Option<Noted> {
    if k in items then Some(Noted(items[k].data, items[k].createdAt)) else None
  }

  predicate RowsFor(rows: seq<Row>, given: seq<NewItem>, now: int) {
    && |rows| == |given|
    && forall i | 0 <= i < |given| ::
         given[i].NewItem? && rows[i].id == given[i].id && rows[i].data == given[i].data && rows[i].createdAt == now
  }

  lemma RowsForGiven(field: ItemsField, required: bool, now: int, start: int)
    requires AcceptedRows(field, required, now, start).Some?
    ensures RowsFor(AcceptedRows(field, required, now, start).value, Offered(field), now)
  {
  }

  lemma {:induction false} InsertedNotes(items: ItemTable, rows: seq<Row>, given: seq<NewItem>, now: int, k: ItemKey)
    requires RowsFor(rows, given, now)
    requires InsertRows(items, k.tenant, k.conversation, rows).Some?
    ensures NotedAmong(InsertRows(items, k.tenant, k.conversation, rows).value, k) ==
            ItemGiven(given, k.item, now, NotedAmong(items, k))
    decreases |rows|
  {
    if rows != [] {
      var more := items[ItemKey(k.tenant, k.conversation, rows[0].id) :=
                        Item(rows[0].data, rows[0].createdAt, rows[0].position)];
      if given[0].id == k.item {
        InsertedKeys(more, k.tenant, k.conversation, rows[1..]);
      } else {
        InsertedNotes(more, rows[1..], given[1..], now, k);
      }
    }
  }

  lemma InsertNotes(items: ItemTable, tenant: string, id: string, field: ItemsField, required: bool, now: int,
                    start: int, k: ItemKey)
    requires AcceptedRows(field, required, now, start).Some?
    requires InsertRows(items, tenant, id, AcceptedRows(field, required, now, start).value).Some?
    ensures NotedAmong(InsertRows(items, tenant, id, AcceptedRows(field, required, now, start).value).value, k) ==
            if tenant != k.tenant || id != k.conversation then NotedAmong(items, k)
            else ItemGiven(Offered(field), k.item, now, NotedAmong(items, k))
  {
    hide AcceptedRows, InsertRows;
    var rows := AcceptedRows(field, required, now, start).value;
    RowsForGiven(field, required, now, start);
    if tenant != k.tenant || id != k.conversation {
      InsertElsewhere(items, tenant, id, rows);
    } else {
      InsertedNotes(items, rows, Offered(field), now, k);
    }
  }

  lemma CreateNoted(db: Db, call: Call, k: ItemKey)
    requires call.request.Create?
    ensures var h := Handle(db, call.tenant, call.request);
            NotedAt(h.db, k) == NotedAfter(NotedAt(db, k), k, Exchange(call, h.reply))
  {
    hide AcceptedRows, InsertRows, DataOf, ItemGiven;
    var r := call.request;
    var rows := AcceptedRows(r.items, false, r.now, 1);
    if rows.Some? && InsertRows(db.items, call.tenant, r.newId, rows.value).Some? {
      InsertNotes(db.items, call.tenant, r.newId, r.items, false, r.now, 1, k);
    }
  }

  lemma CreateItemsNoted(db: Db, call: Call, k: ItemKey)
    requires call.request.CreateItems?
    ensures var h := Handle(db, call.tenant, call.request);
            NotedAt(h.db, k) == NotedAfter(NotedAt(db, k), k, Exchange(call, h.reply))
  {
    hide AcceptedRows, InsertRows, DataOf, ItemGiven, MaxPosition, Rows, HandleCreateItems, Summary;
    var r := call.request;
    CreateItemsShape(db, call.tenant, r.conversation, r.now, r.items);
    var start := SaturatingAdd(MaxPosition(Rows(db.items, call.tenant, r.conversation)), 1);
    if HandleCreateItems(db, call.tenant, r.conversation, r.now, r.items).reply.Listed? {
      InsertNotes(db.items, call.tenant, r.conversation, r.items, true, r.now, start, k);
    }
  }

  lemma CallNoted(db: Db, call: Call, k: ItemKey)
    ensures var h := Handle(db, call.tenant, call.request);
            NotedAt(h.db, k) == NotedAfter(NotedAt(db, k), k, Exchange(call, h.reply))
  {
    hide AcceptedRows, InsertRows, Rows, Summary, MaxPosition, Page, ListedRows, DataOf, ItemGiven, HandleCreateItems,
         HandleCreate;
    match call.request {
      case Create(_, _, _, _) => CreateNoted(db, call, k);
      case CreateItems(_, _, _) => CreateItemsNoted(db, call, k);
      case _ =>
    }
  }

  lemma RunSnoc(start: Db, calls: seq<Call>)
    requires calls != []
    ensures var init, last := calls[..|calls| - 1], calls[|calls| - 1];
            RunCalls(start, calls) == Handle(RunCalls(start, init), last.tenant, last.request).db
  {
    hide Handle;
    var init, last := calls[..|calls| - 1], calls[|calls| - 1];
    assert calls == init + [last];
    RunAppend(start, init, [last]);
    StoreLaws.OneCall(RunCalls(start, init), last);
  }

  /** After every run, what is stored is what its requests and replies tell. */
  lemma {:induction false} StoredIsTold(start: Db, calls: seq<Call>, key: ConversationKey, k: ItemKey)
    ensures StoredAt(RunCalls(start, calls), key) == KeptIn(start, Exchanges(start, calls), key)
    ensures NotedAt(RunCalls(start, calls), k) == NotedIn(start, Exchanges(start, calls), k)
    decreases |calls|
  {
    if calls != [] {
      hide Handle, KeptAfter, NotedAfter, StoredAt, NotedAt, RunCalls;
      var init, last := calls[..|calls| - 1], calls[|calls| - 1];
      StoredIsTold(start, init, key, k);
      RunSnoc(start, calls);
      CallKept(RunCalls(start, init), last, key);
      CallNoted(RunCalls(start, init), last, k);
      LastAdded(Exchanges(start, init),
                Exchange(last, Handle(RunCalls(start, init), last.tenant, last.request).reply));
    }
  }

  // ---------------------------------------------------------------------------
  // Every reply is what the history says it must be
  // ---------------------------------------------------------------------------

  /** At most 20 items, none refused, no id twice. */
  predicate Acceptable(field: ItemsField, required: bool) {
    match field
    case Missing => !required
    case NotAnArray => false
    case Given(items) =>
      && |items| <= 20
      && (forall i | 0 <= i < |items| :: items[i].NewItem?)
      && forall i, j | 0 <= i < j < |items| :: items[i].id != items[j].id
  }

  /** One of the ids is taken. */
  ghost predicate Taken(start: Db, h: seq<Exchange>, tenant: string, id: string, field: ItemsField) {
    exists i | 0 <= i < |Offered(field)| ::
      Offered(field)[i].NewItem? && NotedIn(start, h, ItemKey(tenant, id, Offered(field)[i].id)).Some?
  }

  function Echo(items: seq<NewItem>): Reply
    requires forall i | 0 <= i < |items| :: items[i].NewItem?
  {
    Listed(seq(|items|, i requires 0 <= i < |items| => items[i].data), false,
           if items == [] then "" else items[0].id,
           if items == [] then "" else items[|items| - 1].id)
  }

  /** The reply to each request, from the requests and replies before it. */
  ghost predicate Answers(start: Db, h: seq<Exchange>, call: Call, reply: Reply) {
    var t := call.tenant;
    match call.request
    case Malformed => reply == BadRequest
    case Create(newId, now, metadata, field) =>
      if metadata.InvalidMetadata? || !Acceptable(field, false) then reply == BadRequest
      else if Taken(start, h, t, newId, field) then reply == ServerError
      else reply == Shown(newId, now, Updated(metadata, Obj([])))
    case Get(id) =>
      (match KeptIn(start, h, ConversationKey(t, id))
       case None => reply == NotFound
       case Some(Kept(at, m)) => reply == Shown(id, at, m))
    case Update(id, metadata) =>
      if metadata.InvalidMetadata? then reply == BadRequest
      else (match KeptIn(start, h, ConversationKey(t, id))
            case None => reply == NotFound
            case Some(Kept(at, m)) => reply == Shown(id, at, Updated(metadata, m)))
    case Delete(id) => reply == if KeptIn(start, h, ConversationKey(t, id)).None? then NotFound else Deleted(id)
    case CreateItems(id, now, field) =>
      if KeptIn(start, h, ConversationKey(t, id)).None? then reply == NotFound
      else if !Acceptable(field, true) || Taken(start, h, t, id, field) then reply == BadRequest
      else reply == Echo(field.items)
    case ListItems(id, _, _, _) =>
      if KeptIn(start, h, ConversationKey(t, id)).None? then reply == NotFound else reply.Listed?
    case GetItem(id, item) =>
      (match NotedIn(start, h, ItemKey(t, id, item))
       case None => reply == NotFound
       case Some(Noted(data, _)) => reply == ItemShown(data))
    case DeleteItem(id, item) =>
      (match KeptIn(start, h, ConversationKey(t, id))
       case None => reply == NotFound
       case Some(Kept(at, m)) =>
         reply == if NotedIn(start, h, ItemKey(t, id, item)).None? then NotFound else Shown(id, at, m))
  }
  lemma AcceptedIff(field: ItemsField, required: bool, now: int, start: int)
    ensures AcceptedRows(field, required, now, start).Some? <==> Acceptable(field, required)
    ensures AcceptedRows(field, required, now, start).Some? ==>
              && RowsFor(AcceptedRows(field, required, now, start).value, Offered(field), now)
              && !HasDuplicate(AcceptedRows(field, required, now, start).value)
  {
    if field.Given? {
      var items := field.items;
      var rows := BuildRows(now, start, items);
      if rows.Some? {
        assert forall i | 0 <= i < |items| :: rows.value[i].id == items[i].id;
      }
    }
  }

  predicate Clashes(items: ItemTable, tenant: string, id: string, rows: seq<Row>) {
    exists i | 0 <= i < |rows| :: ItemKey(tenant, id, rows[i].id) in items
  }

  lemma InsertedIff(items: ItemTable, tenant: string, id: string, rows: seq<Row>)
    requires !HasDuplicate(rows)
    ensures InsertRows(items, tenant, id, rows).Some? <==> !Clashes(items, tenant, id, rows)
  {
    hide InsertRows, HasDuplicate, Rows;
    if Clashes(items, tenant, id, rows) {
      InsertedKeys(items, tenant, id, rows);
    } else {
      InsertSucceeds(items, tenant, id, rows);
    }
  }

  lemma TakenIff(start: Db, calls: seq<Call>, tenant: string, id: string, field: ItemsField, rows: seq<Row>, now: int)
    requires RowsFor(rows, Offered(field), now)
    ensures Taken(start, Exchanges(start, calls), tenant, id, field) <==>
            Clashes(RunCalls(start, calls).items, tenant, id, rows)
  {
    hide NotedIn, RunCalls, Exchanges, KeptIn;
    var h, db, given := Exchanges(start, calls), RunCalls(start, calls), Offered(field);
    forall i | 0 <= i < |given|
      ensures NotedIn(start, h, ItemKey(tenant, id, given[i].id)).Some? <==> ItemKey(tenant, id, rows[i].id) in db.items
    {
      StoredIsTold(start, calls, ConversationKey("", ""), ItemKey(tenant, id, given[i].id));
    }
  }

  lemma CreateAnswers(start: Db, calls: seq<Call>, call: Call)
    requires call.request.Create?
    ensures Answers(start, Exchanges(start, calls), call,
                    Handle(RunCalls(start, calls), call.tenant, call.request).reply)
  {
    hide AcceptedRows, InsertRows, Acceptable, RowsFor, Taken, Clashes, HasDuplicate, RunCalls, Exchanges, DataOf;
    var r, db := call.request, RunCalls(start, calls);
    AcceptedIff(r.items, false, r.now, 1);
    var rows := AcceptedRows(r.items, false, r.now, 1);
    if rows.Some? {
      InsertedIff(db.items, call.tenant, r.newId, rows.value);
      TakenIff(start, calls, call.tenant, r.newId, r.items, rows.value, r.now);
    }
  }

  lemma EchoIsListed(rows: seq<Row>, given: seq<NewItem>, now: int)
    requires RowsFor(rows, given, now)
    ensures ListedRows(rows, false) == Echo(given)
  {
    assert DataOf(rows) == seq(|given|, i requires 0 <= i < |given| => given[i].data);
  }

  lemma CreateItemsAnswers(start: Db, calls: seq<Call>, call: Call)
    requires call.request.CreateItems?
    ensures Answers(start, Exchanges(start, calls), call,
                    Handle(RunCalls(start, calls), call.tenant, call.request).reply)
  {
    hide AcceptedRows, InsertRows, RowsFor, Taken, Clashes, HasDuplicate, RunCalls, Exchanges, DataOf, Rows,
         MaxPosition, KeptIn, Echo, ListedRows, Sync;
    var r, db := call.request, RunCalls(start, calls);
    var from := SaturatingAdd(MaxPosition(Rows(db.items, call.tenant, r.conversation)), 1);
    StoredIsTold(start, calls, ConversationKey(call.tenant, r.conversation), ItemKey("", "", ""));
    AcceptedIff(r.items, true, r.now, from);
    var rows := AcceptedRows(r.items, true, r.now, from);
    if rows.Some? {
      InsertedIff(db.items, call.tenant, r.conversation, rows.value);
      TakenIff(start, calls, call.tenant, r.conversation, r.items, rows.value, r.now);
      EchoIsListed(rows.value, Offered(r.items), r.now);
      ClashesMeans(db.items, call.tenant, r.conversation, rows.value);
    }
  }

  lemma ClashesMeans(items: ItemTable, tenant: string, id: string, rows: seq<Row>)
    ensures Clashes(items, tenant, id, rows) <==> exists i | 0 <= i < |rows| :: ItemKey(tenant, id, rows[i].id) in items
  {
  }

  lemma OtherAnswers(start: Db, calls: seq<Call>, call: Call)
    requires !call.request.Create? && !call.request.CreateItems?
    ensures Answers(start, Exchanges(start, calls), call,
                    Handle(RunCalls(start, calls), call.tenant, call.request).reply)
  {
    hide RunCalls, Exchanges, DataOf, Rows, KeptIn, NotedIn, Sync, Page, Take, EffectiveLimit;
    match call.request {
      case GetItem(id, item) => StoredIsTold(start, calls, ConversationKey("", ""), ItemKey(call.tenant, id, item));
      case DeleteItem(id, item) =>
        StoredIsTold(start, calls, ConversationKey(call.tenant, id), ItemKey(call.tenant, id, item));
      case Malformed =>
      case Get(id) => StoredIsTold(start, calls, ConversationKey(call.tenant, id), ItemKey("", "", ""));
      case Update(id, _) => StoredIsTold(start, calls, ConversationKey(call.tenant, id), ItemKey("", "", ""));
      case Delete(id) => StoredIsTold(start, calls, ConversationKey(call.tenant, id), ItemKey("", "", ""));
      case ListItems(id, _, _, _) => StoredIsTold(start, calls, ConversationKey(call.tenant, id), ItemKey("", "", ""));
    }
  }

  /** After every run, every request is answered as the requests and replies before it say. */
  lemma RepliesAreTold(start: Db, calls: seq<Call>, call: Call)
    ensures Answers(start, Exchanges(start, calls), call,
                    Handle(RunCalls(start, calls), call.tenant, call.request).reply)
  {
    hide Answers;
    match call.request {
      case Create(_, _, _, _) => CreateAnswers(start, calls, call);
      case CreateItems(_, _, _) => CreateItemsAnswers(start, calls, call);
      case _ => OtherAnswers(start, calls, call);
    }
  }

  // ---------------------------------------------------------------------------
  // Deleted is gone
  // ---------------------------------------------------------------------------

  /** The k-th exchange is the last that created or deleted the conversation. */
  predicate LastEffective(h: seq<Exchange>, key: ConversationKey, k: int) {
    && 0 <= k < |h| && (IsCreate(h[k], key) || IsDelete(h[k], key))
    && forall j | k < j < |h| :: !IsCreate(h[j], key) && !IsDelete(h[j], key)
  }

  lemma {:induction false} KeptUnlessEffective(start: Db, h: seq<Exchange>, key: ConversationKey, k: nat)
    requires k <= |h| && forall j | k <= j < |h| :: !IsCreate(h[j], key) && !IsDelete(h[j], key)
    ensures KeptIn(start, h, key).Some? <==> KeptIn(start, h[..k], key).Some?
    decreases |h|
  {
    if k == |h| {
      assert h[..k] == h;
    } else {
      hide IsCreate, IsDelete;
      var init := h[..|h| - 1];
      assert init[..k] == h[..k];
      assert !IsCreate(h[|h| - 1], key) && !IsDelete(h[|h| - 1], key);
      KeptUnlessEffective(start, init, key, k);
    }
  }

  /**
   * A conversation is stored exactly when the last request that created or deleted it created it, or
   * there was none and it was stored at the start.
   */
  lemma StoredIff(start: Db, calls: seq<Call>, key: ConversationKey)
    ensures var h, now := Exchanges(start, calls), RunCalls(start, calls);
            && (forall k | LastEffective(h, key, k) :: key in now.conversations <==> IsCreate(h[k], key))
            && ((forall k :: !LastEffective(h, key, k)) ==>
                  (key in now.conversations <==> key in start.conversations))
  {
    hide IsCreate, IsDelete, RunCalls, Exchanges;
    var h := Exchanges(start, calls);
    StoredIsTold(start, calls, key, ItemKey("", "", ""));
    forall k | LastEffective(h, key, k) ensures KeptIn(start, h, key).Some? <==> IsCreate(h[k], key) {
      KeptUnlessEffective(start, h, key, k + 1);
      EffectiveDecides(start, h, key, k);
    }
    if forall k :: !LastEffective(h, key, k) {
      NeverEffective(h, key, |h|);
      KeptUnlessEffective(start, h, key, 0);
    }
  }

  lemma EffectiveDecides(start: Db, h: seq<Exchange>, key: ConversationKey, k: nat)
    requires k < |h| && (IsCreate(h[k], key) || IsDelete(h[k], key))
    ensures KeptIn(start, h[..k + 1], key).Some? <==> IsCreate(h[k], key)
  {
    assert h[..k + 1][|h[..k + 1]| - 1] == h[k];
  }

  lemma {:induction false} NeverEffective(h: seq<Exchange>, key: ConversationKey, n: nat)
    requires n <= |h| && forall k :: !LastEffective(h, key, k)
    requires forall j | n <= j < |h| :: !IsCreate(h[j], key) && !IsDelete(h[j], key)
    ensures forall j | 0 <= j < |h| :: !IsCreate(h[j], key) && !IsDelete(h[j], key)
    decreases n
  {
    hide IsCreate, IsDelete;
    if n > 0 {
      assert !LastEffective(h, key, n - 1);
      NeverEffective(h, key, n - 1);
    }
  }

  /** From its deletion until it is created again, every request about a conversation is answered `NotFound`. */
  lemma DeletedIsGone(start: Db, calls: seq<Call>, key: ConversationKey, d: nat, request: Request)
    requires var h := Exchanges(start, calls);
             d < |h| && IsDelete(h[d], key) && forall j | d < j < |h| :: !IsCreate(h[j], key)
    requires match request
             case Get(id) => id == key.conversation
             case Update(id, metadata) => id == key.conversation && !metadata.InvalidMetadata?
             case Delete(id) => id == key.conversation
             case CreateItems(id, _, _) => id == key.conversation
             case ListItems(id, _, _, _) => id == key.conversation
             case DeleteItem(id, _) => id == key.conversation
             case _ => false
    ensures Handle(RunCalls(start, calls), key.tenant, request).reply == NotFound
  {
    hide IsCreate, IsDelete, RunCalls, Exchanges, Handle, NotedIn, KeptIn, Acceptable, Taken;
    var h := Exchanges(start, calls);
    GoneSince(start, h, key, d);
    RepliesAreTold(start, calls, Call(key.tenant, request));
  }

  lemma {:induction false} GoneSince(start: Db, h: seq<Exchange>, key: ConversationKey, d: nat)
    requires d < |h| && IsDelete(h[d], key) && forall j | d < j < |h| :: !IsCreate(h[j], key)
    ensures KeptIn(start, h, key).None?
    decreases |h|
  {
    var n := |h| - 1;
    if d < n {
      var init := h[..n];
      GoneSince(start, init, key, d);
    }
  }
}
