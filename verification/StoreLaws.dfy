/** What requests do to the answers of later ones: items and metadata are read back, deletions undo. */
module StoreLaws {
  import opened Prelude
  import opened JsonValues
  import opened ItemOrder
  import opened ConversationDb
  import opened CacheAgreement

  // ---------------------------------------------------------------------------
  // Reading back
  // ---------------------------------------------------------------------------

  /**
   * The metadata a request gives a conversation, if it is accepted and gives any.  A create whose items
   * cannot be inserted has stored the conversation by then all the same.
   */
  function MetadataGiven(call: Call, reply: Reply, key: ConversationKey): Option<Json> {
    if call.tenant != key.tenant || !(reply.Shown? || reply.ServerError?) then None
    else match call.request
         case Create(newId, _, metadata, _) =>
           if newId != key.conversation then None
           else Some(if metadata.ValidMetadata? then metadata.m else Obj([]))
         case Update(id, metadata) =>
           if id != key.conversation || metadata.Absent? then None
           else Some(if metadata.ValidMetadata? then metadata.m else Obj([]))
         case _ => None
  }

  /** The metadata of the latest accepted request that gave any, or else what was there before. */
  function LatestMetadata(db: Db, calls: seq<Call>, key: ConversationKey): Option<Json> {
    if calls == [] then (if key in db.conversations then Some(db.conversations[key].metadata) else None)
    else
      var init, last := calls[..|calls| - 1], calls[|calls| - 1];
      var given := MetadataGiven(last, Handle(RunCalls(db, init), last.tenant, last.request).reply, key);
      if given.Some? then given else LatestMetadata(db, init, key)
  }

  lemma CallKeepsMetadata(db: Db, call: Call, key: ConversationKey)
    ensures var h := Handle(db, call.tenant, call.request);
            var given := MetadataGiven(call, h.reply, key);
            key in h.db.conversations ==>
              if given.Some? then h.db.conversations[key].metadata == given.value
              else key in db.conversations && h.db.conversations[key].metadata == db.conversations[key].metadata
  {
    hide AcceptedRows, InsertRows, Rows, Summary, MaxPosition, Page, ListedRows, HandleCreate;
    match call.request {
      case Create(newId, now, metadata, items) =>
        CreateSetsMetadata(db, call.tenant, newId, now, metadata, items, key);
      case _ =>
    }
  }

  lemma CreateSetsMetadata(db: Db, tenant: string, id: string, now: int, metadata: MetadataField, items: ItemsField,
                           key: ConversationKey)
    ensures var h := HandleCreate(db, tenant, id, now, metadata, items);
            var m := if metadata.ValidMetadata? then metadata.m else Obj([]);
            && (h.reply.Shown? || h.reply.ServerError? || (h.reply == BadRequest && h.db == db))
            && (key in h.db.conversations ==>
                  if h.reply != BadRequest && key == ConversationKey(tenant, id)
                  then h.db.conversations[key].metadata == m
                  else key in db.conversations && h.db.conversations[key].metadata == db.conversations[key].metadata)
  {
    hide AcceptedRows, InsertRows, DataOf;
  }

  lemma OneCall(db: Db, call: Call)
    ensures RunCalls(db, [call]) == Handle(db, call.tenant, call.request).db
  {
    hide Handle;
    var calls := [call];
    assert calls[1..] == [];
  }

  /** Every stored conversation has the metadata last given to it, over every run. */
  lemma {:induction false} MetadataIsLatest(db: Db, calls: seq<Call>, key: ConversationKey)
    requires key in RunCalls(db, calls).conversations
    ensures LatestMetadata(db, calls, key) == Some(RunCalls(db, calls).conversations[key].metadata)
  {
    hide Handle, MetadataGiven;
    if calls != [] {
      var init, last := calls[..|calls| - 1], calls[|calls| - 1];
      assert calls == init + [last];
      RunAppend(db, init, [last]);
      OneCall(RunCalls(db, init), last);
      CallKeepsMetadata(RunCalls(db, init), last, key);
      if key in RunCalls(db, init).conversations { MetadataIsLatest(db, init, key); }
    }
  }

  predicate Finds(db: Db, tenant: string, id: string, given: seq<NewItem>) {
    forall i | 0 <= i < |given| ::
      given[i].NewItem? && HandleGetItem(db, tenant, id, given[i].id).reply == ItemShown(given[i].data)
  }

  lemma InsertedAreFound(db: Db, tenant: string, id: string, rows: seq<Row>)
    requires InsertRows(db.items, tenant, id, rows).Some?
    ensures var items := InsertRows(db.items, tenant, id, rows).value;
            forall r | r in rows ::
              ItemKey(tenant, id, r.id) in items && items[ItemKey(tenant, id, r.id)].data == r.data
  {
    hide InsertRows, Rows;
    InsertedKeys(db.items, tenant, id, rows);
    var items := InsertRows(db.items, tenant, id, rows).value;
    forall r | r in rows ensures ItemKey(tenant, id, r.id) in items && items[ItemKey(tenant, id, r.id)].data == r.data {
      RowsContain(items, tenant, id, r);
    }
  }

  lemma RowsOfGiven(given: seq<NewItem>, required: bool, now: int, start: int)
    requires AcceptedRows(Given(given), required, now, start).Some?
    ensures var rows := AcceptedRows(Given(given), required, now, start).value;
            && |rows| == |given|
            && forall i | 0 <= i < |given| ::
                 given[i].NewItem? && rows[i].id == given[i].id && rows[i].data == given[i].data
  {
  }

  function GivenData(given: seq<NewItem>): seq<Json> {
    seq(|given|, i requires 0 <= i < |given| => if given[i].NewItem? then given[i].data else Null)
  }

  /** Items that were created are found under their ids, and the reply lists them as given. */
  lemma CreatedItemsAreFound(db: Db, tenant: string, id: string, now: int, given: seq<NewItem>)
    requires HandleCreateItems(db, tenant, id, now, Given(given)).reply.Listed?
    ensures var h := HandleCreateItems(db, tenant, id, now, Given(given));
            Finds(h.db, tenant, id, given) && h.reply.data == GivenData(given)
  {
    hide AcceptedRows, InsertRows, Rows, Summary, MaxPosition;
    CreateItemsShape(db, tenant, id, now, Given(given));
    var start := SaturatingAdd(MaxPosition(Rows(db.items, tenant, id)), 1);
    RowsOfGiven(given, true, now, start);
    var rows := AcceptedRows(Given(given), true, now, start).value;
    InsertedAreFound(db, tenant, id, rows);
    forall i | 0 <= i < |given|
      ensures HandleGetItem(HandleCreateItems(db, tenant, id, now, Given(given)).db, tenant, id, given[i].id).reply ==
              ItemShown(given[i].data)
    {
      assert rows[i] in rows;
    }
  }

  /** The same for the items a conversation is created with. */
  lemma FirstItemsAreFound(db: Db, tenant: string, id: string, now: int, metadata: MetadataField, given: seq<NewItem>)
    requires HandleCreate(db, tenant, id, now, metadata, Given(given)).reply.Shown?
    ensures Finds(HandleCreate(db, tenant, id, now, metadata, Given(given)).db, tenant, id, given)
  {
    hide AcceptedRows, InsertRows, Rows;
    RowsOfGiven(given, false, now, 1);
    var rows := AcceptedRows(Given(given), false, now, 1).value;
    InsertedAreFound(db, tenant, id, rows);
    forall i | 0 <= i < |given|
      ensures var made := HandleCreate(db, tenant, id, now, metadata, Given(given)).db;
              HandleGetItem(made, tenant, id, given[i].id).reply == ItemShown(given[i].data)
    {
      assert rows[i] in rows;
    }
  }

  /** The largest position of the stored rows, 0 if there are none. */
  ghost predicate LastPosition(items: ItemTable, tenant: string, id: string, p: int) {
    var taken := set k | k in items && k.tenant == tenant && k.conversation == id :: items[k].position;
    if taken == {} then p == 0 else p in taken && forall q | q in taken :: q <= p
  }

  lemma LastPositionIsMax(items: ItemTable, tenant: string, id: string, p: int)
    requires LastPosition(items, tenant, id, p)
    ensures MaxPosition(Rows(items, tenant, id)) == p
  {
    var rows := Rows(items, tenant, id);
    var taken := set k | k in items && k.tenant == tenant && k.conversation == id :: items[k].position;
    forall k | k in items && k.tenant == tenant && k.conversation == id ensures RowOf(k, items[k]) in rows {
      RowsContain(items, tenant, id, RowOf(k, items[k]));
    }
    forall r | r in rows ensures r.position in taken {
      RowsContain(items, tenant, id, r);
      assert items[ItemKey(tenant, id, r.id)].position in taken;
    }
    if p in taken {
      var k :| k in items && k.tenant == tenant && k.conversation == id && items[k].position == p;
      assert RowOf(k, items[k]) in rows;
    }
  }

  lemma RowsStored(db: Db, tenant: string, id: string, rows: seq<Row>, i: nat)
    requires i < |rows| && InsertRows(db.items, tenant, id, rows).Some?
    ensures var items := InsertRows(db.items, tenant, id, rows).value;
            var k := ItemKey(tenant, id, rows[i].id);
            k in items && items[k] == Item(rows[i].data, rows[i].createdAt, rows[i].position)
  {
    InsertedKeys(db.items, tenant, id, rows);
    var items := InsertRows(db.items, tenant, id, rows).value;
    assert rows[i] in Rows(items, tenant, id);
    RowsContain(items, tenant, id, rows[i]);
  }

  lemma RowsAtPositions(given: seq<NewItem>, required: bool, now: int, last: int, i: nat)
    requires AcceptedRows(Given(given), required, now, SaturatingAdd(last, 1)).Some?
    requires i < |given| && last <= 0x7FFF_FFFF_FFFF_FFFF
    ensures var rows := AcceptedRows(Given(given), required, now, SaturatingAdd(last, 1)).value;
            && |rows| == |given| && given[i].NewItem?
            && rows[i].id == given[i].id && rows[i].data == given[i].data && rows[i].createdAt == now
            && rows[i].position ==
               if last + 1 + i <= 0x7FFF_FFFF_FFFF_FFFF then last + 1 + i else 0x7FFF_FFFF_FFFF_FFFF
  {
  }

  /** Each created item is stored with the time of the request, at the next position that 64 bits hold. */
  lemma CreatedItemsFollow(db: Db, tenant: string, id: string, now: int, given: seq<NewItem>, i: nat, last: int)
    requires HandleCreateItems(db, tenant, id, now, Given(given)).reply.Listed? && i < |given|
    requires LastPosition(db.items, tenant, id, last) && last <= 0x7FFF_FFFF_FFFF_FFFF
    ensures given[i].NewItem?
    ensures var items, k := HandleCreateItems(db, tenant, id, now, Given(given)).db.items,
                            ItemKey(tenant, id, given[i].id);
            && k in items
            && items[k].data == given[i].data && items[k].createdAt == now
            && items[k].position ==
               if last + 1 + i <= 0x7FFF_FFFF_FFFF_FFFF then last + 1 + i else 0x7FFF_FFFF_FFFF_FFFF
  {
    hide AcceptedRows, InsertRows, Rows, Summary, MaxPosition, HandleCreateItems, LastPosition;
    CreateItemsShape(db, tenant, id, now, Given(given));
    LastPositionIsMax(db.items, tenant, id, last);
    RowsAtPositions(given, true, now, last, i);
    RowsStored(db, tenant, id, AcceptedRows(Given(given), true, now, SaturatingAdd(last, 1)).value, i);
  }

  /** The items a conversation is created with are numbered from 1. */
  lemma FirstItemsAreNumbered(db: Db, tenant: string, id: string, now: int, metadata: MetadataField,
                              given: seq<NewItem>, i: nat)
    requires HandleCreate(db, tenant, id, now, metadata, Given(given)).reply.Shown? && i < |given|
    ensures given[i].NewItem?
    ensures var items, k := HandleCreate(db, tenant, id, now, metadata, Given(given)).db.items,
                            ItemKey(tenant, id, given[i].id);
            k in items && items[k] == Item(given[i].data, now, i + 1)
  {
    hide AcceptedRows, InsertRows, Rows;
    assert AcceptedRows(Given(given), false, now, SaturatingAdd(0, 1)).Some?;
    RowsAtPositions(given, false, now, 0, i);
    AcceptedRowsFacts(Given(given), false, now, 1);
    RowsStored(db, tenant, id, AcceptedRows(Given(given), false, now, 1).value, i);
  }

  // ---------------------------------------------------------------------------
  // The cached messages grow at the end and shrink in one place
  // ---------------------------------------------------------------------------

  /** Rows that share the largest position come in the order of their ids. */
  predicate SaturatedInOrder(rows: seq<Row>) {
    forall i, j | 0 <= i < j < |rows| && rows[i].position == I64_MAX :: TextBefore(rows[i].id, rows[j].id)
  }

  lemma ListsBoth(o: seq<Row>, s: set<Row>, rows: seq<Row>)
    requires Lists(o, s)
    ensures Lists(o + rows, s + set x | x in rows)
  {
    assert forall x :: x in o + rows <==> x in o || x in rows;
  }

  /** New rows, at consecutive positions after the last one, list after it exactly when saturated ids are in order. */
  lemma NewRowsListLastIff(s: set<Row>, rows: seq<Row>)
    requires UniqueIds(s) && UniqueIds(s + set x | x in rows)
    requires MaxPosition(s) <= I64_MAX
    requires forall i | 0 <= i < |rows| :: rows[i].position == SaturatingAdd(SaturatingAdd(MaxPosition(s), 1), i)
    ensures Ordered(s + set x | x in rows) == Ordered(s) + rows <==> SaturatedInOrder(Ordered(s) + rows)
  {
    hide Ordered, MaxPosition, UniqueIds, Lists;
    var all, t := Ordered(s) + rows, s + set x | x in rows;
    ListsBoth(Ordered(s), s, rows);
    RowsClimb(s, rows);
    forall i, j | 0 <= i < j < |all|
      ensures Before(all[i], all[j]) <==> (all[i].position == I64_MAX ==> TextBefore(all[i].id, all[j].id))
    {
      PositionsClimb(Ordered(s), MaxPosition(s), rows, i, j);
    }
    assert Sorted(all) <==> SaturatedInOrder(all);
    if Sorted(all) { SortedUnique(Ordered(t), all, t); }
  }

  /** A sorted listing up to a position, and rows at the positions after it. */
  predicate Climbs(o: seq<Row>, max: int, rows: seq<Row>) {
    && Sorted(o) && max <= I64_MAX
    && (forall i | 0 <= i < |o| :: o[i].position <= max)
    && forall i | 0 <= i < |rows| :: rows[i].position == SaturatingAdd(SaturatingAdd(max, 1), i)
  }

  lemma RowsClimb(s: set<Row>, rows: seq<Row>)
    requires UniqueIds(s) && MaxPosition(s) <= I64_MAX
    requires forall i | 0 <= i < |rows| :: rows[i].position == SaturatingAdd(SaturatingAdd(MaxPosition(s), 1), i)
    ensures Climbs(Ordered(s), MaxPosition(s), rows)
  {
    var o := Ordered(s);
    forall i | 0 <= i < |o| ensures o[i].position <= MaxPosition(s) { assert o[i] in s; }
  }

  lemma PositionsClimb(o: seq<Row>, max: int, rows: seq<Row>, i: nat, j: nat)
    requires Climbs(o, max, rows) && i < j < |o + rows|
    ensures var a, b := (o + rows)[i], (o + rows)[j];
            && (Before(a, b) <==> (a.position == I64_MAX ==> TextBefore(a.id, b.id)))
            && (max + |rows| <= I64_MAX ==> Before(a, b))
  {
    var a, b := (o + rows)[i], (o + rows)[j];
    if j < |o| {
      assert a == o[i] && b == o[j];
    } else {
      assert b == rows[j - |o|];
      assert a == if i < |o| then o[i] else rows[i - |o|];
    }
  }

  predicate Recached(db: Db, db': Db, key: ConversationKey, before: seq<Json>, after: seq<Json>) {
    && key in db.conversations && db.conversations[key].messages == before
    && key in db'.conversations && db'.conversations[key] == db.conversations[key].(messages := after)
  }

  lemma UnsaturatedInOrder(o: seq<Row>, max: int, rows: seq<Row>)
    requires Climbs(o, max, rows) && max + |rows| <= I64_MAX
    ensures SaturatedInOrder(o + rows)
  {
    forall i, j | 0 <= i < j < |o + rows| && (o + rows)[i].position == I64_MAX
      ensures TextBefore((o + rows)[i].id, (o + rows)[j].id)
    {
      PositionsClimb(o, max, rows, i, j);
    }
  }

  /** Below saturation, creating items appends their data, as given, to the cached messages, and no more. */
  lemma AppendingExtendsMessages(db: Db, tenant: string, id: string, now: int, given: seq<NewItem>)
    requires Agrees(db)
    requires HandleCreateItems(db, tenant, id, now, Given(given)).reply.Listed?
    requires MaxPosition(Rows(db.items, tenant, id)) + |given| <= I64_MAX
    ensures var before := Summary(db.items, tenant, id);
            Recached(db, HandleCreateItems(db, tenant, id, now, Given(given)).db, ConversationKey(tenant, id),
                     before, before + GivenData(given))
  {
    hide AcceptedRows, InsertRows, Rows, Ordered, MaxPosition, UniqueIds, HandleCreateItems, Sorted, SaturatedInOrder;
    var s := Rows(db.items, tenant, id);
    var start := SaturatingAdd(MaxPosition(s), 1);
    CreateItemsShape(db, tenant, id, now, Given(given));
    AcceptedRowsFacts(Given(given), true, now, start);
    RowsOfGiven(given, true, now, start);
    var rows := AcceptedRows(Given(given), true, now, start).value;
    InsertedKeys(db.items, tenant, id, rows);
    NewRowsListLastIff(s, rows);
    RowsClimb(s, rows);
    UnsaturatedInOrder(Ordered(s), MaxPosition(s), rows);
    assert AgreesAt(db, ConversationKey(tenant, id));
    DataOfAppend(Ordered(s), rows);
    assert DataOf(rows) == GivenData(given);
  }

  lemma SortedWithout(o: seq<Row>, k: nat)
    requires Sorted(o) && k < |o|
    ensures Sorted(o[..k] + o[k + 1..])
  {
    var left := o[..k] + o[k + 1..];
    forall i, j | 0 <= i < j < |left| ensures Before(left[i], left[j]) {
      assert Before(o[if i < k then i else i + 1], o[if j < k then j else j + 1]);
    }
  }

  lemma ListsWithout(o: seq<Row>, s: set<Row>, k: nat)
    requires Sorted(o) && Lists(o, s) && k < |o|
    ensures Lists(o[..k] + o[k + 1..], s - {o[k]})
  {
    var left := o[..k] + o[k + 1..];
    forall r | r in left ensures r in s - {o[k]} {
      var i :| 0 <= i < |left| && left[i] == r;
      var j := if i < k then i else i + 1;
      BeforeTrichotomy(o[k], o[k]);
      assert Before(o[j], o[k]) || Before(o[k], o[j]);
    }
    forall r | r in s - {o[k]} ensures r in left {
      var i :| 0 <= i < |o| && o[i] == r;
      assert left[if i < k then i else i - 1] == r;
    }
  }

  lemma RowRemoved(s: set<Row>, k: nat)
    requires UniqueIds(s) && k < |Ordered(s)|
    ensures UniqueIds(s - {Ordered(s)[k]})
    ensures Ordered(s - {Ordered(s)[k]}) == Ordered(s)[..k] + Ordered(s)[k + 1..]
  {
    hide Sorted, Lists;
    var o := Ordered(s);
    SortedWithout(o, k);
    ListsWithout(o, s, k);
    SortedUnique(Ordered(s - {o[k]}), o[..k] + o[k + 1..], s - {o[k]});
  }

  /** Deleting an item takes exactly its own entry out of the cached messages. */
  lemma DeletingDropsOneMessage(db: Db, tenant: string, id: string, item: string)
    requires Agrees(db)
    requires HandleDeleteItem(db, tenant, id, item).reply.Shown?
    ensures var before, o := Summary(db.items, tenant, id), Ordered(Rows(db.items, tenant, id));
            |before| == |o| &&
            exists k :: 0 <= k < |o| && o[k].id == item &&
                        Recached(db, HandleDeleteItem(db, tenant, id, item).db, ConversationKey(tenant, id),
                                 before, before[..k] + before[k + 1..])
  {
    hide Rows, Ordered, UniqueIds, DataOf, Lists;
    var key, k := ConversationKey(tenant, id), ItemKey(tenant, id, item);
    var s, r := Rows(db.items, tenant, id), RowOf(k, db.items[k]);
    RowsContain(db.items, tenant, id, r);
    assert AgreesAt(db, key);
    var n := PlaceOf(s, r);
    RowsWithout(db.items, tenant, id, item);
    RowRemoved(s, n);
    DataWithout(Ordered(s), n);
  }

  ghost function PlaceOf(s: set<Row>, r: Row): (n: nat)
    requires UniqueIds(s) && r in s
    ensures n < |Ordered(s)| && Ordered(s)[n] == r
  {
    var n :| 0 <= n < |Ordered(s)| && Ordered(s)[n] == r; n
  }

  lemma DataWithout(o: seq<Row>, n: nat)
    requires n < |o|
    ensures DataOf(o[..n] + o[n + 1..]) == DataOf(o)[..n] + DataOf(o)[n + 1..]
  {
  }

  lemma RowsWithout(items: ItemTable, tenant: string, id: string, item: string)
    requires ItemKey(tenant, id, item) in items
    ensures var k := ItemKey(tenant, id, item);
            Rows(items - {k}, tenant, id) == Rows(items, tenant, id) - {RowOf(k, items[k])}
  {
    var k := ItemKey(tenant, id, item);
    forall x ensures x in Rows(items - {k}, tenant, id) <==> x in Rows(items, tenant, id) - {RowOf(k, items[k])} {
      RowsContain(items, tenant, id, x);
      RowsContain(items - {k}, tenant, id, x);
    }
  }

  /** Creating one item and deleting it again leaves both tables as they were. */
  lemma DeleteUndoesCreate(db: Db, tenant: string, id: string, now: int, item: NewItem)
    requires Agrees(db) && item.NewItem?
    requires HandleCreateItems(db, tenant, id, now, Given([item])).reply.Listed?
    ensures HandleDeleteItem(HandleCreateItems(db, tenant, id, now, Given([item])).db, tenant, id, item.id).db == db
  {
    hide AcceptedRows, InsertRows, Rows, Ordered, MaxPosition, Summary;
    var key, k := ConversationKey(tenant, id), ItemKey(tenant, id, item.id);
    var start := SaturatingAdd(MaxPosition(Rows(db.items, tenant, id)), 1);
    CreateItemsShape(db, tenant, id, now, Given([item]));
    RowsOfGiven([item], true, now, start);
    var rows := AcceptedRows(Given([item]), true, now, start).value;
    OneInserted(db.items, tenant, id, rows);
    assert AgreesAt(db, key);
    var made := HandleCreateItems(db, tenant, id, now, Given([item])).db;
    assert made.items - {k} == db.items;
    assert HandleDeleteItem(made, tenant, id, item.id).db.conversations == db.conversations;
  }

  lemma OneInserted(items: ItemTable, tenant: string, id: string, rows: seq<Row>)
    requires |rows| == 1 && InsertRows(items, tenant, id, rows).Some?
    ensures var k := ItemKey(tenant, id, rows[0].id);
            && k !in items
            && InsertRows(items, tenant, id, rows).value ==
               items[k := Item(rows[0].data, rows[0].createdAt, rows[0].position)]
  {
    var more := items[ItemKey(tenant, id, rows[0].id) := Item(rows[0].data, rows[0].createdAt, rows[0].position)];
    assert rows[1..] == [];
    assert InsertRows(more, tenant, id, []) == Some(more);
  }
}
