/** The store and the request handlers in their own form: tables updated in place, loops and all. */
module ConversationStore {
  import opened Prelude
  import opened JsonValues
  import opened ItemOrder
  import opened ConversationDb

  class SqlStore {
    var conversations: ConversationTable
    var items: ItemTable

    constructor ()
      ensures Tables() == Db(map[], map[])
    {
      conversations, items := map[], map[];
    }

    function Tables(): Db
      reads this
    {
      Db(conversations, items)
    }

    method UpsertConversation(key: ConversationKey, record: Conversation)
      modifies this`conversations
      ensures conversations == Upsert(old(conversations), key, record)
    {
      if key in conversations {
        var kept := conversations[key];
        conversations := conversations[key := Conversation(kept.createdAt, record.metadata, record.messages)];
      } else {
        conversations := conversations[key := record];
      }
    }

    method UpdateMessages(key: ConversationKey, messages: seq<Json>) returns (updated: bool)
      modifies this`conversations
      ensures updated <==> key in old(conversations)
      ensures conversations == if updated then old(conversations)[key := old(conversations)[key].(messages := messages)]
                               else old(conversations)
    {
      updated := key in conversations;
      if updated {
        conversations := conversations[key := conversations[key].(messages := messages)];
      }
    }

    /** One transaction: a failed insert leaves the table as it was. */
    method CreateConversationItems(tenant: string, id: string, rows: seq<Row>) returns (ok: bool)
      modifies this`items
      ensures var r := InsertRows(old(items), tenant, id, rows);
              ok == r.Some? && items == r.GetOr(old(items))
    {
      var transaction := items;
      for i := 0 to |rows|
        invariant items == old(items)
        invariant InsertRows(transaction, tenant, id, rows[i..]) == InsertRows(items, tenant, id, rows)
      {
        assert rows[i..][1..] == rows[i + 1..];
        var k := ItemKey(tenant, id, rows[i].id);
        if k in transaction {
          return false;
        }
        transaction := transaction[k := Item(rows[i].data, rows[i].createdAt, rows[i].position)];
      }
      items := transaction;
      return true;
    }

    method ListConversationItems(tenant: string, id: string, after: Option<string>, limit: nat, ascending: bool)
      returns (rows: seq<Row>)
      ensures rows == Page(Rows(items, tenant, id), after, limit, ascending)
    {
      rows := Page(Rows(items, tenant, id), after, limit, ascending);
    }

    /** Page after page until one is short; the rows past the cursor get fewer each time. */
    method CollectMessages(tenant: string, id: string, pageLimit: nat) returns (messages: seq<Json>)
      requires pageLimit > 0
      ensures messages == Summary(items, tenant, id)
    {
      hide *;
      ghost var s := Rows(items, tenant, id);
      ghost var listing, n := Directed(s, true), 0;
      var after := None;
      messages := [];
      BeforeAllRows(items, tenant, id);
      while true
        invariant n <= |listing| && after == CursorAt(listing, n)
        invariant messages == DataOf(listing[..n])
        decreases |listing| - n
      {
        var rows := ListConversationItems(tenant, id, after, pageLimit, true);
        NextRows(s, listing, n, pageLimit);
        if rows == [] {
          break;
        }
        after := Some(rows[|rows| - 1].id);
        messages := messages + DataOf(rows);
        n := n + |rows|;
        if |rows| < pageLimit {
          break;
        }
      }
      assert listing[..n] == listing;
    }

    method SyncMessages(tenant: string, id: string) returns (ok: bool)
      modifies this`conversations
      ensures Tables() == Sync(old(Tables()), tenant, id)
      ensures ok <==> ConversationKey(tenant, id) in old(conversations)
    {
      var messages := CollectMessages(tenant, id, MAX_PAGE_LIMIT);
      ok := UpdateMessages(ConversationKey(tenant, id), messages);
    }

    // -------------------------------------------------------------------------
    // Handlers
    // -------------------------------------------------------------------------

    method CreateConversation(tenant: string, newId: string, now: int, metadata: MetadataField, field: ItemsField)
      returns (reply: Reply)
      modifies this
      ensures Handled(Tables(), reply) == HandleCreate(old(Tables()), tenant, newId, now, metadata, field)
    {
      if metadata.InvalidMetadata? {
        return BadRequest;
      }
      var m := if metadata.ValidMetadata? then metadata.m else EMPTY_OBJECT;
      var accepted := Accept(field, false, now, 1);
      if accepted.None? {
        return BadRequest;
      }
      var rows := accepted.value;
      UpsertConversation(ConversationKey(tenant, newId), Conversation(now, m, DataOf(rows)));
      if rows != [] {
        var ok := CreateConversationItems(tenant, newId, rows);
        if !ok {
          return ServerError;
        }
      }
      return Shown(newId, now, m);
    }

    method GetConversation(tenant: string, id: string) returns (reply: Reply)
      ensures Handled(Tables(), reply) == Handle(Tables(), tenant, Get(id))
    {
      var key := ConversationKey(tenant, id);
      if key !in conversations {
        return NotFound;
      }
      return Shown(id, conversations[key].createdAt, conversations[key].metadata);
    }

    method UpdateConversation(tenant: string, id: string, metadata: MetadataField) returns (reply: Reply)
      modifies this
      ensures Handled(Tables(), reply) == HandleUpdate(old(Tables()), tenant, id, metadata)
    {
      if metadata.InvalidMetadata? {
        return BadRequest;
      }
      var key := ConversationKey(tenant, id);
      if key !in conversations {
        return NotFound;
      }
      var existing := conversations[key];
      var m := existing.metadata;
      if metadata.ValidMetadata? {
        m := metadata.m;
      } else if metadata.NullMetadata? {
        m := EMPTY_OBJECT;
      }
      UpsertConversation(key, Conversation(existing.createdAt, m, existing.messages));
      return Shown(id, existing.createdAt, m);
    }

    method DeleteConversation(tenant: string, id: string) returns (reply: Reply)
      modifies this
      ensures Handled(Tables(), reply) == HandleDelete(old(Tables()), tenant, id)
    {
      var key := ConversationKey(tenant, id);
      if key !in conversations {
        return NotFound;
      }
      conversations := conversations - {key};
      return Deleted(id);
    }

    method CreateItems(tenant: string, id: string, now: int, field: ItemsField) returns (reply: Reply)
      modifies this
      ensures Handled(Tables(), reply) == HandleCreateItems(old(Tables()), tenant, id, now, field)
    {
      if ConversationKey(tenant, id) !in conversations {
        return NotFound;
      }
      var start := SaturatingAdd(MaxPosition(Rows(items, tenant, id)), 1);
      var accepted := Accept(field, true, now, start);
      if accepted.None? {
        return BadRequest;
      }
      var rows := accepted.value;
      if exists i | 0 <= i < |rows| :: ItemKey(tenant, id, rows[i].id) in items {
        return BadRequest;
      }
      var inserted := CreateConversationItems(tenant, id, rows);
      if !inserted {
        return ServerError;
      }
      var synced := SyncMessages(tenant, id);
      return ListedRows(rows, false);
    }

    method List(tenant: string, id: string, after: Option<string>, limit: nat, ascending: bool) returns (reply: Reply)
      ensures Handled(Tables(), reply) == HandleList(Tables(), tenant, id, after, limit, ascending)
    {
      hide Page, Rows, UniqueIds, DataOf;
      if ConversationKey(tenant, id) !in conversations {
        return NotFound;
      }
      var n := EffectiveLimit(limit);
      var rows := ListConversationItems(tenant, id, after, n + 1, ascending);
      var hasMore := |rows| > n;
      var data := if hasMore then rows[..n] else rows;
      return ListedRows(data, hasMore);
    }

    method GetItem(tenant: string, id: string, item: string) returns (reply: Reply)
      ensures Handled(Tables(), reply) == HandleGetItem(Tables(), tenant, id, item)
    {
      var k := ItemKey(tenant, id, item);
      if k !in items {
        return NotFound;
      }
      return ItemShown(items[k].data);
    }

    method DeleteItem(tenant: string, id: string, item: string) returns (reply: Reply)
      modifies this
      ensures Handled(Tables(), reply) == HandleDeleteItem(old(Tables()), tenant, id, item)
    {
      var key, k := ConversationKey(tenant, id), ItemKey(tenant, id, item);
      if key !in conversations {
        return NotFound;
      }
      if k !in items {
        return NotFound;
      }
      items := items - {k};
      var synced := SyncMessages(tenant, id);
      var record := conversations[key];
      return Shown(id, record.createdAt, record.metadata);
    }

    /** Every request, through the handler it is routed to. */
    method Serve(tenant: string, r: Request) returns (reply: Reply)
      modifies this
      ensures Handled(Tables(), reply) == Handle(old(Tables()), tenant, r)
    {
      match r {
        case Malformed => reply := BadRequest;
        case Create(newId, now, metadata, field) => reply := CreateConversation(tenant, newId, now, metadata, field);
        case Get(id) => reply := GetConversation(tenant, id);
        case Update(id, metadata) => reply := UpdateConversation(tenant, id, metadata);
        case Delete(id) => reply := DeleteConversation(tenant, id);
        case CreateItems(id, now, field) => reply := CreateItems(tenant, id, now, field);
        case ListItems(id, after, limit, ascending) => reply := List(tenant, id, after, limit, ascending);
        case GetItem(id, item) => reply := GetItem(tenant, id, item);
        case DeleteItem(id, item) => reply := DeleteItem(tenant, id, item);
      }
    }
  }

  /** Build the rows of a create request, refusing bad items and duplicate ids. */
  method Accept(field: ItemsField, required: bool, now: int, start: int) returns (accepted: Option<seq<Row>>)
    ensures accepted == AcceptedRows(field, required, now, start)
  {
    var parsed := ParseItems(field, required);
    if parsed.None? {
      return None;
    }
    var built := BuildRows(now, start, parsed.value);
    if built.None? {
      return None;
    }
    var rows := built.value;
    var seen: set<string> := {};
    for i := 0 to |rows|
      invariant seen == set j | 0 <= j < i :: rows[j].id
      invariant !HasDuplicate(rows[..i])
    {
      if rows[i].id in seen {
        assert HasDuplicate(rows);
        return None;
      }
      ghost var before, upTo := rows[..i], rows[..i + 1];
      forall j, k | 0 <= j < k < |upTo| ensures upTo[j].id != upTo[k].id {
        if k < i { assert before[j].id != before[k].id; }
      }
      seen := seen + {rows[i].id};
    }
    assert rows[..|rows|] == rows;
    return built;
  }

  /** The next page of a collection is the next stretch of the listing, and short only at its end. */
  lemma NextRows(s: set<Row>, listing: seq<Row>, n: nat, limit: nat)
    requires UniqueIds(s) && limit > 0 && listing == Directed(s, true) && n <= |listing|
    ensures var rows := Page(s, CursorAt(listing, n), limit, true);
            && n + |rows| <= |listing|
            && (|rows| < limit ==> n + |rows| == |listing|)
            && (rows != [] ==> CursorAt(listing, n + |rows|) == Some(rows[|rows| - 1].id))
            && DataOf(listing[..n]) + DataOf(rows) == DataOf(listing[..n + |rows|])
  {
    hide Page, Directed, Take, DataOf;
    PageIsStretch(s, n, limit, true);
    StretchOfRest(listing, n, limit);
  }

  lemma BeforeAllRows(items: ItemTable, tenant: string, id: string)
    ensures var listing := Directed(Rows(items, tenant, id), true);
            CursorAt(listing, 0) == None && DataOf(listing[..0]) == [] && Summary(items, tenant, id) == DataOf(listing)
  {
  }

  lemma StretchOfRest(listing: seq<Row>, n: nat, limit: nat)
    requires n <= |listing|
    ensures var rows := Take(listing[n..], limit);
            && n + |rows| <= |listing|
            && (|rows| < limit ==> n + |rows| == |listing|)
            && (rows != [] ==> listing[n + |rows| - 1] == rows[|rows| - 1])
            && DataOf(listing[..n]) + DataOf(rows) == DataOf(listing[..n + |rows|])
  {
    hide DataOf;
    var rows := Take(listing[n..], limit);
    assert listing[..n] + rows == listing[..n + |rows|];
    DataOfAppend(listing[..n], rows);
  }
}
