/**
 * Following `last_id` while `has_more` lists every item exactly once, also while other requests are
 * handled between the pages.
 */
module PageWalk {
  import opened Prelude
  import opened JsonValues
  import opened ItemOrder
  import opened ConversationDb
  import CacheAgreement
  import StoreLaws
  import TenantIsolation

  /** What the list handler answers after `n` rows of the listing: the next stretch, and whether more remain. */
  lemma ListReply(db: Db, tenant: string, id: string, n: nat, limit: nat, ascending: bool)
    requires ConversationKey(tenant, id) in db.conversations
    requires n <= |Directed(Rows(db.items, tenant, id), ascending)|
    ensures var d, k := Directed(Rows(db.items, tenant, id), ascending),
                        if limit == 0 then 1 else if limit <= 100 then limit else 100;
            var reply := HandleList(db, tenant, id, CursorAt(d, n), limit, ascending).reply;
            && reply.Listed?
            && reply.data == DataOf(Take(d[n..], k))
            && (reply.hasMore <==> n + k < |d|)
            && (reply.hasMore ==> Some(reply.lastId) == CursorAt(d, n + k))
            && reply.firstId == (if n < |d| then d[n].id else "")
            && reply.lastId == (if n == |d| then "" else if n + k < |d| then d[n + k - 1].id else d[|d| - 1].id)
  {
    hide Page, Directed, Selected, Ordered, UniqueIds, Rows, Take, EffectiveLimit;
    var s, k := Rows(db.items, tenant, id), EffectiveLimit(limit);
    assert k == if limit == 0 then 1 else if limit <= 100 then limit else 100 by { LimitIsClamped(limit); }
    PageIsStretch(s, n, k + 1, ascending);
    TakeFacts(Directed(s, ascending), n, k);
  }

  lemma LimitIsClamped(limit: nat)
    ensures EffectiveLimit(limit) == if limit == 0 then 1 else if limit <= 100 then limit else 100
  {
  }

  /** One row more than asked for is fetched, and tells whether there is a next page. */
  lemma TakeFacts(d: seq<Row>, n: nat, k: nat)
    requires k > 0 && n <= |d|
    ensures var rows := Take(d[n..], k + 1);
            var page := Take(rows, k);
            && (|rows| > k <==> n + k < |d|)
            && page == Take(d[n..], k)
            && (page == [] <==> n == |d|)
            && (page != [] ==>
                  page[0] == d[n] && page[|page| - 1] == if n + k < |d| then d[n + k - 1] else d[|d| - 1])
  {
  }

  // ---------------------------------------------------------------------------
  // The walk
  // ---------------------------------------------------------------------------

  lemma PageProgress(s: set<Row>, after: Option<string>, limit: nat, ascending: bool)
    requires UniqueIds(s) && |Page(s, after, limit + 1, ascending)| > limit > 0
    ensures var last := Page(s, after, limit + 1, ascending)[limit - 1];
            Selected(s, Some(last.id), ascending) < Selected(s, after, ascending)
  {
    var sel := Selected(s, after, ascending);
    var last := Page(s, after, limit + 1, ascending)[limit - 1];
    DirectedFacts(sel, ascending);
    assert last == Directed(sel, ascending)[limit - 1];
    assert last in sel;
    CursorFound(s, last, ascending);
    var next := Selected(s, Some(last.id), ascending);
    BeforeTrichotomy(last, last);
    forall r | r in next ensures r in sel {
      if after.Some? {
        var c :| c in s && c.id == after.value && sel == set x | x in s && Past(c, x, ascending);
        if ascending { BeforeTransitive(c, last, r); } else { BeforeTransitive(r, last, c); }
      }
    }
  }

  lemma SubsetSize(a: set<Row>, b: set<Row>)
    requires a < b
    ensures |a| < |b|
  {
    assert b == a + (b - a) && a !! (b - a);
    var x :| x in b - a;
  }

  lemma ReplyProgress(db: Db, tenant: string, id: string, after: Option<string>, limit: nat, ascending: bool)
    requires HandleList(db, tenant, id, after, limit, ascending).reply.Listed?
    requires HandleList(db, tenant, id, after, limit, ascending).reply.hasMore
    ensures var s := Rows(db.items, tenant, id);
            var last := HandleList(db, tenant, id, after, limit, ascending).reply.lastId;
            |Selected(s, Some(last), ascending)| < |Selected(s, after, ascending)|
  {
    hide Selected, Directed, UniqueIds, Rows;
    var s, n := Rows(db.items, tenant, id), EffectiveLimit(limit);
    PageProgress(s, after, n, ascending);
    SubsetSize(Selected(s, Some(Page(s, after, n + 1, ascending)[n - 1].id), ascending), Selected(s, after, ascending));
  }

  /** The data of the replies a client gets that follows `last_id` while `has_more`. */
  function ListWalk(db: Db, tenant: string, id: string, after: Option<string>, limit: nat, ascending: bool)
    : seq<seq<Json>>
    decreases |Selected(Rows(db.items, tenant, id), after, ascending)|
  {
    var reply := HandleList(db, tenant, id, after, limit, ascending).reply;
    if !reply.Listed? then []
    else if !reply.hasMore then [reply.data]
    else
      ReplyProgress(db, tenant, id, after, limit, ascending);
      [reply.data] + ListWalk(db, tenant, id, Some(reply.lastId), limit, ascending)
  }

  lemma WalkStep(db: Db, tenant: string, id: string, after: Option<string>, limit: nat, ascending: bool)
    requires HandleList(db, tenant, id, after, limit, ascending).reply.Listed?
    ensures var reply := HandleList(db, tenant, id, after, limit, ascending).reply;
            Flatten(ListWalk(db, tenant, id, after, limit, ascending)) ==
            if !reply.hasMore then reply.data
            else reply.data + Flatten(ListWalk(db, tenant, id, Some(reply.lastId), limit, ascending))
  {
    hide HandleList, Rows, Selected;
    var reply := HandleList(db, tenant, id, after, limit, ascending).reply;
    if reply.hasMore {
      FlattenCons(reply.data, ListWalk(db, tenant, id, Some(reply.lastId), limit, ascending));
    } else {
      FlattenOne(reply.data);
    }
  }

  lemma FlattenCons<T>(x: seq<T>, rest: seq<seq<T>>)
    ensures Flatten([x] + rest) == x + Flatten(rest)
  {
    assert ([x] + rest)[1..] == rest;
  }

  lemma DataOfStretch(d: seq<Row>, n: nat, k: nat)
    requires n <= |d|
    ensures DataOf(Take(d[n..], k)) == if n + k < |d| then DataOf(d)[n..n + k] else DataOf(d)[n..]
  {
  }

  lemma WalkOnce(db: Db, tenant: string, id: string, n: nat, limit: nat, ascending: bool)
    requires ConversationKey(tenant, id) in db.conversations
    requires n <= |Directed(Rows(db.items, tenant, id), ascending)|
    ensures var d, k := Directed(Rows(db.items, tenant, id), ascending), EffectiveLimit(limit);
            Flatten(ListWalk(db, tenant, id, CursorAt(d, n), limit, ascending)) ==
            if n + k < |d| then
              DataOf(d)[n..n + k] + Flatten(ListWalk(db, tenant, id, CursorAt(d, n + k), limit, ascending))
            else DataOf(d)[n..]
  {
    hide HandleList, Rows, Directed, CursorAt, Take, DataOf, UniqueIds, ListWalk, EffectiveLimit, Flatten;
    var d := Directed(Rows(db.items, tenant, id), ascending);
    ListReply(db, tenant, id, n, limit, ascending);
    LimitIsClamped(limit);
    WalkStep(db, tenant, id, CursorAt(d, n), limit, ascending);
    DataOfStretch(d, n, EffectiveLimit(limit));
  }

  lemma {:induction false} WalkFrom(db: Db, tenant: string, id: string, n: nat, limit: nat, ascending: bool)
    requires ConversationKey(tenant, id) in db.conversations
    requires n <= |Directed(Rows(db.items, tenant, id), ascending)|
    ensures var d := Directed(Rows(db.items, tenant, id), ascending);
            Flatten(ListWalk(db, tenant, id, CursorAt(d, n), limit, ascending)) == DataOf(d)[n..]
    decreases |Directed(Rows(db.items, tenant, id), ascending)| - n
  {
    hide *;
    var d, k := Directed(Rows(db.items, tenant, id), ascending), EffectiveLimit(limit);
    WalkOnce(db, tenant, id, n, limit, ascending);
    if n + k < |d| {
      WalkFrom(db, tenant, id, n + k, limit, ascending);
      SplitAt(DataOf(d), n, n + k);
    }
  }

  lemma DataOfDirected(items: ItemTable, tenant: string, id: string, ascending: bool)
    ensures var all := Summary(items, tenant, id);
            DataOf(Directed(Rows(items, tenant, id), ascending)) == if ascending then all else Reversed(all)
    ensures CursorAt(Directed(Rows(items, tenant, id), ascending), 0) == None
  {
    hide Rows, Ordered, UniqueIds;
    DataOfReversed(Ordered(Rows(items, tenant, id)));
  }

  lemma DataOfReversed(rows: seq<Row>)
    ensures DataOf(Reversed(rows)) == Reversed(DataOf(rows))
  {
  }

  /**
   * The pages of a whole walk, whatever limit is asked for, are the data of every row once and in
   * order, descending the reverse of ascending; and where the cache agrees, the cached messages.
   */
  lemma WalkListsEverything(db: Db, tenant: string, id: string, limit: nat, ascending: bool)
    requires ConversationKey(tenant, id) in db.conversations
    ensures var pages, all := ListWalk(db, tenant, id, None, limit, ascending), Summary(db.items, tenant, id);
            && Flatten(pages) == (if ascending then all else Reversed(all))
            && |Flatten(pages)| == |Rows(db.items, tenant, id)|
            && (CacheAgreement.AgreesAt(db, ConversationKey(tenant, id)) ==>
                  all == db.conversations[ConversationKey(tenant, id)].messages)
  {
    hide ListWalk, Flatten;
    WalkFrom(db, tenant, id, 0, limit, ascending);
    DataOfDirected(db.items, tenant, id, ascending);
    var data := DataOf(Directed(Rows(db.items, tenant, id), ascending));
    assert data[0..] == data;
  }

  // ---------------------------------------------------------------------------
  // Requests between the pages
  // ---------------------------------------------------------------------------

  /** Only rows past everything there is were added. */
  predicate Grows(s: set<Row>, t: set<Row>) { s <= t && forall a, b | a in s && b in t - s :: Before(a, b) }

  lemma GrowsTransitive(s: set<Row>, t: set<Row>, u: set<Row>)
    requires Grows(s, t) && Grows(t, u)
    ensures Grows(s, u)
  {
    forall a, b | a in s && b in u - s ensures Before(a, b) {
      if b in t { assert b in t - s; } else { assert a in t && b in u - t; }
    }
  }

  lemma GrownListing(s: set<Row>, t: set<Row>)
    requires UniqueIds(s) && UniqueIds(t) && Grows(s, t)
    ensures Ordered(s) <= Ordered(t)
  {
    assert s + (t - s) == t;
    AppendedRows(s, t - s);
  }

  /** No position is saturated yet, or the ids given sort after all ids at the largest position. */
  predicate AppendsPast(s: set<Row>, items: ItemsField)
    requires UniqueIds(s)
  {
    || MaxPosition(s) < I64_MAX
    || (items.Given? ==>
          forall a, i | a in s && a.position == I64_MAX && 0 <= i < |items.items| && items.items[i].NewItem? ::
            TextBefore(a.id, items.items[i].id))
  }

  /**
   * What the create-items handler appends lies past everything listed so far exactly when positions
   * are not saturated, or every id given sorts after every id at the saturated position.
   */
  lemma AppendsPastIff(db: Db, tenant: string, id: string, now: int, items: ItemsField)
    requires HandleCreateItems(db, tenant, id, now, items).reply.Listed?
    requires MaxPosition(Rows(db.items, tenant, id)) <= I64_MAX
    ensures var s := Rows(db.items, tenant, id);
            var t := Rows(HandleCreateItems(db, tenant, id, now, items).db.items, tenant, id);
            Grows(s, t) <==> AppendsPast(s, items)
  {
    hide Rows, MaxPosition, AcceptedRows, InsertRows, HandleCreateItems, Ordered, UniqueIds;
    var s := Rows(db.items, tenant, id);
    CacheAgreement.CreateItemsShape(db, tenant, id, now, items);
    var start := SaturatingAdd(MaxPosition(s), 1);
    var rows := AcceptedRows(items, true, now, start).value;
    InsertedKeys(db.items, tenant, id, rows);
    CacheAgreement.AcceptedRowsFacts(items, true, now, start);
    GivenIsRequired(items, now, start);
    StoreLaws.RowsOfGiven(items.items, true, now, start);
    NewAreGiven(db, tenant, id, rows);
    NewRowsPastIff(s, rows, items.items);
  }

  lemma GivenIsRequired(items: ItemsField, now: int, start: int)
    requires AcceptedRows(items, true, now, start).Some?
    ensures items.Given?
  {
  }

  lemma NewAreGiven(db: Db, tenant: string, id: string, rows: seq<Row>)
    requires forall x | x in rows :: ItemKey(tenant, id, x.id) !in db.items
    ensures forall x | x in rows :: x !in Rows(db.items, tenant, id)
  {
    forall x | x in rows ensures x !in Rows(db.items, tenant, id) { RowsContain(db.items, tenant, id, x); }
  }

  lemma NewRowsPastIff(s: set<Row>, rows: seq<Row>, given: seq<NewItem>)
    requires UniqueIds(s) && MaxPosition(s) <= I64_MAX
    requires forall i | 0 <= i < |rows| :: rows[i].position == SaturatingAdd(SaturatingAdd(MaxPosition(s), 1), i)
    requires |rows| == |given| && forall i | 0 <= i < |given| :: given[i].NewItem? && rows[i].id == given[i].id
    requires forall x | x in rows :: x !in s
    ensures Grows(s, s + set x | x in rows) <==> AppendsPast(s, Given(given))
  {
    hide MaxPosition, UniqueIds;
    var t := s + set x | x in rows;
    forall a, i | a in s && 0 <= i < |rows|
      ensures Before(a, rows[i]) <==> MaxPosition(s) < I64_MAX || a.position < I64_MAX || TextBefore(a.id, given[i].id)
    {
      assert a.position <= MaxPosition(s);
    }
    forall b ensures b in t - s <==> b in rows { }
    if Grows(s, t) {
      forall a, i | a in s && 0 <= i < |rows| ensures Before(a, rows[i]) { assert rows[i] in t - s; }
    }
  }

  /** Positions are 64-bit integers. */
  predicate InI64(items: ItemTable) { forall k | k in items :: items[k].position <= I64_MAX }

  lemma MaxInI64(items: ItemTable, tenant: string, id: string)
    requires InI64(items)
    ensures MaxPosition(Rows(items, tenant, id)) <= I64_MAX
  {
    var s := Rows(items, tenant, id);
    if s != {} {
      var o := Ordered(s);
      var r := o[|o| - 1];
      RowsContain(items, tenant, id, r);
    }
  }

  lemma {:induction false} InsertKeepsI64(items: ItemTable, tenant: string, id: string, rows: seq<Row>)
    requires InI64(items) && forall r | r in rows :: r.position <= I64_MAX
    ensures var r := InsertRows(items, tenant, id, rows); r.Some? ==> InI64(r.value)
    decreases |rows|
  {
    if rows != [] {
      var k := ItemKey(tenant, id, rows[0].id);
      assert rows[0] in rows;
      if k !in items {
        InsertKeepsI64(items[k := Item(rows[0].data, rows[0].createdAt, rows[0].position)], tenant, id, rows[1..]);
      }
    }
  }

  lemma AcceptedInI64(field: ItemsField, required: bool, now: int, start: int)
    requires AcceptedRows(field, required, now, start).Some?
    ensures forall r | r in AcceptedRows(field, required, now, start).value :: r.position <= I64_MAX
  {
    CacheAgreement.AcceptedRowsFacts(field, required, now, start);
  }

  lemma CallKeepsI64(db: Db, call: Call)
    requires InI64(db.items)
    ensures InI64(Handle(db, call.tenant, call.request).db.items)
  {
    hide AcceptedRows, InsertRows, Rows, MaxPosition, Page, Summary, ListedRows;
    match call.request {
      case Create(newId, now, metadata, items) =>
        var rows := AcceptedRows(items, false, now, 1);
        if rows.Some? {
          AcceptedInI64(items, false, now, 1);
          InsertKeepsI64(db.items, call.tenant, newId, rows.value);
        }
      case CreateItems(id, now, items) =>
        var start := SaturatingAdd(MaxPosition(Rows(db.items, call.tenant, id)), 1);
        var rows := AcceptedRows(items, true, now, start);
        if rows.Some? {
          AcceptedInI64(items, true, now, start);
          InsertKeepsI64(db.items, call.tenant, id, rows.value);
        }
      case _ =>
    }
  }

  /** A request that may be handled between two pages: it takes nothing out of this conversation. */
  predicate LeavesRows(db: Db, tenant: string, id: string, call: Call) {
    call.tenant == tenant ==>
      match call.request
      case Create(newId, _, _, _) => newId != id
      case Delete(c) => c != id
      case DeleteItem(c, _) => c != id
      case CreateItems(c, _, items) => c == id ==> AppendsPast(Rows(db.items, tenant, id), items)
      case _ => true
  }

  predicate RunLeavesRows(db: Db, tenant: string, id: string, calls: seq<Call>)
    decreases |calls|
  {
    calls == [] ||
    (LeavesRows(db, tenant, id, calls[0]) &&
     RunLeavesRows(Handle(db, calls[0].tenant, calls[0].request).db, tenant, id, calls[1..]))
  }

  lemma RowsElsewhere(a: ItemTable, b: ItemTable, tenant: string, c: string, id: string)
    requires CacheAgreement.SameElsewhere(a, b, tenant, c) && c != id
    ensures Rows(a, tenant, id) == Rows(b, tenant, id)
  {
    forall x ensures x in Rows(a, tenant, id) <==> x in Rows(b, tenant, id) {
      RowsContain(a, tenant, id, x);
      RowsContain(b, tenant, id, x);
    }
  }

  /** A tenant's request elsewhere leaves the rows and the conversation alone. */
  lemma OwnCallElsewhere(db: Db, tenant: string, id: string, r: Request)
    requires ConversationKey(tenant, id) in db.conversations
    requires match r
             case Create(newId, _, _, _) => newId != id
             case Delete(c) => c != id
             case DeleteItem(c, _) => c != id
             case CreateItems(c, _, _) => c != id
             case _ => true
    ensures var next := Handle(db, tenant, r).db;
            && Rows(next.items, tenant, id) == Rows(db.items, tenant, id)
            && ConversationKey(tenant, id) in next.conversations
  {
    hide AcceptedRows, InsertRows, Rows, MaxPosition, Page, Summary, ListedRows;
    match r {
      case Create(newId, now, metadata, items) =>
        var rows := AcceptedRows(items, false, now, 1);
        if rows.Some? && InsertRows(db.items, tenant, newId, rows.value).Some? {
          CacheAgreement.InsertElsewhere(db.items, tenant, newId, rows.value);
          RowsElsewhere(db.items, InsertRows(db.items, tenant, newId, rows.value).value, tenant, newId, id);
        }
      case CreateItems(c, now, items) =>
        CacheAgreement.CreateItemsShape(db, tenant, c, now, items);
        var start := SaturatingAdd(MaxPosition(Rows(db.items, tenant, c)), 1);
        var rows := AcceptedRows(items, true, now, start);
        if rows.Some? && InsertRows(db.items, tenant, c, rows.value).Some? {
          CacheAgreement.InsertElsewhere(db.items, tenant, c, rows.value);
          RowsElsewhere(db.items, InsertRows(db.items, tenant, c, rows.value).value, tenant, c, id);
        }
      case DeleteItem(c, item) =>
        RowsElsewhere(db.items, db.items - {ItemKey(tenant, c, item)}, tenant, c, id);
      case _ =>
    }
  }

  lemma CallGrows(db: Db, tenant: string, id: string, call: Call)
    requires InI64(db.items) && ConversationKey(tenant, id) in db.conversations && LeavesRows(db, tenant, id, call)
    ensures var next := Handle(db, call.tenant, call.request).db;
            && Grows(Rows(db.items, tenant, id), Rows(next.items, tenant, id))
            && InI64(next.items) && ConversationKey(tenant, id) in next.conversations
  {
    hide Rows, MaxPosition, Handle, HandleCreateItems, AppendsPast, InI64;
    var next := Handle(db, call.tenant, call.request).db;
    CallKeepsI64(db, call);
    if call.tenant != tenant {
      TenantIsolation.OthersCall(db, tenant, call.tenant, call.request);
      TenantIsolation.AlikeRows(db, next, tenant, id);
    } else if call.request.CreateItems? && call.request.conversation == id {
      AppendGrows(db, tenant, id, call.request.now, call.request.items);
      CreateItemsIsHandled(db, tenant, call.request);
    } else {
      OwnCallElsewhere(db, tenant, id, call.request);
    }
  }

  lemma CreateItemsIsHandled(db: Db, tenant: string, r: Request)
    requires r.CreateItems?
    ensures Handle(db, tenant, r) == HandleCreateItems(db, tenant, r.conversation, r.now, r.items)
  {
  }

  lemma AppendGrows(db: Db, tenant: string, id: string, now: int, items: ItemsField)
    requires InI64(db.items) && ConversationKey(tenant, id) in db.conversations
    requires AppendsPast(Rows(db.items, tenant, id), items)
    ensures var next := HandleCreateItems(db, tenant, id, now, items).db;
            && Grows(Rows(db.items, tenant, id), Rows(next.items, tenant, id))
            && ConversationKey(tenant, id) in next.conversations
  {
    hide Rows, MaxPosition, AppendsPast, AcceptedRows, InsertRows, HandleCreateItems;
    CacheAgreement.CreateItemsShape(db, tenant, id, now, items);
    MaxInI64(db.items, tenant, id);
    if HandleCreateItems(db, tenant, id, now, items).reply.Listed? { AppendsPastIff(db, tenant, id, now, items); }
  }

  lemma {:induction false} RunGrows(db: Db, tenant: string, id: string, calls: seq<Call>)
    requires InI64(db.items) && ConversationKey(tenant, id) in db.conversations && RunLeavesRows(db, tenant, id, calls)
    ensures var later := RunCalls(db, calls);
            && Grows(Rows(db.items, tenant, id), Rows(later.items, tenant, id))
            && InI64(later.items) && ConversationKey(tenant, id) in later.conversations
    decreases |calls|
  {
    hide Rows, Handle, InI64, LeavesRows;
    if calls != [] {
      var next := Handle(db, calls[0].tenant, calls[0].request).db;
      CallGrows(db, tenant, id, calls[0]);
      RunGrows(next, tenant, id, calls[1..]);
      GrowsTransitive(Rows(db.items, tenant, id), Rows(next.items, tenant, id),
                      Rows(RunCalls(next, calls[1..]).items, tenant, id));
    }
  }

  /** All data listed so far, whether the last reply said there is no more, and the tables it was read from. */
  datatype Walked = Walked(data: seq<Json>, ended: bool, db: Db)

  /** An ascending walk with requests of anybody handled between its pages. */
  function WalkBetween(db: Db, gaps: seq<seq<Call>>, tenant: string, id: string, after: Option<string>, limit: nat)
    : Walked
    decreases |gaps|
  {
    var reply := HandleList(db, tenant, id, after, limit, true).reply;
    if !reply.Listed? then Walked([], false, db)
    else if !reply.hasMore then Walked(reply.data, true, db)
    else if gaps == [] then Walked(reply.data, false, db)
    else
      var w := WalkBetween(RunCalls(db, gaps[0]), gaps[1..], tenant, id, Some(reply.lastId), limit);
      Walked(reply.data + w.data, w.ended, w.db)
  }

  predicate GapsLeaveRows(db: Db, gaps: seq<seq<Call>>, tenant: string, id: string)
    decreases |gaps|
  {
    gaps == [] ||
    (RunLeavesRows(db, tenant, id, gaps[0]) && GapsLeaveRows(RunCalls(db, gaps[0]), gaps[1..], tenant, id))
  }

  predicate Stretch(data: seq<Json>, all: seq<Json>, n: nat) { n + |data| <= |all| && data == all[n..n + |data|] }

  lemma {:induction false} WalkBetweenFrom(db: Db, gaps: seq<seq<Call>>, tenant: string, id: string, n: nat, limit: nat)
    requires InI64(db.items) && ConversationKey(tenant, id) in db.conversations && GapsLeaveRows(db, gaps, tenant, id)
    requires n <= |Ordered(Rows(db.items, tenant, id))|
    ensures var w := WalkBetween(db, gaps, tenant, id, CursorAt(Ordered(Rows(db.items, tenant, id)), n), limit);
            var all := Summary(w.db.items, tenant, id);
            && Summary(db.items, tenant, id) <= all
            && Stretch(w.data, all, n)
            && (w.ended ==> n + |w.data| == |all|)
    decreases |gaps|
  {
    hide Rows, Ordered, UniqueIds, HandleList, RunCalls, RunLeavesRows, InI64, EffectiveLimit, Take, CursorAt, Summary;
    var d, k := Ordered(Rows(db.items, tenant, id)), EffectiveLimit(limit);
    FirstPage(db, tenant, id, n, limit);
    if n + k < |d| && gaps != [] {
      var next := RunCalls(db, gaps[0]);
      RunGrows(db, tenant, id, gaps[0]);
      NextCursor(db, next, tenant, id, n + k);
      WalkBetweenFrom(next, gaps[1..], tenant, id, n + k, limit);
      var w := WalkBetween(next, gaps[1..], tenant, id, CursorAt(Ordered(Rows(next.items, tenant, id)), n + k), limit);
      var first := HandleList(db, tenant, id, CursorAt(d, n), limit, true).reply.data;
      JoinStretches(first, w.data, Summary(db.items, tenant, id), Summary(next.items, tenant, id),
                    Summary(w.db.items, tenant, id), n);
    }
  }

  lemma JoinStretches(x: seq<Json>, y: seq<Json>, a: seq<Json>, b: seq<Json>, c: seq<Json>, n: nat)
    requires a <= b <= c && Stretch(x, a, n) && Stretch(y, c, n + |x|)
    ensures Stretch(x + y, c, n) && a <= c
  {
    assert c[n..n + |x|] == a[n..n + |x|];
    assert c[n..n + |x| + |y|] == c[n..n + |x|] + c[n + |x|..n + |x| + |y|];
  }

  lemma FirstPage(db: Db, tenant: string, id: string, n: nat, limit: nat)
    requires ConversationKey(tenant, id) in db.conversations && n <= |Ordered(Rows(db.items, tenant, id))|
    ensures var d, k := Ordered(Rows(db.items, tenant, id)), EffectiveLimit(limit);
            var reply := HandleList(db, tenant, id, CursorAt(d, n), limit, true).reply;
            && reply.Listed?
            && (reply.hasMore <==> n + k < |d|)
            && |Summary(db.items, tenant, id)| == |d|
            && Stretch(reply.data, Summary(db.items, tenant, id), n)
            && |reply.data| == (if n + k < |d| then k else |d| - n)
            && (reply.hasMore ==> Some(reply.lastId) == CursorAt(d, n + k))
  {
    hide Stretch, Take;
    hide Rows, Ordered, UniqueIds, HandleList, EffectiveLimit, CursorAt;
    ListReply(db, tenant, id, n, limit, true);
    LimitIsClamped(limit);
    DataOfStretch(Ordered(Rows(db.items, tenant, id)), n, EffectiveLimit(limit));
    StretchAt(Summary(db.items, tenant, id), n, EffectiveLimit(limit));
  }

  lemma StretchAt(all: seq<Json>, n: nat, k: nat)
    requires n <= |all|
    ensures Stretch(if n + k < |all| then all[n..n + k] else all[n..], all, n)
  {
  }

  /** The cursor after the same number of rows is the same row in a grown table. */
  lemma NextCursor(db: Db, next: Db, tenant: string, id: string, n: nat)
    requires Grows(Rows(db.items, tenant, id), Rows(next.items, tenant, id))
    requires n <= |Ordered(Rows(db.items, tenant, id))|
    ensures var d, e := Ordered(Rows(db.items, tenant, id)), Ordered(Rows(next.items, tenant, id));
            n <= |e| && CursorAt(d, n) == CursorAt(e, n)
    ensures Summary(db.items, tenant, id) <= Summary(next.items, tenant, id)
  {
    hide Rows, Ordered, UniqueIds, Grows;
    var d, e := Ordered(Rows(db.items, tenant, id)), Ordered(Rows(next.items, tenant, id));
    GrownListing(Rows(db.items, tenant, id), Rows(next.items, tenant, id));
    if n > 0 { assert d[n - 1] == e[n - 1]; }
    DataOfPrefix(d, e);
  }

  lemma DataOfPrefix(d: seq<Row>, e: seq<Row>)
    requires d <= e
    ensures DataOf(d) <= DataOf(e)
  {
    assert forall i | 0 <= i < |d| :: d[i] == e[i];
    assert DataOf(d) == DataOf(e)[..|d|];
  }

  /**
   * Whatever anybody requests between the pages, short of deleting this conversation or its items
   * and of appending at a saturated position out of order: nothing is skipped or repeated, and a walk that
   * ends has listed everything there is.
   */
  lemma GrowingWalkSkipsNothing(db: Db, gaps: seq<seq<Call>>, tenant: string, id: string, limit: nat)
    requires InI64(db.items) && ConversationKey(tenant, id) in db.conversations && GapsLeaveRows(db, gaps, tenant, id)
    ensures var w := WalkBetween(db, gaps, tenant, id, None, limit);
            w.data <= Summary(w.db.items, tenant, id) && (w.ended ==> w.data == Summary(w.db.items, tenant, id))
  {
    hide WalkBetween, GapsLeaveRows, Rows, Ordered;
    WalkBetweenFrom(db, gaps, tenant, id, 0, limit);
  }
}
