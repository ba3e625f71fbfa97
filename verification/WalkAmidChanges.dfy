/**
 * Walks, in either direction, between whose pages items are deleted as well as appended.  A cursor
 * whose item is gone selects nothing, so a walk that loses its cursor ends early, and says nothing of it.
 */
module WalkAmidChanges {
  import opened Prelude
  import opened JsonValues
  import opened ItemOrder
  import opened ConversationDb
  import CacheAgreement
  import PageWalk
  import StoreLaws
  import TenantIsolation

  // ---------------------------------------------------------------------------
  // One reply
  // ---------------------------------------------------------------------------

  /** The rows whose data a list reply shows. */
  function Shown(db: Db, tenant: string, id: string, after: Option<string>, limit: nat, ascending: bool): seq<Row> {
    var n := EffectiveLimit(limit);
    Take(Page(Rows(db.items, tenant, id), after, n + 1, ascending), n)
  }

  predicate SortedFrom(after: Option<Row>, rows: seq<Row>, ascending: bool) {
    DirectedSorted(rows, ascending) && (after.Some? ==> forall r | r in rows :: Past(after.value, r, ascending))
  }

  function IdOf(r: Option<Row>): Option<string> { if r.Some? then Some(r.value.id) else None }

  predicate Afterwards(r: Row, after: Option<Row>, ascending: bool) {
    after.Some? ==> Past(after.value, r, ascending)
  }

  /** A reply whose cursor is there shows the next rows in order, and whether that is all of them. */
  lemma ReplyInOrder(db: Db, tenant: string, id: string, after: Option<Row>, limit: nat, ascending: bool)
    requires ConversationKey(tenant, id) in db.conversations
    requires after.Some? ==> after.value in Rows(db.items, tenant, id)
    ensures var s, rows := Rows(db.items, tenant, id), Shown(db, tenant, id, IdOf(after), limit, ascending);
            var reply := HandleList(db, tenant, id, IdOf(after), limit, ascending).reply;
            && reply.Listed? && reply.data == DataOf(rows)
            && SortedFrom(after, rows, ascending)
            && (forall r | r in rows :: r in s)
            && (reply.hasMore ==> rows != [] && reply.lastId == rows[|rows| - 1].id)
            && (forall r | r in s && Afterwards(r, after, ascending) ::
                  r in rows || (reply.hasMore && Past(rows[|rows| - 1], r, ascending)))
  {
    hide Rows, Selected, Directed, UniqueIds, Take, EffectiveLimit, Ordered;
    var s, n := Rows(db.items, tenant, id), EffectiveLimit(limit);
    var sel := Selected(s, IdOf(after), ascending);
    SelectedIs(s, after, ascending);
    SubsetUnique(s, sel);
    DirectedFacts(sel, ascending);
    FirstOf(Directed(sel, ascending), n, ascending);
  }

  lemma SubsetUnique(s: set<Row>, t: set<Row>)
    requires UniqueIds(s) && t <= s
    ensures UniqueIds(t)
  {
  }

  lemma SelectedIs(s: set<Row>, after: Option<Row>, ascending: bool)
    requires UniqueIds(s) && (after.Some? ==> after.value in s)
    ensures Selected(s, IdOf(after), ascending) == set r | r in s && Afterwards(r, after, ascending)
  {
    if after.Some? { CursorFound(s, after.value, ascending); }
  }

  lemma FirstOf(d: seq<Row>, n: nat, ascending: bool)
    requires n > 0 && DirectedSorted(d, ascending)
    ensures var fetched := Take(d, n + 1);
            var rows := Take(fetched, n);
            && (forall r | r in rows :: r in d)
            && DirectedSorted(rows, ascending)
            && (|fetched| > n ==> rows != [])
            && forall r | r in d :: r in rows || (|fetched| > n && Past(rows[|rows| - 1], r, ascending))
  {
    var fetched := Take(d, n + 1);
    var rows := Take(fetched, n);
    assert rows == Take(d, n);
    forall r | r in d ensures r in rows || (|fetched| > n && Past(rows[|rows| - 1], r, ascending)) {
      var i :| 0 <= i < |d| && d[i] == r;
      if i < |rows| { assert rows[i] == r; } else { assert Past(d[|rows| - 1], d[i], ascending); }
    }
  }

  /** A reply whose cursor is gone shows nothing, and says that there is no more. */
  lemma ReplyWithoutCursor(db: Db, tenant: string, id: string, after: string, limit: nat, ascending: bool)
    requires ConversationKey(tenant, id) in db.conversations
    requires forall r | r in Rows(db.items, tenant, id) :: r.id != after
    ensures var reply := HandleList(db, tenant, id, Some(after), limit, ascending).reply;
            && reply.Listed? && reply.data == [] && !reply.hasMore
            && Shown(db, tenant, id, Some(after), limit, ascending) == []
  {
    hide Rows, UniqueIds;
    NothingOrdered();
  }

  lemma NothingOrdered()
    ensures UniqueIds({}) && Ordered({}) == []
  {
  }

  // ---------------------------------------------------------------------------
  // The walk
  // ---------------------------------------------------------------------------

  /**
   * What a walk showed, whether a reply said there is no more, and the rows that were there throughout:
   * at the beginning and whenever a page was read.
   */
  datatype Amid = Amid(rows: seq<Row>, data: seq<Json>, ended: bool, stayed: set<Row>)

  /** A walk with the requests `gaps` handled between its pages. */
  function Walk(db: Db, gaps: seq<seq<Call>>, tenant: string, id: string, after: Option<string>, limit: nat,
                ascending: bool, base: set<Row>): Amid
    decreases |gaps|
  {
    var reply := HandleList(db, tenant, id, after, limit, ascending).reply;
    var rows, stayed := Shown(db, tenant, id, after, limit, ascending), base * Rows(db.items, tenant, id);
    if !reply.Listed? then Amid([], [], false, stayed)
    else if !reply.hasMore || gaps == [] then Amid(rows, reply.data, !reply.hasMore, stayed)
    else
      var w := Walk(RunCalls(db, gaps[0]), gaps[1..], tenant, id, Some(reply.lastId), limit, ascending, stayed);
      Amid(rows + w.rows, reply.data + w.data, w.ended, w.stayed)
  }

  /** The cursor is still there, or nothing that stayed is past it. */
  predicate CursorHolds(s: set<Row>, after: Option<Row>, base: set<Row>, ascending: bool) {
    after.Some? && after.value !in s ==> forall r | r in base * s :: !Past(after.value, r, ascending)
  }

  /** No cursor is deleted before rows that stay and are still to come. */
  predicate CursorsHold(db: Db, gaps: seq<seq<Call>>, tenant: string, id: string, after: Option<Row>, limit: nat,
                        ascending: bool, base: set<Row>)
    decreases |gaps|
  {
    var s := Rows(db.items, tenant, id);
    var reply := HandleList(db, tenant, id, IdOf(after), limit, ascending).reply;
    var rows := Shown(db, tenant, id, IdOf(after), limit, ascending);
    && CursorHolds(s, after, base, ascending)
    && (reply.Listed? && reply.hasMore && gaps != [] && rows != [] ==>
          CursorsHold(RunCalls(db, gaps[0]), gaps[1..], tenant, id, Some(rows[|rows| - 1]), limit, ascending, base * s))
  }

  // ---------------------------------------------------------------------------
  // What may happen between two pages
  // ---------------------------------------------------------------------------

  /** New rows have new ids, and lie past the rows that are left. */
  predicate Evolves(s: set<Row>, t: set<Row>) {
    && (forall r, a | r in t - s && a in s :: r.id != a.id)
    && forall r, a | r in t - s && a in s * t :: Before(a, r)
  }

  predicate GapsEvolve(db: Db, gaps: seq<seq<Call>>, tenant: string, id: string)
    decreases |gaps|
  {
    && ConversationKey(tenant, id) in db.conversations
    && (gaps != [] ==>
          && Evolves(Rows(db.items, tenant, id), Rows(RunCalls(db, gaps[0]).items, tenant, id))
          && GapsEvolve(RunCalls(db, gaps[0]), gaps[1..], tenant, id))
  }

  function GivenIds(items: ItemsField): set<string> {
    if items.Given? then set i | 0 <= i < |items.items| && items.items[i].NewItem? :: items.items[i].id else {}
  }

  function IdsGiven(call: Call, tenant: string, id: string): set<string> {
    if call.tenant == tenant && call.request.CreateItems? && call.request.conversation == id
    then GivenIds(call.request.items)
    else {}
  }

  /** Items may be deleted, and appended under ids not seen before; the conversation itself stays. */
  predicate MayChange(db: Db, tenant: string, id: string, call: Call, seen: set<string>) {
    && IdsGiven(call, tenant, id) !! seen
    && (call.tenant == tenant ==>
          match call.request
          case Create(newId, _, _, _) => newId != id
          case Delete(c) => c != id
          case CreateItems(c, _, items) => c == id ==> PageWalk.AppendsPast(Rows(db.items, tenant, id), items)
          case _ => true)
  }

  predicate RunMayChange(db: Db, tenant: string, id: string, calls: seq<Call>, seen: set<string>)
    decreases |calls|
  {
    calls == [] ||
    (MayChange(db, tenant, id, calls[0], seen) &&
     RunMayChange(Handle(db, calls[0].tenant, calls[0].request).db, tenant, id, calls[1..],
                  seen + IdsGiven(calls[0], tenant, id)))
  }

  function IdsOf(s: set<Row>): set<string> { set r | r in s :: r.id }

  predicate GapsMayChange(db: Db, gaps: seq<seq<Call>>, tenant: string, id: string)
    decreases |gaps|
  {
    gaps == [] ||
    (RunMayChange(db, tenant, id, gaps[0], IdsOf(Rows(db.items, tenant, id))) &&
     GapsMayChange(RunCalls(db, gaps[0]), gaps[1..], tenant, id))
  }

  /** One request's change: rows go, or rows with unseen ids come past those there are. */
  predicate Changes(t: set<Row>, u: set<Row>, fresh': set<string>) {
    forall r | r in u - t :: r.id in fresh' && forall a | a in t :: Before(a, r)
  }

  lemma ItemDeleted(db: Db, tenant: string, id: string, item: string)
    requires ConversationKey(tenant, id) in db.conversations
    ensures var next := HandleDeleteItem(db, tenant, id, item).db;
            && Rows(next.items, tenant, id) <= Rows(db.items, tenant, id)
            && ConversationKey(tenant, id) in next.conversations
  {
    hide Rows, Summary;
    var k := ItemKey(tenant, id, item);
    if k in db.items { StoreLaws.RowsWithout(db.items, tenant, id, item); }
  }

  lemma ItemsAppended(db: Db, tenant: string, id: string, now: int, items: ItemsField)
    requires PageWalk.InI64(db.items) && ConversationKey(tenant, id) in db.conversations
    requires PageWalk.AppendsPast(Rows(db.items, tenant, id), items)
    ensures var next := HandleCreateItems(db, tenant, id, now, items).db;
            && Changes(Rows(db.items, tenant, id), Rows(next.items, tenant, id), GivenIds(items))
            && ConversationKey(tenant, id) in next.conversations
  {
    hide Rows, MaxPosition, PageWalk.AppendsPast, AcceptedRows, InsertRows, HandleCreateItems, GivenIds, UniqueIds;
    PageWalk.AppendGrows(db, tenant, id, now, items);
    CacheAgreement.CreateItemsShape(db, tenant, id, now, items);
    if HandleCreateItems(db, tenant, id, now, items).reply.Listed? {
      var start := SaturatingAdd(MaxPosition(Rows(db.items, tenant, id)), 1);
      var rows := AcceptedRows(items, true, now, start).value;
      InsertedKeys(db.items, tenant, id, rows);
      RowsHaveGivenIds(items, now, start);
    }
  }

  lemma RowsHaveGivenIds(items: ItemsField, now: int, start: int)
    requires AcceptedRows(items, true, now, start).Some?
    ensures forall r | r in AcceptedRows(items, true, now, start).value :: r.id in GivenIds(items)
  {
    hide AcceptedRows;
    PageWalk.GivenIsRequired(items, now, start);
    StoreLaws.RowsOfGiven(items.items, true, now, start);
    var rows := AcceptedRows(items, true, now, start).value;
    forall r | r in rows ensures r.id in GivenIds(items) {
      var i :| 0 <= i < |rows| && rows[i] == r;
      assert items.items[i].NewItem?;
    }
  }

  lemma CallChanges(db: Db, tenant: string, id: string, call: Call, seen: set<string>)
    requires PageWalk.InI64(db.items) && ConversationKey(tenant, id) in db.conversations
    requires MayChange(db, tenant, id, call, seen)
    ensures var next := Handle(db, call.tenant, call.request).db;
            && Changes(Rows(db.items, tenant, id), Rows(next.items, tenant, id), IdsGiven(call, tenant, id))
            && PageWalk.InI64(next.items) && ConversationKey(tenant, id) in next.conversations
  {
    hide Rows, Handle, HandleCreateItems, HandleDeleteItem, PageWalk.AppendsPast, PageWalk.InI64, GivenIds;
    var next := Handle(db, call.tenant, call.request).db;
    PageWalk.CallKeepsI64(db, call);
    if call.tenant != tenant {
      TenantIsolation.OthersCall(db, tenant, call.tenant, call.request);
      TenantIsolation.AlikeRows(db, next, tenant, id);
    } else if call.request.CreateItems? && call.request.conversation == id {
      ItemsAppended(db, tenant, id, call.request.now, call.request.items);
      PageWalk.CreateItemsIsHandled(db, tenant, call.request);
    } else if call.request.DeleteItem? && call.request.conversation == id {
      ItemDeleted(db, tenant, id, call.request.item);
      DeleteItemIsHandled(db, tenant, call.request);
    } else {
      PageWalk.OwnCallElsewhere(db, tenant, id, call.request);
    }
  }

  lemma DeleteItemIsHandled(db: Db, tenant: string, r: Request)
    requires r.DeleteItem?
    ensures Handle(db, tenant, r) == HandleDeleteItem(db, tenant, r.conversation, r.item)
  {
  }

  lemma EvolvesFurther(s: set<Row>, t: set<Row>, u: set<Row>, seen: set<string>, fresh': set<string>)
    requires Evolves(s, t) && Changes(t, u, fresh') && fresh' !! seen && IdsOf(s) <= seen && IdsOf(t) <= seen
    ensures Evolves(s, u) && IdsOf(u) <= seen + fresh'
  {
    forall a | a in s + t ensures a.id in seen { assert a.id in IdsOf(s) + IdsOf(t); }
    forall r, a | r in u - s && a in s ensures r.id != a.id {
      if r in t { assert r in t - s; } else { assert r in u - t; }
    }
    forall r, a | r in u - s && a in s * u ensures Before(a, r) {
      assert a !in u - t;
      if r in t { assert r in t - s && a in s * t; } else { assert r in u - t; }
    }
    forall x | x in IdsOf(u) ensures x in seen + fresh' {
      var r :| r in u && r.id == x;
      if r !in t { assert r in u - t; }
    }
  }

  lemma {:induction false} RunEvolves(start: set<Row>, db: Db, tenant: string, id: string, calls: seq<Call>,
                                      seen: set<string>)
    requires PageWalk.InI64(db.items) && ConversationKey(tenant, id) in db.conversations
    requires RunMayChange(db, tenant, id, calls, seen)
    requires Evolves(start, Rows(db.items, tenant, id))
    requires IdsOf(start) <= seen && IdsOf(Rows(db.items, tenant, id)) <= seen
    ensures var later := RunCalls(db, calls);
            && Evolves(start, Rows(later.items, tenant, id))
            && PageWalk.InI64(later.items) && ConversationKey(tenant, id) in later.conversations
    decreases |calls|
  {
    hide Rows, Handle, PageWalk.InI64, Evolves, Changes, IdsGiven, IdsOf;
    if calls != [] {
      var next, fresh' := Handle(db, calls[0].tenant, calls[0].request).db, IdsGiven(calls[0], tenant, id);
      CallChanges(db, tenant, id, calls[0], seen);
      EvolvesFurther(start, Rows(db.items, tenant, id), Rows(next.items, tenant, id), seen, fresh');
      RunEvolves(start, next, tenant, id, calls[1..], seen + fresh');
    }
  }

  lemma {:induction false} ChangesEvolve(db: Db, gaps: seq<seq<Call>>, tenant: string, id: string)
    requires PageWalk.InI64(db.items) && ConversationKey(tenant, id) in db.conversations
    requires GapsMayChange(db, gaps, tenant, id)
    ensures GapsEvolve(db, gaps, tenant, id)
    decreases |gaps|
  {
    hide Rows, PageWalk.InI64, RunCalls, RunMayChange, IdsOf;
    if gaps != [] {
      var s := Rows(db.items, tenant, id);
      RunEvolves(s, db, tenant, id, gaps[0], IdsOf(s));
      ChangesEvolve(RunCalls(db, gaps[0]), gaps[1..], tenant, id);
    }
  }

  // ---------------------------------------------------------------------------
  // What a walk shows
  // ---------------------------------------------------------------------------

  /** The cursor is there, or nothing has its id. */
  predicate CursorKnown(s: set<Row>, after: Option<Row>) {
    after.Some? && after.value !in s ==> forall r | r in s :: r.id != after.value.id
  }

  /** What was shown lies up to the cursor, and of what stayed everything up to the cursor was shown. */
  predicate Upto(shown: set<Row>, s: set<Row>, after: Option<Row>, base: set<Row>, ascending: bool) {
    && (forall r | r in shown :: after.Some? && !Past(after.value, r, ascending))
    && forall r | r in base * s :: r in shown || Afterwards(r, after, ascending)
  }

  lemma NextUpto(shown: set<Row>, s: set<Row>, t: set<Row>, after: Option<Row>, base: set<Row>, rows: seq<Row>,
                 ascending: bool)
    requires Upto(shown, s, after, base, ascending) && rows != [] && SortedFrom(after, rows, ascending)
    requires forall r | r in s && Afterwards(r, after, ascending) :: r in rows || Past(rows[|rows| - 1], r, ascending)
    ensures Upto(shown + (set r | r in rows), t, Some(rows[|rows| - 1]), base * s, ascending)
  {
    var last := rows[|rows| - 1];
    forall r | r in shown + (set x | x in rows) ensures !Past(last, r, ascending) {
      BeforeTrichotomy(last, r);
      if r in shown {
        PastChain(after.value, last, r, ascending);
      } else {
        var i :| 0 <= i < |rows| && rows[i] == r;
        if i < |rows| - 1 { assert Past(rows[i], last, ascending); }
      }
    }
  }

  /** What is not past an earlier row is not past a later one. */
  lemma PastChain(a: Row, b: Row, r: Row, ascending: bool)
    requires Past(a, b, ascending) && !Past(a, r, ascending)
    ensures !Past(b, r, ascending)
  {
    if Past(b, r, ascending) {
      if ascending { BeforeTransitive(a, b, r); } else { BeforeTransitive(r, b, a); }
    }
  }

  lemma CursorStaysKnown(s: set<Row>, t: set<Row>, c: Row)
    requires UniqueIds(s) && c in s && Evolves(s, t)
    ensures CursorKnown(t, Some(c))
  {
  }

  /** The step of a walk: one reply, and the walk from its last row. */
  lemma WalkStep(db: Db, gaps: seq<seq<Call>>, tenant: string, id: string, after: Option<Row>, limit: nat,
                 ascending: bool, base: set<Row>)
    requires ConversationKey(tenant, id) in db.conversations
    requires CursorKnown(Rows(db.items, tenant, id), after)
    ensures var s, rows := Rows(db.items, tenant, id), Shown(db, tenant, id, IdOf(after), limit, ascending);
            var reply := HandleList(db, tenant, id, IdOf(after), limit, ascending).reply;
            var w := Walk(db, gaps, tenant, id, IdOf(after), limit, ascending, base);
            && (reply.hasMore ==> rows != [])
            && if !reply.hasMore || gaps == [] then w == Amid(rows, DataOf(rows), !reply.hasMore, base * s)
               else
                 var more := Walk(RunCalls(db, gaps[0]), gaps[1..], tenant, id, Some(rows[|rows| - 1].id), limit,
                                  ascending, base * s);
                 w == Amid(rows + more.rows, DataOf(rows) + more.data, more.ended, more.stayed)
  {
    hide Rows, HandleList, RunCalls, Shown, DataOf, Past;
    if after.Some? && after.value !in Rows(db.items, tenant, id) {
      ReplyWithoutCursor(db, tenant, id, after.value.id, limit, ascending);
      NoData();
    } else {
      ReplyInOrder(db, tenant, id, after, limit, ascending);
    }
  }

  lemma NoData()
    ensures DataOf([]) == []
  {
  }

  /** A walk that ended has shown everything that stayed exactly if its cursors held. */
  lemma {:induction false} StayedAreShownFrom(db: Db, gaps: seq<seq<Call>>, tenant: string, id: string,
                                              after: Option<Row>, limit: nat, ascending: bool, base: set<Row>,
                                              shown: set<Row>)
    requires GapsEvolve(db, gaps, tenant, id)
    requires CursorKnown(Rows(db.items, tenant, id), after)
    requires Upto(shown, Rows(db.items, tenant, id), after, base, ascending)
    ensures var w := Walk(db, gaps, tenant, id, IdOf(after), limit, ascending, base);
            w.ended ==> (AllShown(w.stayed, shown, w.rows) <==>
                         CursorsHold(db, gaps, tenant, id, after, limit, ascending, base))
    decreases |gaps|
  {
    hide Rows, HandleList, RunCalls, Shown, Walk, Upto, Evolves, CursorKnown, Past, Before, AllShown, DataOf;
    var s := Rows(db.items, tenant, id);
    var reply := HandleList(db, tenant, id, IdOf(after), limit, ascending).reply;
    var rows := Shown(db, tenant, id, IdOf(after), limit, ascending);
    WalkStep(db, gaps, tenant, id, after, limit, ascending, base);
    if after.Some? && after.value !in s {
      CursorIsGone(db, gaps, tenant, id, after.value, limit, ascending, base, shown);
    } else {
      ReplyInOrder(db, tenant, id, after, limit, ascending);
      if !reply.hasMore {
        LastPageShowsAll(shown, s, after, base, rows, ascending);
      } else if gaps != [] {
        var next, last := RunCalls(db, gaps[0]), rows[|rows| - 1];
        var t := Rows(next.items, tenant, id);
        assert last in rows;
        NextUpto(shown, s, t, after, base, rows, ascending);
        var more := Walk(next, gaps[1..], tenant, id, Some(last.id), limit, ascending, base * s);
        ShownBefore(more.stayed, shown, rows, more.rows);
        CursorStaysKnown(s, t, last);
        var shown' := shown + (set r | r in rows);
        StayedAreShownFrom(next, gaps[1..], tenant, id, Some(last), limit, ascending, base * s, shown');
      }
    }
  }

  predicate AllShown(stayed: set<Row>, shown: set<Row>, rows: seq<Row>) {
    forall r | r in stayed :: r in shown || r in rows
  }

  lemma ShownBefore(stayed: set<Row>, shown: set<Row>, rows: seq<Row>, more: seq<Row>)
    ensures AllShown(stayed, shown + (set r | r in rows), more) <==> AllShown(stayed, shown, rows + more)
  {
  }

  lemma LastPageShowsAll(shown: set<Row>, s: set<Row>, after: Option<Row>, base: set<Row>, rows: seq<Row>,
                         ascending: bool)
    requires Upto(shown, s, after, base, ascending)
    requires forall r | r in s && Afterwards(r, after, ascending) :: r in rows
    ensures AllShown(base * s, shown, rows)
  {
  }

  lemma CursorIsGone(db: Db, gaps: seq<seq<Call>>, tenant: string, id: string, after: Row, limit: nat,
                     ascending: bool, base: set<Row>, shown: set<Row>)
    requires ConversationKey(tenant, id) in db.conversations
    requires after !in Rows(db.items, tenant, id) && CursorKnown(Rows(db.items, tenant, id), Some(after))
    requires Upto(shown, Rows(db.items, tenant, id), Some(after), base, ascending)
    ensures var w := Walk(db, gaps, tenant, id, Some(after.id), limit, ascending, base);
            && w.ended && w.rows == []
            && (AllShown(w.stayed, shown, []) <==>
                CursorsHold(db, gaps, tenant, id, Some(after), limit, ascending, base))
  {
    hide Rows, HandleList, RunCalls, Shown, Past;
    ReplyWithoutCursor(db, tenant, id, after.id, limit, ascending);
  }

  /** What is shown is in order, without repetition, and its data is what the replies carried. */
  lemma {:induction false} ShownInOrderFrom(db: Db, gaps: seq<seq<Call>>, tenant: string, id: string,
                                            after: Option<Row>, limit: nat, ascending: bool, base: set<Row>)
    requires GapsEvolve(db, gaps, tenant, id)
    requires CursorKnown(Rows(db.items, tenant, id), after)
    ensures var w := Walk(db, gaps, tenant, id, IdOf(after), limit, ascending, base);
            && SortedFrom(after, w.rows, ascending)
            && w.data == DataOf(w.rows)
            && (!ascending ==> forall r | r in w.rows :: r in Rows(db.items, tenant, id))
    decreases |gaps|
  {
    hide Rows, HandleList, RunCalls, Shown, Walk, DataOf, SortedFrom, Evolves, Past;
    var s := Rows(db.items, tenant, id);
    var reply := HandleList(db, tenant, id, IdOf(after), limit, ascending).reply;
    var rows := Shown(db, tenant, id, IdOf(after), limit, ascending);
    WalkStep(db, gaps, tenant, id, after, limit, ascending, base);
    if after.Some? && after.value !in s {
      ReplyWithoutCursor(db, tenant, id, after.value.id, limit, ascending);
      EmptyIsSorted(after, ascending);
    } else {
      ReplyInOrder(db, tenant, id, after, limit, ascending);
      if reply.hasMore && gaps != [] {
        var next, last := RunCalls(db, gaps[0]), rows[|rows| - 1];
        var t := Rows(next.items, tenant, id);
        assert last in rows;
        CursorStaysKnown(s, t, last);
        ShownInOrderFrom(next, gaps[1..], tenant, id, Some(last), limit, ascending, base * s);
        var more := Walk(next, gaps[1..], tenant, id, Some(last.id), limit, ascending, base * s);
        SortedOn(after, rows, more.rows, ascending);
        DataOfAppend(rows, more.rows);
        if !ascending && more.rows != [] {
          CursorWasThere(next, gaps[1..], tenant, id, last, limit, ascending, base * s);
          OnlyOld(s, t, last, more.rows);
        }
      }
    }
  }

  lemma EmptyIsSorted(after: Option<Row>, ascending: bool)
    ensures SortedFrom(after, [], ascending)
  {
  }

  lemma SortedOn(after: Option<Row>, x: seq<Row>, y: seq<Row>, ascending: bool)
    requires x != [] && SortedFrom(after, x, ascending) && SortedFrom(Some(x[|x| - 1]), y, ascending)
    ensures SortedFrom(after, x + y, ascending)
  {
    var last := x[|x| - 1];
    forall i, r | 0 <= i < |x| && r in y ensures Past(x[i], r, ascending) {
      if i < |x| - 1 { PastOn(x[i], last, r, ascending); }
    }
    if after.Some? {
      forall r | r in x + y ensures Past(after.value, r, ascending) {
        if r !in x { PastOn(after.value, last, r, ascending); }
      }
    }
    forall i, j | 0 <= i < j < |x + y| ensures Past((x + y)[i], (x + y)[j], ascending) {
      if i < |x| <= j { assert y[j - |x|] in y; }
    }
  }

  lemma PastOn(a: Row, b: Row, c: Row, ascending: bool)
    requires Past(a, b, ascending) && Past(b, c, ascending)
    ensures Past(a, c, ascending)
  {
    if ascending { BeforeTransitive(a, b, c); } else { BeforeTransitive(c, b, a); }
  }

  lemma CursorWasThere(db: Db, gaps: seq<seq<Call>>, tenant: string, id: string, c: Row, limit: nat,
                       ascending: bool, base: set<Row>)
    requires ConversationKey(tenant, id) in db.conversations && CursorKnown(Rows(db.items, tenant, id), Some(c))
    requires Walk(db, gaps, tenant, id, Some(c.id), limit, ascending, base).rows != []
    ensures c in Rows(db.items, tenant, id)
  {
    hide Rows, HandleList, RunCalls, Shown;
    if c !in Rows(db.items, tenant, id) { ReplyWithoutCursor(db, tenant, id, c.id, limit, ascending); }
  }

  /** Rows before one that was there and still is were there themselves. */
  lemma OnlyOld(s: set<Row>, t: set<Row>, c: Row, rows: seq<Row>)
    requires Evolves(s, t) && c in s * t && SortedFrom(Some(c), rows, false) && forall r | r in rows :: r in t
    ensures forall r | r in rows :: r in s
  {
    forall r | r in rows ensures r in s {
      BeforeTrichotomy(c, r);
      assert r !in t - s;
    }
  }

  /**
   * Whatever anybody requests between the pages, short of deleting the conversation, reusing a deleted
   * item's id, or appending at a saturated position out of order: what a walk shows is in order and
   * never repeated; a walk that ends has shown every row that was there throughout if and only if no
   * cursor was deleted before such rows still to come; and a descending walk shows nothing appended since.
   */
  lemma WalkAmidChanges(db: Db, gaps: seq<seq<Call>>, tenant: string, id: string, limit: nat, ascending: bool)
    requires PageWalk.InI64(db.items) && ConversationKey(tenant, id) in db.conversations
    requires GapsMayChange(db, gaps, tenant, id)
    ensures var s := Rows(db.items, tenant, id);
            var w := Walk(db, gaps, tenant, id, None, limit, ascending, s);
            && DirectedSorted(w.rows, ascending) && w.data == DataOf(w.rows)
            && (w.ended ==> (AllShown(w.stayed, {}, w.rows) <==>
                             CursorsHold(db, gaps, tenant, id, None, limit, ascending, s)))
            && (!ascending ==> forall r | r in w.rows :: r in s)
  {
    hide Rows, Walk, CursorsHold, GapsEvolve, GapsMayChange, PageWalk.InI64, Past;
    var s := Rows(db.items, tenant, id);
    ChangesEvolve(db, gaps, tenant, id);
    StayedAreShownFrom(db, gaps, tenant, id, None, limit, ascending, s, {});
    ShownInOrderFrom(db, gaps, tenant, id, None, limit, ascending, s);
  }
}
