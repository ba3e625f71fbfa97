/** The order of conversation items, `ORDER BY position, item_id`, and pages cut from it. */
module ItemOrder {
  import opened Prelude
  import opened JsonValues

  datatype Row = Row(id: string, data: Json, createdAt: int, position: int)

  /** Byte-wise comparison of text, the database's default collation. */
  predicate TextBefore(a: string, b: string) {
    b != "" && (a == "" || a[0] < b[0] || (a[0] == b[0] && TextBefore(a[1..], b[1..])))
  }

  lemma {:induction false} TextTrichotomy(a: string, b: string)
    ensures TextBefore(a, b) || TextBefore(b, a) || a == b
    ensures !(TextBefore(a, b) && TextBefore(b, a))
    ensures !TextBefore(a, a)
  {
    if a != "" {
      TextTrichotomy(a[1..], if b == "" then "" else b[1..]);
      if b != "" && a[0] == b[0] && a[1..] == b[1..] {
        assert a == [a[0]] + a[1..] && b == [b[0]] + b[1..];
      }
    }
  }

  lemma {:induction false} TextTransitive(a: string, b: string, c: string)
    requires TextBefore(a, b) && TextBefore(b, c)
    ensures TextBefore(a, c)
  {
    if a != "" && a[0] == b[0] && b[0] == c[0] { TextTransitive(a[1..], b[1..], c[1..]); }
  }

  /** Alike up to place n, where `a` ends or has the smaller character. */
  predicate PartsAt(a: string, b: string, n: nat) {
    n <= |a| && n < |b| && a[..n] == b[..n] && (n == |a| || a[n] < b[n])
  }

  lemma PartsLater(a: string, b: string, n: nat)
    requires a != "" && b != "" && n > 0
    ensures PartsAt(a, b, n) <==> a[0] == b[0] && PartsAt(a[1..], b[1..], n - 1)
  {
    if n <= |a| && n <= |b| {
      var x, y := a[1..][..n - 1], b[1..][..n - 1];
      assert a[..n] == [a[0]] + x && b[..n] == [b[0]] + y;
      assert a[..n][1..] == x && b[..n][1..] == y;
    }
  }

  ghost predicate Parts(a: string, b: string) { exists n: nat :: PartsAt(a, b, n) }

  lemma PartsFirst(a: string, b: string)
    requires a != "" && b != ""
    ensures Parts(a, b) <==> a[0] < b[0] || (a[0] == b[0] && Parts(a[1..], b[1..]))
  {
    if a[0] < b[0] {
      assert PartsAt(a, b, 0);
    } else if Parts(a, b) {
      var n: nat :| PartsAt(a, b, n);
      PartsLater(a, b, n);
    } else if Parts(a[1..], b[1..]) {
      var n: nat :| PartsAt(a[1..], b[1..], n);
      PartsLater(a, b, n + 1);
    }
  }

  /** Text comes before other text exactly when it parts from it with an end or a smaller character. */
  lemma {:induction false} TextBeforeIff(a: string, b: string)
    ensures TextBefore(a, b) <==> exists n: nat :: PartsAt(a, b, n)
  {
    if a == "" || b == "" {
      assert b != "" ==> PartsAt(a, b, 0);
    } else {
      TextBeforeIff(a[1..], b[1..]);
      PartsFirst(a, b);
    }
  }

  predicate Before(a: Row, b: Row) {
    a.position < b.position || (a.position == b.position && TextBefore(a.id, b.id))
  }

  lemma BeforeTransitive(a: Row, b: Row, c: Row)
    requires Before(a, b) && Before(b, c)
    ensures Before(a, c)
  {
    if a.position == b.position == c.position { TextTransitive(a.id, b.id, c.id); }
  }

  lemma BeforeTrichotomy(a: Row, b: Row)
    ensures Before(a, b) || Before(b, a) || (a.id == b.id && a.position == b.position)
    ensures !(Before(a, b) && Before(b, a)) && !Before(a, a)
  {
    TextTrichotomy(a.id, b.id);
  }

  predicate UniqueIds(s: set<Row>) { forall a, b | a in s && b in s && a.id == b.id :: a == b }

  predicate Sorted(rows: seq<Row>) { forall i, j | 0 <= i < j < |rows| :: Before(rows[i], rows[j]) }

  predicate Lists(rows: seq<Row>, s: set<Row>) {
    (forall r | r in rows :: r in s) && (forall r | r in s :: r in rows)
  }

  predicate IsLeast(m: Row, s: set<Row>) { m in s && forall x | x in s :: x == m || Before(m, x) }

  lemma {:induction false} LeastExists(s: set<Row>)
    requires s != {} && UniqueIds(s)
    ensures exists m :: IsLeast(m, s)
  {
    var x :| x in s;
    if s == {x} {
      assert IsLeast(x, s);
    } else {
      var rest := s - {x};
      LeastExists(rest);
      var m :| IsLeast(m, rest);
      BeforeTrichotomy(x, m);
      if Before(m, x) {
        assert IsLeast(m, s);
      } else {
        forall y | y in s ensures y == x || Before(x, y) {
          if y != x && y != m { BeforeTransitive(x, m, y); }
        }
        assert IsLeast(x, s);
      }
    }
  }

  lemma LeastUnique(s: set<Row>, m: Row, n: Row)
    requires IsLeast(m, s) && IsLeast(n, s)
    ensures m == n
  {
    BeforeTrichotomy(m, n);
  }

  function Least(s: set<Row>): (m: Row)
    requires s != {} && UniqueIds(s)
    ensures IsLeast(m, s)
  {
    LeastExists(s);
    assert forall m, n | IsLeast(m, s) && IsLeast(n, s) :: m == n by {
      forall m, n | IsLeast(m, s) && IsLeast(n, s) ensures m == n { LeastUnique(s, m, n); }
    }
    var m :| m in s && IsLeast(m, s); m
  }

  /** The rows of a set in ascending order. */
  function Ordered(s: set<Row>): (rows: seq<Row>)
    requires UniqueIds(s)
    ensures Lists(rows, s) && Sorted(rows) && |rows| == |s|
  {
    if s == {} then []
    else
      var m := Least(s);
      var rest := Ordered(s - {m});
      LeastFirst(s, m, rest);
      [m] + rest
  }

  lemma LeastFirst(s: set<Row>, m: Row, rest: seq<Row>)
    requires IsLeast(m, s) && Lists(rest, s - {m}) && Sorted(rest) && |rest| == |s - {m}|
    ensures Lists([m] + rest, s) && Sorted([m] + rest) && |[m] + rest| == |s|
  {
    var all := [m] + rest;
    assert forall i | 0 <= i < |rest| :: rest[i] in s - {m};
    forall i, j | 0 <= i < j < |all| ensures Before(all[i], all[j]) {
      if i == 0 { assert all[j] in s - {m}; } else { assert all[i] == rest[i - 1] && all[j] == rest[j - 1]; }
    }
    assert forall r | r in s :: r == m || r in s - {m};
  }

  lemma SortedTail(x: seq<Row>, s: set<Row>)
    requires x != [] && Sorted(x) && Lists(x, s)
    ensures Sorted(x[1..]) && Lists(x[1..], s - {x[0]})
  {
    forall r | r in x[1..] ensures r in s - {x[0]} {
      var k :| 0 <= k < |x| - 1 && x[1..][k] == r;
      assert Before(x[0], x[k + 1]);
      BeforeTrichotomy(x[0], x[0]);
    }
    forall r | r in s - {x[0]} ensures r in x[1..] {
      var k :| 0 <= k < |x| && x[k] == r;
      assert x[1..][k - 1] == r;
    }
  }

  lemma HeadsAgree(x: seq<Row>, y: seq<Row>, s: set<Row>)
    requires Sorted(x) && Sorted(y) && Lists(x, s) && Lists(y, s) && x != [] && y != []
    ensures x[0] == y[0]
  {
    assert x[0] in s && y[0] in s;
    var i :| 0 <= i < |y| && y[i] == x[0];
    var j :| 0 <= j < |x| && x[j] == y[0];
    BeforeTrichotomy(x[0], y[0]);
  }

  lemma EmptyTogether(x: seq<Row>, s: set<Row>)
    requires Lists(x, s)
    ensures x == [] <==> s == {}
  {
    if x != [] { assert x[0] in s; }
    if s != {} { var r :| r in s; assert r in x; }
  }

  /** There is only one ascending listing of a set of rows. */
  lemma {:induction false} SortedUnique(x: seq<Row>, y: seq<Row>, s: set<Row>)
    requires Sorted(x) && Sorted(y) && Lists(x, s) && Lists(y, s)
    ensures x == y
  {
    if x == [] || y == [] {
      EmptyTogether(x, s);
      EmptyTogether(y, s);
    } else {
      HeadsAgree(x, y, s);
      SortedTail(x, s);
      SortedTail(y, s);
      SortedUnique(x[1..], y[1..], s - {x[0]});
      assert x == [x[0]] + x[1..] && y == [y[0]] + y[1..];
    }
  }

  // ---------------------------------------------------------------------------
  // Pages
  // ---------------------------------------------------------------------------

  function Reversed<T>(s: seq<T>): seq<T> { seq(|s|, i requires 0 <= i < |s| => s[|s| - 1 - i]) }

  function Directed(s: set<Row>, ascending: bool): seq<Row>
    requires UniqueIds(s)
  {
    if ascending then Ordered(s) else Reversed(Ordered(s))
  }

  predicate Past(cursor: Row, r: Row, ascending: bool) { if ascending then Before(cursor, r) else Before(r, cursor) }

  /** The rows the WHERE clause selects: all of them, or those past the cursor; an unknown cursor, none. */
  function Selected(s: set<Row>, after: Option<string>, ascending: bool): (t: set<Row>)
    requires UniqueIds(s)
    ensures t <= s
  {
    match after
    case None => s
    case Some(id) =>
      if exists c :: c in s && c.id == id then
        var c :| c in s && c.id == id;
        set r | r in s && Past(c, r, ascending)
      else {}
  }

  function Take(rows: seq<Row>, limit: nat): seq<Row> { if |rows| <= limit then rows else rows[..limit] }

  /** `list_conversation_items`: WHERE, ORDER BY and LIMIT. */
  function Page(s: set<Row>, after: Option<string>, limit: nat, ascending: bool): seq<Row>
    requires UniqueIds(s)
  {
    Take(Directed(Selected(s, after, ascending), ascending), limit)
  }

  /** The cursor that stands after the first `n` rows of a listing. */
  function CursorAt(listing: seq<Row>, n: nat): Option<string>
    requires n <= |listing|
  {
    if n == 0 then None else Some(listing[n - 1].id)
  }

  predicate DirectedSorted(rows: seq<Row>, ascending: bool) {
    forall i, j | 0 <= i < j < |rows| :: Past(rows[i], rows[j], ascending)
  }

  lemma ReversedLists(rows: seq<Row>, s: set<Row>)
    requires Lists(rows, s)
    ensures Lists(Reversed(rows), s)
  {
    forall r | r in s ensures r in Reversed(rows) {
      var k :| 0 <= k < |rows| && rows[k] == r;
      assert Reversed(rows)[|rows| - 1 - k] == r;
    }
  }

  lemma ReversedTwice<T>(rows: seq<T>)
    ensures Reversed(Reversed(rows)) == rows
  {
  }

  lemma DirectedFacts(s: set<Row>, ascending: bool)
    requires UniqueIds(s)
    ensures var d := Directed(s, ascending);
            |d| == |s| && Lists(d, s) && DirectedSorted(d, ascending)
  {
    ReversedLists(Ordered(s), s);
  }

  lemma DirectedUnique(rows: seq<Row>, s: set<Row>, ascending: bool)
    requires UniqueIds(s) && Lists(rows, s) && DirectedSorted(rows, ascending)
    ensures Directed(s, ascending) == rows
  {
    if ascending {
      SortedUnique(Ordered(s), rows, s);
    } else {
      ReversedLists(rows, s);
      SortedUnique(Ordered(s), Reversed(rows), s);
      ReversedTwice(rows);
    }
  }

  lemma RestIsPast(d: seq<Row>, s: set<Row>, n: nat, ascending: bool)
    requires Lists(d, s) && DirectedSorted(d, ascending) && 0 < n <= |d|
    ensures Lists(d[n..], set r | r in s && Past(d[n - 1], r, ascending))
  {
    var c := d[n - 1];
    var past := set r | r in s && Past(c, r, ascending);
    forall r | r in d[n..] ensures r in past {
      var k :| 0 <= k < |d| - n && d[n..][k] == r;
      assert Past(d[n - 1], d[n + k], ascending);
    }
    forall r | r in past ensures r in d[n..] {
      var k :| 0 <= k < |d| && d[k] == r;
      BeforeTrichotomy(c, r);
      assert d[n..][k - n] == r;
    }
  }

  lemma CursorFound(s: set<Row>, c: Row, ascending: bool)
    requires UniqueIds(s) && c in s
    ensures Selected(s, Some(c.id), ascending) == set r | r in s && Past(c, r, ascending)
  {
  }

  /** Selecting past the cursor after `n` rows leaves exactly the rest of the listing. */
  lemma SelectedIsRest(s: set<Row>, n: nat, ascending: bool)
    requires UniqueIds(s) && n <= |Directed(s, ascending)|
    ensures var d := Directed(s, ascending);
            Directed(Selected(s, CursorAt(d, n), ascending), ascending) == d[n..]
  {
    var d := Directed(s, ascending);
    DirectedFacts(s, ascending);
    if n == 0 {
      assert d[0..] == d;
    } else {
      RestIsPast(d, s, n, ascending);
      CursorFound(s, d[n - 1], ascending);
      var past := set r | r in s && Past(d[n - 1], r, ascending);
      assert DirectedSorted(d[n..], ascending);
      DirectedUnique(d[n..], past, ascending);
    }
  }

  /** A page after `n` rows is the next stretch of the listing. */
  lemma PageIsStretch(s: set<Row>, n: nat, limit: nat, ascending: bool)
    requires UniqueIds(s) && n <= |Directed(s, ascending)|
    ensures var d := Directed(s, ascending);
            Page(s, CursorAt(d, n), limit, ascending) == Take(d[n..], limit)
  {
    SelectedIsRest(s, n, ascending);
  }

  /** Rows added after everything listed so far only lengthen the ascending listing. */
  lemma AppendedRows(s: set<Row>, more: set<Row>)
    requires UniqueIds(s) && UniqueIds(s + more)
    requires forall a, b | a in s && b in more :: Before(a, b)
    ensures UniqueIds(more) && Ordered(s + more) == Ordered(s) + Ordered(more)
  {
    assert UniqueIds(more);
    var x, y := Ordered(s), Ordered(more);
    SortedJoin(x, y, s, more);
    SortedUnique(Ordered(s + more), x + y, s + more);
  }

  lemma SortedJoin(x: seq<Row>, y: seq<Row>, s: set<Row>, t: set<Row>)
    requires Sorted(x) && Sorted(y) && Lists(x, s) && Lists(y, t)
    requires forall a, b | a in s && b in t :: Before(a, b)
    ensures Sorted(x + y) && Lists(x + y, s + t)
  {
    forall i, j | 0 <= i < j < |x + y| ensures Before((x + y)[i], (x + y)[j]) {
      if i < |x| <= j { assert x[i] in s && y[j - |x|] in t; }
    }
  }
}
