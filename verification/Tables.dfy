/** The posts and interactions tables of one device, as lists of rows in insertion order,
    and the queries the sync protocol runs on them (src-tauri/src/storage/posts.rs and
    interactions.rs). */
module Tables {

  /** A row. `valid` says whether the row passes validation and its signature verifies. */
  datatype Item =
    | Post(id: string, author: string, timestamp: nat, valid: bool, body: string)
    | Interaction(id: string, author: string, timestamp: nat, valid: bool, target: string)

  /** Two rows that the table's unique indexes do not allow together: the primary key is
      (author, id), and interactions are also unique by author, kind and target. */
  predicate Conflicts(x: Item, y: Item) {
    x.author == y.author && (x.id == y.id || (x.Interaction? && y.Interaction? && x.target == y.target))
  }

  predicate Blocked(rows: seq<Item>, x: Item) {
    exists y :: y in rows && Conflicts(y, x)
  }

  /** `INSERT OR IGNORE`. */
  function InsertOrIgnore(rows: seq<Item>, x: Item): seq<Item> {
    if Blocked(rows, x) then rows else rows + [x]
  }

  ghost predicate Unique(rows: seq<Item>) {
    forall i, j :: 0 <= i < j < |rows| ==> !Conflicts(rows[i], rows[j])
  }

  /** A post is appended exactly when no row has its author and id. */
  lemma InsertPostExactly(rows: seq<Item>, x: Item)
    requires x.Post?
    ensures InsertOrIgnore(rows, x) ==
      if exists y :: y in rows && y.author == x.author && y.id == x.id then rows else rows + [x]
  {
    forall y | y in rows
      ensures Conflicts(y, x) <==> y.author == x.author && y.id == x.id
    {
    }
  }

  /** An interaction is appended exactly when no row has its author and id, or its author and target. */
  lemma InsertInteractionExactly(rows: seq<Item>, x: Item)
    requires x.Interaction?
    ensures InsertOrIgnore(rows, x) ==
      if exists y :: y in rows && y.author == x.author && (y.id == x.id || (y.Interaction? && y.target == x.target))
      then rows else rows + [x]
  {
    forall y | y in rows
      ensures Conflicts(y, x) <==> y.author == x.author && (y.id == x.id || (y.Interaction? && y.target == x.target))
    {
    }
  }

  /** The unique indexes: no two rows share author and id, nor, for interactions, author and target. */
  lemma UniqueExactly(rows: seq<Item>)
    ensures Unique(rows) <==> forall i, j :: 0 <= i < j < |rows| && rows[i].author == rows[j].author ==>
      && rows[i].id != rows[j].id
      && (rows[i].Interaction? && rows[j].Interaction? ==> rows[i].target != rows[j].target)
  {
    forall i, j | 0 <= i < j < |rows|
      ensures Conflicts(rows[i], rows[j]) ==
        (rows[i].author == rows[j].author
         && (rows[i].id == rows[j].id
             || (rows[i].Interaction? && rows[j].Interaction? && rows[i].target == rows[j].target)))
    {
    }
  }

  function Select(rows: seq<Item>, p: Item -> bool): (r: seq<Item>)
    ensures forall x :: x in r <==> x in rows && p(x)
  {
    if rows == [] then []
    else
      var rest := Select(rows[..|rows| - 1], p);
      var x := rows[|rows| - 1];
      if p(x) then rest + [x] else rest
  }

  function ByAuthor(a: string): Item -> bool {
    (x: Item) => x.author == a
  }

  function NewerThan(a: string, ts: nat): Item -> bool {
    (x: Item) => x.author == a && x.timestamp > ts
  }

  function Unknown(a: string, known: set<string>): Item -> bool {
    (x: Item) => x.author == a && x.id !in known
  }

  function Count(rows: seq<Item>, p: Item -> bool): nat {
    |Select(rows, p)|
  }

  /** `MAX(timestamp)`, or 0 when the author has no row. */
  function Newest(rows: seq<Item>, a: string): (ts: nat)
    ensures forall x :: x in rows && x.author == a ==> x.timestamp <= ts
    ensures ts == 0 || exists x :: x in rows && x.author == a && x.timestamp == ts
  {
    if rows == [] then 0
    else
      var rest := Newest(rows[..|rows| - 1], a);
      var x := rows[|rows| - 1];
      if x.author == a && x.timestamp > rest then x.timestamp else rest
  }

  // ---- ORDER BY timestamp ASC ------------------------------------------------

  function InsertByTime(s: seq<Item>, x: Item): (r: seq<Item>)
    ensures multiset(r) == multiset(s) + multiset{x}
    ensures |r| == |s| + 1
    ensures forall y :: y in r <==> y in s || y == x
  {
    if s == [] || s[|s| - 1].timestamp <= x.timestamp then s + [x]
    else
      assert s == s[..|s| - 1] + [s[|s| - 1]];
      InsertByTime(s[..|s| - 1], x) + [s[|s| - 1]]
  }

  /** Stable order by timestamp: rows of equal timestamp keep their insertion order. */
  function SortByTime(rows: seq<Item>): (r: seq<Item>)
    ensures multiset(r) == multiset(rows)
    ensures |r| == |rows|
  {
    if rows == [] then []
    else
      assert rows == rows[..|rows| - 1] + [rows[|rows| - 1]];
      InsertByTime(SortByTime(rows[..|rows| - 1]), rows[|rows| - 1])
  }

  predicate InTimeOrder(s: seq<Item>) {
    forall i, j :: 0 <= i < j < |s| ==> s[i].timestamp <= s[j].timestamp
  }

  lemma {:induction false} InsertKeepsOrder(s: seq<Item>, x: Item)
    requires InTimeOrder(s)
    ensures InTimeOrder(InsertByTime(s, x))
  {
    if s != [] && s[|s| - 1].timestamp > x.timestamp {
      InsertKeepsOrder(s[..|s| - 1], x);
      OrderedSnoc(InsertByTime(s[..|s| - 1], x), s[|s| - 1]);
    } else {
      OrderedSnoc(s, x);
    }
  }

  lemma OrderedSnoc(s: seq<Item>, last: Item)
    requires InTimeOrder(s) && forall y :: y in s ==> y.timestamp <= last.timestamp
    ensures InTimeOrder(s + [last])
  {
  }

  lemma {:induction false} SortOrders(rows: seq<Item>)
    ensures InTimeOrder(SortByTime(rows))
  {
    if rows != [] {
      SortOrders(rows[..|rows| - 1]);
      InsertKeepsOrder(SortByTime(rows[..|rows| - 1]), rows[|rows| - 1]);
    }
  }

  lemma {:induction false} SelectAppend(a: seq<Item>, b: seq<Item>, p: Item -> bool)
    ensures Select(a + b, p) == Select(a, p) + Select(b, p)
  {
    if b == [] {
      assert a + b == a;
    } else {
      SelectAppend(a, b[..|b| - 1], p);
      assert (a + b)[..|a + b| - 1] == a + b[..|b| - 1];
    }
  }

  lemma SelectOne(x: Item, p: Item -> bool)
    ensures Select([x], p) == if p(x) then [x] else []
  {
    assert [x][..0] == [];
    assert Select([], p) == [];
  }

  function AtTime(ts: nat): Item -> bool {
    (x: Item) => x.timestamp == ts
  }

  lemma {:induction false} InsertIsStable(s: seq<Item>, x: Item, ts: nat)
    ensures Select(InsertByTime(s, x), AtTime(ts)) == Select(s, AtTime(ts)) + Select([x], AtTime(ts))
  {
    if s == [] || s[|s| - 1].timestamp <= x.timestamp {
      SelectAppend(s, [x], AtTime(ts));
    } else {
      InsertIsStable(s[..|s| - 1], x, ts);
      PastTheLast(s, x, ts);
    }
  }

  lemma Swap(a: seq<Item>, b: seq<Item>, c: seq<Item>)
    requires b == [] || c == []
    ensures a + b + c == a + c + b
  {
  }

  lemma LastSelected(s: seq<Item>, p: Item -> bool)
    requires s != []
    ensures Select(s, p) == Select(s[..|s| - 1], p) + Select([s[|s| - 1]], p)
  {
    SelectOne(s[|s| - 1], p);
    assert Select(s[..|s| - 1], p) + [] == Select(s[..|s| - 1], p);
  }

  /** A row put before a later one: the two are not of the same time. */
  lemma PastTheLast(s: seq<Item>, x: Item, ts: nat)
    requires s != [] && s[|s| - 1].timestamp > x.timestamp
    requires Select(InsertByTime(s[..|s| - 1], x), AtTime(ts))
          == Select(s[..|s| - 1], AtTime(ts)) + Select([x], AtTime(ts))
    ensures Select(InsertByTime(s, x), AtTime(ts)) == Select(s, AtTime(ts)) + Select([x], AtTime(ts))
  {
    var init, last, p := s[..|s| - 1], s[|s| - 1], AtTime(ts);
    SelectAppend(InsertByTime(init, x), [last], p);
    LastSelected(s, p);
    SelectOne(last, p);
    SelectOne(x, p);
    Swap(Select(init, p), Select([x], p), Select([last], p));
  }

  /** Rows of equal timestamp keep their insertion order. */
  lemma {:induction false} SortIsStable(rows: seq<Item>, ts: nat)
    ensures Select(SortByTime(rows), AtTime(ts)) == Select(rows, AtTime(ts))
  {
    if rows != [] {
      SortIsStable(rows[..|rows| - 1], ts);
      InsertIsStable(SortByTime(rows[..|rows| - 1]), rows[|rows| - 1], ts);
      LastSelected(rows, AtTime(ts));
    }
  }

  lemma SortMembers(rows: seq<Item>)
    ensures forall x :: x in SortByTime(rows) <==> x in rows
  {
    forall x
      ensures x in SortByTime(rows) <==> x in rows
    {
      assert x in multiset(SortByTime(rows)) <==> x in multiset(rows);
    }
  }

  function Min(a: nat, b: nat): nat {
    if a < b then a else b
  }

  /** `LIMIT limit OFFSET offset`. */
  function Page(s: seq<Item>, limit: nat, offset: nat): seq<Item> {
    s[Min(offset, |s|)..Min(offset + limit, |s|)]
  }

  // ---- Counting rows as sets ---------------------------------------------------

  function RowSet(rows: seq<Item>, p: Item -> bool): set<Item> {
    set x | x in rows && p(x)
  }

  lemma RowSetSnoc(rows: seq<Item>, p: Item -> bool)
    requires Unique(rows) && rows != []
    ensures var init, x := rows[..|rows| - 1], rows[|rows| - 1];
      RowSet(rows, p) == (if p(x) then RowSet(init, p) + {x} else RowSet(init, p)) && x !in RowSet(init, p)
  {
    var init, x := rows[..|rows| - 1], rows[|rows| - 1];
    forall i | 0 <= i < |init|
      ensures init[i] != x
    {
      assert !Conflicts(rows[i], rows[|rows| - 1]);
    }
    assert rows == init + [x];
  }

  /** With unique rows a count is the size of the set of selected rows. */
  lemma {:induction false} CountIsCardinality(rows: seq<Item>, p: Item -> bool)
    requires Unique(rows)
    ensures Count(rows, p) == |RowSet(rows, p)|
  {
    if rows != [] {
      CountIsCardinality(rows[..|rows| - 1], p);
      RowSetSnoc(rows, p);
    } else {
      assert RowSet(rows, p) == {};
    }
  }

  lemma {:induction false} SelectUnique(rows: seq<Item>, p: Item -> bool)
    requires Unique(rows)
    ensures Unique(Select(rows, p))
  {
    if rows != [] {
      var init, x := rows[..|rows| - 1], rows[|rows| - 1];
      SelectUnique(init, p);
      forall y | y in Select(init, p)
        ensures !Conflicts(y, x)
      {
        var i :| 0 <= i < |init| && init[i] == y;
        assert !Conflicts(rows[i], rows[|rows| - 1]);
      }
    }
  }

  lemma InsertKeepsUnique(rows: seq<Item>, x: Item)
    requires Unique(rows)
    ensures Unique(InsertOrIgnore(rows, x))
  {
  }

  // ---- Selections in order ---------------------------------------------------------

  /** Rows in order of timestamp, none twice. */
  predicate OnceInOrder(sent: seq<Item>) {
    InTimeOrder(sent) && forall i, j :: 0 <= i < j < |sent| ==> sent[i] != sent[j]
  }

  lemma SelectionOnce(rows: seq<Item>, p: Item -> bool)
    requires Unique(rows)
    ensures var sent := SortByTime(Select(rows, p));
      OnceInOrder(sent) && forall x :: x in sent <==> x in rows && p(x)
  {
    var s := Select(rows, p);
    SelectUnique(rows, p);
    SortOrders(s);
    SortMembers(s);
    forall x
      ensures multiset(s)[x] <= 1
    {
      UniqueOnce(s, x);
    }
    NoRepeats(SortByTime(s));
  }

  lemma {:induction false} UniqueOnce(s: seq<Item>, x: Item)
    requires Unique(s)
    ensures multiset(s)[x] <= 1
  {
    if s != [] {
      var init, last := s[..|s| - 1], s[|s| - 1];
      assert s == init + [last];
      UniqueOnce(init, x);
      if x == last {
        forall i | 0 <= i < |init|
          ensures init[i] != x
        {
          assert !Conflicts(s[i], s[|s| - 1]);
        }
        assert x !in multiset(init);
      }
    }
  }

  lemma NoRepeats(s: seq<Item>)
    requires forall x :: multiset(s)[x] <= 1
    ensures forall i, j :: 0 <= i < j < |s| ==> s[i] != s[j]
  {
    forall i, j | 0 <= i < j < |s|
      ensures s[i] != s[j]
    {
      assert s == s[..i] + [s[i]] + s[i + 1..];
      assert multiset(s) == multiset(s[..i]) + multiset{s[i]} + multiset(s[i + 1..]);
      assert s[j] == s[i + 1..][j - i - 1];
      assert s[j] in s[i + 1..];
      assert multiset(s)[s[i]] == multiset(s[..i])[s[i]] + 1 + multiset(s[i + 1..])[s[i]];
    }
  }

  // ---- Pages ----------------------------------------------------------------------

  /** What one page of a query is: matching rows in order of timestamp, none twice, as many as
      are left after `offset` and fit. */
  ghost predicate IsPage(page: seq<Item>, rows: seq<Item>, p: Item -> bool, limit: nat, offset: nat) {
    && (forall x :: x in page ==> x in rows && p(x))
    && InTimeOrder(page) && (Unique(rows) ==> OnceInOrder(page))
    && |page| == Min(limit, if offset <= Count(rows, p) then Count(rows, p) - offset else 0)
  }

  lemma PageIs(rows: seq<Item>, p: Item -> bool, limit: nat, offset: nat)
    ensures IsPage(Page(SortByTime(Select(rows, p)), limit, offset), rows, p, limit, offset)
  {
    var s := SortByTime(Select(rows, p));
    SortOrders(Select(rows, p));
    SortMembers(Select(rows, p));
    if Unique(rows) { SelectionOnce(rows, p); }
    PageOrdered(s, limit, offset);
  }

  lemma PageOrdered(s: seq<Item>, limit: nat, offset: nat)
    requires InTimeOrder(s)
    ensures var page := Page(s, limit, offset);
      && InTimeOrder(page) && (OnceInOrder(s) ==> OnceInOrder(page))
      && (forall x :: x in page ==> x in s)
      && |page| == Min(limit, if offset <= |s| then |s| - offset else 0)
  {
    var page, from := Page(s, limit, offset), Min(offset, |s|);
    assert forall i :: 0 <= i < |page| ==> page[i] == s[from + i];
  }

  /** Consecutive pages join up, and the first page of sufficient size is everything. */
  lemma PagesJoin(s: seq<Item>, n: nat, m: nat, offset: nat)
    ensures Page(s, n, offset) + Page(s, m, offset + n) == Page(s, n + m, offset)
    ensures |s| <= n ==> Page(s, n, 0) == s
  {
  }

  predicate OnPage(s: seq<Item>, limit: nat, k: nat, x: Item) {
    x in Page(s, limit, k * limit)
  }

  /** A paged query gives every selected row, on exactly one of its pages. */
  lemma OnOnePage(rows: seq<Item>, p: Item -> bool, limit: nat, x: Item)
    requires Unique(rows) && limit > 0 && x in rows && p(x)
    ensures var s := SortByTime(Select(rows, p));
      && (exists k: nat :: OnPage(s, limit, k, x))
      && (forall k: nat, l: nat :: OnPage(s, limit, k, x) && OnPage(s, limit, l, x) ==> k == l)
  {
    SelectionOnce(rows, p);
    FoundOnOnePage(SortByTime(Select(rows, p)), limit, x);
  }

  lemma FoundOnOnePage(s: seq<Item>, limit: nat, x: Item)
    requires OnceInOrder(s) && limit > 0 && x in s
    ensures exists k: nat :: OnPage(s, limit, k, x)
    ensures forall k: nat, l: nat :: OnPage(s, limit, k, x) && OnPage(s, limit, l, x) ==> k == l
  {
    var i :| 0 <= i < |s| && s[i] == x;
    var n: nat := i / limit;
    PageOfIndex(s, limit, i, n);
    forall k: nat, l: nat | OnPage(s, limit, k, x) && OnPage(s, limit, l, x)
      ensures k == l
    {
      PageOfIndex(s, limit, i, k);
      PageOfIndex(s, limit, i, l);
    }
  }

  lemma PageOfIndex(s: seq<Item>, limit: nat, i: nat, k: nat)
    requires OnceInOrder(s) && limit > 0 && i < |s|
    ensures OnPage(s, limit, k, s[i]) <==> k == i / limit
  {
    InRange(i, limit, k);
    InPage(s, limit, k * limit, i);
  }

  lemma InPage(s: seq<Item>, limit: nat, offset: nat, i: nat)
    requires OnceInOrder(s) && i < |s|
    ensures s[i] in Page(s, limit, offset) <==> offset <= i < offset + limit
  {
    var page := Page(s, limit, offset);
    if offset <= i < offset + limit { assert page[i - offset] == s[i]; }
    if s[i] in page {
      var j :| 0 <= j < |page| && page[j] == s[i];
      assert s[offset + j] == s[i];
    }
  }

  lemma InRange(i: nat, limit: nat, k: nat)
    requires limit > 0
    ensures k * limit <= i < k * limit + limit <==> k == i / limit
  {
    assert i == i / limit * limit + i % limit;
    if k < i / limit { assert (k + 1) * limit <= i / limit * limit; }
    if k > i / limit { assert (i / limit + 1) * limit <= k * limit; }
  }
}
