/** What a sync round does to any client and server tables: which mode the counts select, which
    rows are never sent, the exact tables afterwards, and when nothing is missing. */
module SyncTheorems {
  import opened Tables
  import opened PeerSync

  // ---- How the two tables differ -----------------------------------------------------

  /** The client's rows of the author that the server no longer has. */
  function Gone(client: seq<Item>, server: seq<Item>, a: string): set<Item> {
    RowSet(client, ByAuthor(a)) - RowSet(server, ByAuthor(a))
  }

  /** The server's rows of the author that the client does not have. */
  function Lacking(client: seq<Item>, server: seq<Item>, a: string): set<Item> {
    RowSet(server, ByAuthor(a)) - RowSet(client, ByAuthor(a))
  }

  /** Those of them that are not newer than the client's newest. */
  function Older(client: seq<Item>, server: seq<Item>, a: string): set<Item> {
    set x | x in Lacking(client, server, a) && x.timestamp <= Newest(client, a)
  }

  predicate HasNone(rows: seq<Item>, a: string) {
    forall x :: x in rows ==> x.author != a
  }

  predicate HasZeroTime(rows: seq<Item>, a: string) {
    exists x :: x in rows && x.author == a && x.timestamp == 0
  }

  predicate PositiveTimes(rows: seq<Item>, a: string) {
    forall x :: x in rows && x.author == a ==> x.timestamp > 0
  }

  lemma SubsetSizes(small: set<Item>, big: set<Item>)
    requires small <= big
    ensures |big - small| == |big| - |small|
    ensures |small| == |big| <==> small == big
  {
    assert big == small + (big - small);
  }

  lemma BothSizes(x: set<Item>, y: set<Item>)
    ensures |y| - |x| == |y - x| - |x - y|
  {
    SubsetSizes(x * y, x);
    SubsetSizes(x * y, y);
    assert x - x * y == x - y && y - x * y == y - x;
  }

  // ---- What the counts tell ------------------------------------------------------------

  /** The count difference is the number of rows lacking less the number of rows gone. */
  lemma CountBalance(client: seq<Item>, server: seq<Item>, a: string)
    requires Unique(client) && Unique(server)
    ensures Count(server, ByAuthor(a)) - Count(client, ByAuthor(a))
         == |Lacking(client, server, a)| - |Gone(client, server, a)|
  {
    CountIsCardinality(client, ByAuthor(a));
    CountIsCardinality(server, ByAuthor(a));
    BothSizes(RowSet(client, ByAuthor(a)), RowSet(server, ByAuthor(a)));
  }

  /** As many rows gone as lacking. */
  ghost predicate Balanced(client: seq<Item>, server: seq<Item>, a: string) {
    |Gone(client, server, a)| == |Lacking(client, server, a)|
  }

  /** Equal counts mean just that; they mean equal rows for a client with no row gone. */
  lemma EqualCounts(client: seq<Item>, server: seq<Item>, a: string)
    requires Unique(client) && Unique(server)
    ensures Count(client, ByAuthor(a)) == Count(server, ByAuthor(a)) <==> Balanced(client, server, a)
    ensures Gone(client, server, a) == {} ==> (Balanced(client, server, a) <==> Lacking(client, server, a) == {})
  {
    CountBalance(client, server, a);
  }

  /** What the count test really says about the two tables. */
  ghost predicate TestPasses(client: seq<Item>, server: seq<Item>, a: string) {
    if Newest(client, a) > 0 then |Gone(client, server, a)| == |Older(client, server, a)| else HasNone(client, a)
  }

  lemma NewerAreLacking(client: seq<Item>, server: seq<Item>, a: string)
    ensures RowSet(server, NewerThan(a, Newest(client, a))) == Lacking(client, server, a) - Older(client, server, a)
    ensures Older(client, server, a) <= Lacking(client, server, a)
  {
  }

  /** The count test passes exactly when as many rows are gone as older rows are lacking; without
      a newest timestamp, exactly for a client that holds nothing of the author. */
  lemma CountTest(client: seq<Item>, server: seq<Item>, a: string)
    requires Unique(client) && Unique(server)
    ensures CatchesUp(server, a, Count(client, ByAuthor(a)), Newest(client, a)) <==> TestPasses(client, server, a)
  {
    if Newest(client, a) > 0 {
      CountBalance(client, server, a);
      CountIsCardinality(server, NewerThan(a, Newest(client, a)));
      NewerAreLacking(client, server, a);
      SubsetSizes(Older(client, server, a), Lacking(client, server, a));
    } else {
      CountTestFromZero(client, server, a);
    }
  }

  /** Without a newest timestamp no property of the tables is needed. */
  lemma CountTestFromZero(client: seq<Item>, server: seq<Item>, a: string)
    requires Newest(client, a) == 0
    ensures CatchesUp(server, a, Count(client, ByAuthor(a)), Newest(client, a)) <==> HasNone(client, a)
  {
    NoneCounted(client, a);
  }

  lemma NoneCounted(rows: seq<Item>, a: string)
    ensures Count(rows, ByAuthor(a)) == 0 <==> HasNone(rows, a)
  {
    if Count(rows, ByAuthor(a)) != 0 {
      assert Select(rows, ByAuthor(a))[0] in rows;
    }
  }

  /** The mode, for any two devices; and for a client with no row gone and a server with positive
      timestamps, the id list is asked for exactly when some lacking post is not newer than the
      client's newest. */
  lemma ModeMeaning(cp: seq<Item>, ci: seq<Item>, sp: seq<Item>, si: seq<Item>, a: string)
    requires Unique(cp) && Unique(ci) && Unique(sp) && Unique(si)
    ensures var mode := ModeFor(sp, si, RequestOf(cp, ci, a)); var quiet := Balanced(cp, sp, a) && Balanced(ci, si, a);
      && (mode == UpToDate <==> quiet)
      && (mode == TimestampCatchUp <==> !quiet && TestPasses(cp, sp, a))
      && (mode == NeedIdDiff <==> !quiet && !TestPasses(cp, sp, a))
      && (Gone(cp, sp, a) == {} && PositiveTimes(sp, a) ==> (mode == NeedIdDiff <==> Older(cp, sp, a) != {}))
      && (Gone(cp, sp, a) == {} && Gone(ci, si, a) == {} ==>
            (mode == UpToDate <==> Lacking(cp, sp, a) == {} && Lacking(ci, si, a) == {}))
  {
    EqualCounts(cp, sp, a);
    EqualCounts(ci, si, a);
    CountTest(cp, sp, a);
    if Gone(cp, sp, a) == {} && PositiveTimes(sp, a) && Newest(cp, a) == 0 {
      forall x | x in cp
        ensures x.author != a
      {
        assert x.author == a ==> x in RowSet(cp, ByAuthor(a)) && x in RowSet(sp, ByAuthor(a));
      }
    }
  }

  // ---- Ingestion -------------------------------------------------------------------

  ghost predicate Consistent(rows: seq<Item>) {
    forall x, y :: x in rows && y in rows && Conflicts(x, y) ==> x == y
  }

  lemma UniqueConsistent(rows: seq<Item>)
    requires Unique(rows)
    ensures Consistent(rows)
  {
    forall x, y | x in rows && y in rows && Conflicts(x, y)
      ensures x == y
    {
      var i, j :| 0 <= i < |rows| && 0 <= j < |rows| && rows[i] == x && rows[j] == y;
    }
  }

  /** Storing items adds exactly the acceptable ones that no stored row keeps out. */
  lemma {:induction false} IngestExactly(rows: seq<Item>, items: seq<Item>, accept: Item -> bool)
    requires Unique(rows) && Consistent(items)
    ensures Unique(Ingest(rows, items, accept))
    ensures forall x :: x in Ingest(rows, items, accept) <==>
      x in rows || (x in items && accept(x) && !Blocked(rows, x))
  {
    if items != [] {
      var init, last := items[..|items| - 1], items[|items| - 1];
      assert items == init + [last];
      IngestExactly(rows, init, accept);
      var before := Ingest(rows, init, accept);
      InsertKeepsUnique(before, last);
      if accept(last) && Blocked(before, last) {
        var y :| y in before && Conflicts(y, last);
        assert y in rows || y == last;
      }
    }
  }

  /** Whatever items arrive: stored rows stay, a new row is an item that was accepted, and an
      accepted item is stored or kept out by another row. */
  lemma {:induction false} IngestAnything(rows: seq<Item>, items: seq<Item>, accept: Item -> bool)
    ensures rows <= Ingest(rows, items, accept)
    ensures forall x :: x in Ingest(rows, items, accept) ==> x in rows || (x in items && accept(x))
    ensures forall x :: x in items && accept(x) ==> Blocked(Ingest(rows, items, accept), x)
  {
    if items != [] {
      var init, last := items[..|items| - 1], items[|items| - 1];
      IngestAnything(rows, init, accept);
      var before, after := Ingest(rows, init, accept), Ingest(rows, items, accept);
      assert items == init + [last];
      forall x | x in items && accept(x)
        ensures Blocked(after, x)
      {
        if x == last && !Blocked(before, last) {
          assert last in after && Conflicts(last, last);
        } else {
          var y :| y in before && Conflicts(y, x);
          assert y in after;
        }
      }
    }
  }

  /** What passes the check and is not kept out by a stored row. */
  function Fresh(rows: seq<Item>, accept: Item -> bool): Item -> bool {
    (x: Item) => accept(x) && !Blocked(rows, x)
  }

  /** Items that do not conflict with each other are appended in their order. */
  lemma {:induction false} IngestInOrder(rows: seq<Item>, items: seq<Item>, accept: Item -> bool)
    requires Unique(items)
    ensures Ingest(rows, items, accept) == rows + Select(items, Fresh(rows, accept))
  {
    if items != [] {
      var init, last := items[..|items| - 1], items[|items| - 1];
      IngestInOrder(rows, init, accept);
      forall y | y in init
        ensures !Conflicts(y, last)
      {
        var i :| 0 <= i < |init| && init[i] == y;
        assert !Conflicts(items[i], items[|items| - 1]);
      }
      BlockedEither(rows, Select(init, Fresh(rows, accept)), last);
    }
  }

  lemma BlockedEither(rows: seq<Item>, more: seq<Item>, x: Item)
    ensures Blocked(rows + more, x) <==> Blocked(rows, x) || Blocked(more, x)
  {
    forall y
      ensures y in rows + more <==> y in rows || y in more
    {
    }
  }

  /** Against any peer: a client stores no post that is not valid, and no interaction that is not
      valid or not by the author it asked about. */
  lemma IngestGuards(rows: seq<Item>, items: seq<Item>, a: string, x: Item)
    ensures x in Ingest(rows, items, ValidPost()) ==> x in rows || (x in items && x.valid)
    ensures x in items && x.valid ==> Blocked(Ingest(rows, items, ValidPost()), x)
    ensures x in Ingest(rows, items, ValidFrom(a)) ==> x in rows || (x in items && x.valid && x.author == a)
    ensures x in items && x.valid && x.author == a ==> Blocked(Ingest(rows, items, ValidFrom(a)), x)
  {
    IngestAnything(rows, items, ValidPost());
    IngestAnything(rows, items, ValidFrom(a));
  }

  // ---- One table after a round ---------------------------------------------------------

  /** The lacking rows that are not sent: all of them when nothing is, the older ones after a
      passed count test, none otherwise. */
  ghost function Unsent(client: seq<Item>, server: seq<Item>, a: string, silent: bool): set<Item> {
    if silent then Lacking(client, server, a)
    else if TestPasses(client, server, a) then Older(client, server, a)
    else {}
  }

  /** Whether the client's table takes the row. */
  predicate Storable(client: seq<Item>, x: Item) {
    x.valid && !Blocked(client, x)
  }

  ghost predicate AllStorable(client: seq<Item>, server: seq<Item>, a: string) {
    forall x :: x in Lacking(client, server, a) ==> Storable(client, x)
  }

  /** The table afterwards: its rows, and the storable ones of those sent. */
  ghost predicate TableAfter(before: seq<Item>, after: seq<Item>, server: seq<Item>, a: string, unsent: set<Item>) {
    && Unique(after)
    && forall x :: x in after <==> x in before || (x in Lacking(before, server, a) - unsent && Storable(before, x))
  }

  /** The client's table holds exactly the server's rows of the author. */
  ghost predicate Complete(client: seq<Item>, server: seq<Item>, a: string) {
    forall x: Item :: x.author == a ==> (x in client <==> x in server)
  }

  /** The streamed rows are the server's, the lacking ones except `unsent` among them. */
  ghost predicate StreamsFor(client: seq<Item>, server: seq<Item>, a: string, items: seq<Item>, unsent: set<Item>) {
    && (forall x :: x in items ==> x in server && x.author == a)
    && (forall x :: x in Lacking(client, server, a) && !Blocked(client, x) ==> (x in items <==> x !in unsent))
  }

  lemma TableIngested(client: seq<Item>, server: seq<Item>, a: string, items: seq<Item>, accept: Item -> bool,
                      unsent: set<Item>)
    requires Unique(client) && Unique(server) && StreamsFor(client, server, a, items, unsent)
    requires forall x :: x in items ==> (accept(x) <==> x.valid)
    ensures TableAfter(client, Ingest(client, items, accept), server, a, unsent)
  {
    UniqueConsistent(server);
    IngestExactly(client, items, accept);
    forall x | x in items
      ensures x in client || x in Lacking(client, server, a)
    {
    }
  }

  lemma PostsStreamed(client: seq<Item>, server: seq<Item>, req: Request, mode: Mode, a: string)
    requires Unique(client) && Unique(server) && !mode.UpToDate?
    requires req.author == a && req.newest == Newest(client, a)
    requires mode.TimestampCatchUp? <==> TestPasses(client, server, a)
    ensures StreamsFor(client, server, a, PostsFor(server, req, mode, Ids(client, a)), Unsent(client, server, a, false))
  {
    SortMembers(Select(server, NewerThan(a, req.newest)));
    SortMembers(Select(server, Unknown(a, Ids(client, a))));
    NewerAreLacking(client, server, a);
    forall x | x in Lacking(client, server, a) && !Blocked(client, x)
      ensures x.id !in Ids(client, a)
    {
      forall y | y in client && y.author == a
        ensures y.id != x.id
      {
        assert !Conflicts(y, x);
      }
    }
  }

  lemma InteractionsStreamed(client: seq<Item>, server: seq<Item>, req: Request, a: string)
    requires Unique(client) && Unique(server)
    requires req.author == a && req.newestInteraction == Newest(client, a)
    requires req.interactionCount == Count(client, ByAuthor(a)) != Count(server, ByAuthor(a))
    ensures StreamsFor(client, server, a, InteractionsFor(server, req), Unsent(client, server, a, false))
  {
    SortMembers(Select(server, NewerThan(a, req.newestInteraction)));
    SortMembers(Select(server, ByAuthor(a)));
    NewerAreLacking(client, server, a);
    CountTest(client, server, a);
  }

  // ---- Completeness -----------------------------------------------------------------------

  /** What one round does to any client: each table keeps its rows and gains exactly the storable
      rows that were sent. */
  lemma RoundExactly(cp: seq<Item>, ci: seq<Item>, sp: seq<Item>, si: seq<Item>, a: string)
    requires Unique(cp) && Unique(ci) && Unique(sp) && Unique(si)
    ensures var (posts, interactions) := Round(cp, ci, sp, si, a);
      && TableAfter(cp, posts, sp, a, Unsent(cp, sp, a, Balanced(cp, sp, a) && Balanced(ci, si, a)))
      && TableAfter(ci, interactions, si, a, Unsent(ci, si, a, Balanced(ci, si, a)))
  {
    var req := RequestOf(cp, ci, a);
    var mode := ModeFor(sp, si, req);
    ModeMeaning(cp, ci, sp, si, a);
    CountBalance(ci, si, a);
    if !mode.UpToDate? {
      PostsStreamed(cp, sp, req, mode, a);
      TableIngested(cp, sp, a, PostsFor(sp, req, mode, Ids(cp, a)), ValidPost(), Unsent(cp, sp, a, false));
      if !Balanced(ci, si, a) {
        InteractionsStreamed(ci, si, req, a);
        TableIngested(ci, si, a, InteractionsFor(si, req), ValidFrom(a), Unsent(ci, si, a, false));
      }
    }
  }

  /** When a table ends with nothing lacking, and when with exactly the server's rows. */
  lemma TableCompletes(before: seq<Item>, after: seq<Item>, server: seq<Item>, a: string, unsent: set<Item>)
    requires TableAfter(before, after, server, a, unsent) && unsent <= Lacking(before, server, a)
    ensures Gone(after, server, a) == Gone(before, server, a)
    ensures Lacking(after, server, a)
         == set x | x in Lacking(before, server, a) && (x in unsent || !Storable(before, x))
    ensures Lacking(after, server, a) == {} <==> unsent == {} && AllStorable(before, server, a)
    ensures Complete(after, server, a) <==>
      unsent == {} && AllStorable(before, server, a) && Gone(before, server, a) == {}
  {
    var gone, lacking := Gone(after, server, a), Lacking(after, server, a);
    assert lacking == set x | x in Lacking(before, server, a) && (x in unsent || !Storable(before, x));
    assert gone == Gone(before, server, a);
    forall x | x in unsent
      ensures x in lacking
    {
    }
    forall x: Item | x.author == a
      ensures x in gone <==> x in after && x !in server
      ensures x in lacking <==> x in server && x !in after
    {
    }
  }

  /** The client holds none but the server's rows, and the server's rows are valid. */
  ghost predicate Lagging(client: seq<Item>, server: seq<Item>, a: string) {
    && Gone(client, server, a) == {}
    && (forall x :: x in server && x.author == a ==> x.valid)
  }

  /** Without rows gone, only rows at time 0 can stay unsent, and only to a client that has none. */
  lemma LaggingSends(client: seq<Item>, server: seq<Item>, a: string, silent: bool)
    requires Unique(client) && Unique(server) && Lagging(client, server, a)
    requires silent ==> Balanced(client, server, a)
    ensures AllStorable(client, server, a)
    ensures Unsent(client, server, a, silent) == {} <==> !(HasNone(client, a) && HasZeroTime(server, a))
  {
    UniqueConsistent(server);
    forall x, y | x in Lacking(client, server, a) && y in client
      ensures !Conflicts(y, x)
    {
      if y.author == a { assert y !in Gone(client, server, a) && y in server; }
    }
    if HasNone(client, a) && HasZeroTime(server, a) {
      var x :| x in server && x.author == a && x.timestamp == 0;
      assert x in Older(client, server, a);
      assert Newest(client, a) == 0;
    }
    forall x | x in Unsent(client, server, a, silent)
      ensures HasNone(client, a) && x in server && x.author == a && x.timestamp == 0
    {
      assert x in Older(client, server, a);
    }
  }

  /** After one round of any two devices a table lacks nothing if and only if no lacking row was
      left unsent or cannot be stored, and it equals the server's if and only if moreover no row
      is gone. For a client with no row gone and valid server rows that means: unless the client
      started with no row of the author and the server has one at time 0. */
  lemma RoundCompletes(cp: seq<Item>, ci: seq<Item>, sp: seq<Item>, si: seq<Item>, a: string)
    requires Unique(cp) && Unique(ci) && Unique(sp) && Unique(si)
    ensures var (posts, interactions) := Round(cp, ci, sp, si, a);
      && TableDone(cp, posts, sp, a, Balanced(cp, sp, a) && Balanced(ci, si, a))
      && TableDone(ci, interactions, si, a, Balanced(ci, si, a))
  {
    var (posts, interactions) := Round(cp, ci, sp, si, a);
    RoundExactly(cp, ci, sp, si, a);
    TableIsDone(cp, posts, sp, a, Balanced(cp, sp, a) && Balanced(ci, si, a));
    TableIsDone(ci, interactions, si, a, Balanced(ci, si, a));
  }

  ghost predicate TableDone(before: seq<Item>, after: seq<Item>, server: seq<Item>, a: string, silent: bool) {
    && Unique(after)
    && (forall x: Item :: x.author != a ==> (x in after <==> x in before))
    && Gone(after, server, a) == Gone(before, server, a)
    && (Lacking(after, server, a) == {} <==> Unsent(before, server, a, silent) == {} && AllStorable(before, server, a))
    && (Complete(after, server, a) <==> Lacking(after, server, a) == {} && Gone(before, server, a) == {})
    && (Lagging(before, server, a) ==>
          (Complete(after, server, a) <==> !(HasNone(before, a) && HasZeroTime(server, a))))
  }

  lemma TableIsDone(before: seq<Item>, after: seq<Item>, server: seq<Item>, a: string, silent: bool)
    requires Unique(before) && Unique(server) && (silent ==> Balanced(before, server, a))
    requires TableAfter(before, after, server, a, Unsent(before, server, a, silent))
    ensures TableDone(before, after, server, a, silent)
  {
    TableCompletes(before, after, server, a, Unsent(before, server, a, silent));
    if Lagging(before, server, a) { LaggingSends(before, server, a, silent); }
  }

  /** Whether the next round has nothing to do: as many rows still lacking as gone, in both tables.
      A client that lacks nothing is told so if and only if it holds no row the server has deleted;
      with positive timestamps and no row gone, one round settles both tables. */
  lemma RoundSettles(cp: seq<Item>, ci: seq<Item>, sp: seq<Item>, si: seq<Item>, a: string)
    requires Unique(cp) && Unique(ci) && Unique(sp) && Unique(si)
    ensures var (posts, interactions) := Round(cp, ci, sp, si, a);
      var settled := ModeFor(sp, si, RequestOf(posts, interactions, a)) == UpToDate;
      && (settled <==> Balanced(posts, sp, a) && Balanced(interactions, si, a))
      && (Lacking(posts, sp, a) == {} && Lacking(interactions, si, a) == {} ==>
            (settled <==> Gone(cp, sp, a) == {} && Gone(ci, si, a) == {}))
      && (Lagging(cp, sp, a) && Lagging(ci, si, a) && PositiveTimes(sp, a) && PositiveTimes(si, a) ==>
            settled && Complete(posts, sp, a) && Complete(interactions, si, a))
  {
    RoundCompletes(cp, ci, sp, si, a);
    var (posts, interactions) := Round(cp, ci, sp, si, a);
    ModeMeaning(posts, interactions, sp, si, a);
  }

  // ---- Broken streams ------------------------------------------------------------------

  /** The table kept its rows and gained only rows it lacked. */
  ghost predicate OnlyGains(before: seq<Item>, after: seq<Item>, server: seq<Item>, a: string) {
    && Unique(after)
    && (forall x :: x in before ==> x in after)
    && (forall x :: x in after ==> x in before || x in Lacking(before, server, a))
  }

  lemma PartIngested(client: seq<Item>, server: seq<Item>, a: string, items: seq<Item>, n: nat, accept: Item -> bool)
    requires Unique(client) && Unique(server)
    requires forall x :: x in items ==> x in server && x.author == a
    ensures OnlyGains(client, Ingest(client, ArrivedRows(items, n), accept), server, a)
  {
    forall x | x in ArrivedRows(items, n)
      ensures x in items
    {
    }
    UniqueConsistent(server);
    IngestExactly(client, ArrivedRows(items, n), accept);
  }

  lemma BrokenGains(cp: seq<Item>, ci: seq<Item>, sp: seq<Item>, si: seq<Item>, a: string, arriving: nat)
    requires Unique(cp) && Unique(ci) && Unique(sp) && Unique(si)
    ensures var (posts, interactions) := BrokenRound(cp, ci, sp, si, a, arriving);
      OnlyGains(cp, posts, sp, a) && OnlyGains(ci, interactions, si, a)
  {
    var req := RequestOf(cp, ci, a);
    var mode := ModeFor(sp, si, req);
    if !mode.UpToDate? {
      PostsStreamedOnce(cp, ci, sp, si, a, mode);
      InteractionsStreamedOnce(cp, ci, si, a);
      var posts := PostsFor(sp, req, mode, Ids(cp, a));
      PartIngested(cp, sp, a, posts, arriving, ValidPost());
      PartIngested(ci, si, a, InteractionsFor(si, req), AfterPages(arriving, |posts|), ValidFrom(a));
    }
  }

  /** However early a stream breaks, nothing is lost or forged, and a later whole round completes
      as if the break had not happened. */
  lemma BrokenThenWhole(cp: seq<Item>, ci: seq<Item>, sp: seq<Item>, si: seq<Item>, a: string, arriving: nat)
    requires Unique(cp) && Unique(ci) && Unique(sp) && Unique(si)
    ensures var (p, i) := BrokenRound(cp, ci, sp, si, a, arriving);
      var (posts, interactions) := Round(p, i, sp, si, a);
      && OnlyGains(cp, p, sp, a) && OnlyGains(ci, i, si, a)
      && (Lagging(cp, sp, a) ==> (Complete(posts, sp, a) <==> !(HasNone(p, a) && HasZeroTime(sp, a))))
      && (Lagging(ci, si, a) ==> (Complete(interactions, si, a) <==> !(HasNone(i, a) && HasZeroTime(si, a))))
  {
    var (p, i) := BrokenRound(cp, ci, sp, si, a, arriving);
    BrokenGains(cp, ci, sp, si, a, arriving);
    GainsKeepGone(cp, p, sp, a);
    GainsKeepGone(ci, i, si, a);
    RoundCompletes(p, i, sp, si, a);
  }

  lemma GainsKeepGone(before: seq<Item>, after: seq<Item>, server: seq<Item>, a: string)
    requires OnlyGains(before, after, server, a)
    ensures Gone(after, server, a) == Gone(before, server, a)
  {
  }

  /** A device that is told it is up to date is told so for ever, whatever it lacks. */
  lemma QuietStaysQuiet(cp: seq<Item>, ci: seq<Item>, sp: seq<Item>, si: seq<Item>, a: string)
    requires Unique(cp) && Unique(ci) && Unique(sp) && Unique(si)
    requires Balanced(cp, sp, a) && Balanced(ci, si, a)
    ensures Round(cp, ci, sp, si, a) == (cp, ci)
    ensures Complete(cp, sp, a) <==> Gone(cp, sp, a) == {}
  {
    ModeMeaning(cp, ci, sp, si, a);
    forall x: Item | x.author == a
      ensures x in Gone(cp, sp, a) <==> x in cp && x !in sp
      ensures x in Lacking(cp, sp, a) <==> x in sp && x !in cp
    {
    }
  }

  // ---- Minimality and order ----------------------------------------------------------

  /** For any two tables, no post streamed is already held, each is the server's, and posts come
      once each in order of timestamp. */
  lemma PostsStreamedOnce(cp: seq<Item>, ci: seq<Item>, sp: seq<Item>, si: seq<Item>, a: string, mode: Mode)
    requires Unique(sp)
    ensures var sent := PostsFor(sp, RequestOf(cp, ci, a), mode, Ids(cp, a));
      OnceInOrder(sent) && forall x :: x in sent ==> x in Lacking(cp, sp, a)
  {
    var req := RequestOf(cp, ci, a);
    match mode
    case UpToDate =>
    case TimestampCatchUp => SelectionOnce(sp, NewerThan(a, req.newest));
    case NeedIdDiff => SelectionOnce(sp, Unknown(a, Ids(cp, a)));
  }

  /** Interactions too come once each in order of timestamp; none is sent when the counts match,
      none that is held after a passed count test, and all of the author's otherwise. */
  lemma InteractionsStreamedOnce(cp: seq<Item>, ci: seq<Item>, si: seq<Item>, a: string)
    requires Unique(ci) && Unique(si)
    ensures var sent := InteractionsFor(si, RequestOf(cp, ci, a));
      && OnceInOrder(sent)
      && (forall x :: x in sent <==>
            if Balanced(ci, si, a) then false
            else if TestPasses(ci, si, a) then x in Lacking(ci, si, a) && x.timestamp > Newest(ci, a)
            else x in si && x.author == a)
  {
    CountBalance(ci, si, a);
    CountTest(ci, si, a);
    NewerAreLacking(ci, si, a);
    if !Balanced(ci, si, a) {
      if TestPasses(ci, si, a) {
        SelectionOnce(si, NewerThan(a, Newest(ci, a)));
      } else {
        SelectionOnce(si, ByAuthor(a));
      }
    }
  }

  // ---- Witnesses of the failing cases -----------------------------------------------------

  /** A client that holds a post the server has deleted can be told it is up to date while it
      misses another: equal counts hide different rows. */
  lemma EqualCountsCanMislead()
    ensures var gone, added := Post("1", "a", 1, true, ""), Post("2", "a", 2, true, "");
      && ModeFor([added], [], RequestOf([gone], [], "a")) == UpToDate
      && !Complete(Round([gone], [], [added], [], "a").0, [added], "a")
  {
    var gone, added := Post("1", "a", 1, true, ""), Post("2", "a", 2, true, "");
    CountOne(gone, ByAuthor("a"));
    CountOne(added, ByAuthor("a"));
    assert [added][0] == added && added in [added];
    assert gone in [gone];
    assert Count([], ByAuthor("a")) == 0;
  }

  /** A row at time 0 never reaches a client that starts with nothing. */
  lemma ZeroTimeIsMissed()
    ensures var x := Post("1", "a", 0, true, "");
      && Lagging([], [x], "a")
      && Round([], [], [x], [], "a") == ([], [])
      && !Complete([], [x], "a")
  {
    var x := Post("1", "a", 0, true, "");
    CountOne(x, ByAuthor("a"));
    SelectOne(x, NewerThan("a", 0));
    assert x in [x];
    assert Count([], ByAuthor("a")) == 0 && Newest([], "a") == 0;
    assert SortByTime([]) == [];
  }

  lemma CountOne(x: Item, p: Item -> bool)
    requires p(x)
    ensures Count([x], p) == 1
  {
    SelectOne(x, p);
  }
}
