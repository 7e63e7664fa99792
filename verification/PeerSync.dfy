/** The three-tier sync protocol between a client and an author's device
    (src-tauri/src/sync/server.rs, sync/client.rs, sync/processing.rs). */
module PeerSync {
  import opened Tables

  const BATCH_SIZE: nat := 200

  datatype Request = Request(author: string, postCount: nat, interactionCount: nat, newest: nat, newestInteraction: nat)

  datatype Mode = UpToDate | TimestampCatchUp | NeedIdDiff

  datatype Frame = Posts(items: seq<Item>) | Interactions(items: seq<Item>)

  function RequestOf(posts: seq<Item>, interactions: seq<Item>, a: string): Request {
    Request(a, Count(posts, ByAuthor(a)), Count(interactions, ByAuthor(a)), Newest(posts, a), Newest(interactions, a))
  }

  /** How many rows the server counts after the client's newest; 0 stands for "no newest". */
  function AfterCount(rows: seq<Item>, a: string, newest: nat): nat {
    if newest > 0 then Count(rows, NewerThan(a, newest)) else Count(rows, ByAuthor(a))
  }

  /** The count test: the server has exactly its newer rows more than the client. */
  predicate CatchesUp(rows: seq<Item>, a: string, clientCount: nat, newest: nat) {
    Count(rows, ByAuthor(a)) >= clientCount && Count(rows, ByAuthor(a)) - clientCount == AfterCount(rows, a, newest)
  }

  function ModeFor(posts: seq<Item>, interactions: seq<Item>, req: Request): Mode {
    if req.postCount == Count(posts, ByAuthor(req.author))
       && req.interactionCount == Count(interactions, ByAuthor(req.author))
    then UpToDate
    else if CatchesUp(posts, req.author, req.postCount, req.newest) then TimestampCatchUp
    else NeedIdDiff
  }

  /** The posts the server streams in a mode; `known` are the ids the client uploaded. */
  function PostsFor(posts: seq<Item>, req: Request, mode: Mode, known: set<string>): seq<Item> {
    match mode
    case UpToDate => []
    case TimestampCatchUp => SortByTime(Select(posts, NewerThan(req.author, req.newest)))
    case NeedIdDiff => SortByTime(Select(posts, Unknown(req.author, known)))
  }

  function InteractionsFor(interactions: seq<Item>, req: Request): seq<Item> {
    if req.interactionCount == Count(interactions, ByAuthor(req.author)) then []
    else if CatchesUp(interactions, req.author, req.interactionCount, req.newestInteraction)
    then SortByTime(Select(interactions, NewerThan(req.author, req.newestInteraction)))
    else SortByTime(Select(interactions, ByAuthor(req.author)))
  }

  function Ids(rows: seq<Item>, a: string): set<string> {
    set x | x in rows && x.author == a :: x.id
  }

  function IdSet(ids: seq<string>): set<string> {
    set id | id in ids
  }

  /** Stores the valid items one by one, ignoring conflicts. */
  function Ingest(rows: seq<Item>, items: seq<Item>, accept: Item -> bool): seq<Item> {
    if items == [] then rows
    else
      var before := Ingest(rows, items[..|items| - 1], accept);
      var x := items[|items| - 1];
      if accept(x) then InsertOrIgnore(before, x) else before
  }

  function ValidPost(): Item -> bool {
    (x: Item) => x.valid
  }

  function ValidFrom(a: string): Item -> bool {
    (x: Item) => x.author == a && x.valid
  }

  /** The client's tables after one sync round. */
  function Round(clientPosts: seq<Item>, clientInteractions: seq<Item>,
                 serverPosts: seq<Item>, serverInteractions: seq<Item>, a: string): (seq<Item>, seq<Item>)
  {
    var req := RequestOf(clientPosts, clientInteractions, a);
    var mode := ModeFor(serverPosts, serverInteractions, req);
    if mode.UpToDate? then (clientPosts, clientInteractions)
    else
      (Ingest(clientPosts, PostsFor(serverPosts, req, mode, Ids(clientPosts, a)), ValidPost()),
       Ingest(clientInteractions, InteractionsFor(serverInteractions, req), ValidFrom(a)))
  }

  /** The client's tables when only the first `arriving` frames of the stream arrive. */
  function BrokenRound(clientPosts: seq<Item>, clientInteractions: seq<Item>, serverPosts: seq<Item>,
                       serverInteractions: seq<Item>, a: string, arriving: nat): (seq<Item>, seq<Item>)
  {
    var req := RequestOf(clientPosts, clientInteractions, a);
    var mode := ModeFor(serverPosts, serverInteractions, req);
    if mode.UpToDate? then (clientPosts, clientInteractions)
    else
      var posts := PostsFor(serverPosts, req, mode, Ids(clientPosts, a));
      var interactions := InteractionsFor(serverInteractions, req);
      (Ingest(clientPosts, ArrivedRows(posts, arriving), ValidPost()),
       Ingest(clientInteractions, ArrivedRows(interactions, AfterPages(arriving, |posts|)), ValidFrom(a)))
  }

  /** How many frames a whole stream has. */
  function FrameCount(clientPosts: seq<Item>, clientInteractions: seq<Item>, serverPosts: seq<Item>,
                      serverInteractions: seq<Item>, a: string): nat
  {
    var req := RequestOf(clientPosts, clientInteractions, a);
    var mode := ModeFor(serverPosts, serverInteractions, req);
    if mode.UpToDate? then 0
    else PageCount(|PostsFor(serverPosts, req, mode, Ids(clientPosts, a))|)
         + PageCount(|InteractionsFor(serverInteractions, req)|)
  }

  /** How many pages a number of rows takes. */
  function PageCount(n: nat): nat {
    (n + 199) / 200
  }

  /** What of some rows arrives with the first `n` pages. */
  function ArrivedRows(rows: seq<Item>, n: nat): seq<Item> {
    First(rows, 200 * n)
  }

  /** The interactions' share of the first `n` frames, after all pages of posts. */
  function AfterPages(n: nat, posts: nat): nat {
    if n > PageCount(posts) then n - PageCount(posts) else 0
  }

  function First(s: seq<Item>, n: nat): seq<Item> {
    s[..Min(n, |s|)]
  }

  /** The items of a frame, if it carries posts (or interactions, for `false`). */
  function ItemsOf(f: Frame, posts: bool): seq<Item> {
    if f.Posts? == posts then f.items else []
  }

  /** All posts (or all interactions) of a stream, in order. */
  function Collected(frames: seq<Frame>, posts: bool): seq<Item> {
    if frames == [] then [] else Collected(frames[..|frames| - 1], posts) + ItemsOf(frames[|frames| - 1], posts)
  }

  lemma CollectedSnoc(frames: seq<Frame>, f: Frame, posts: bool)
    ensures Collected(frames + [f], posts) == Collected(frames, posts) + ItemsOf(f, posts)
  {
    assert (frames + [f])[..|frames|] == frames;
  }

  lemma {:induction false} CollectedAppend(a: seq<Frame>, b: seq<Frame>, posts: bool)
    ensures Collected(a + b, posts) == Collected(a, posts) + Collected(b, posts)
  {
    if b == [] {
      assert a + b == a;
    } else {
      var init, last := b[..|b| - 1], b[|b| - 1];
      CollectedAppend(a, init, posts);
      CollectedSnoc(a + init, last, posts);
      assert a + b == a + init + [last];
      Reassociate(Collected(a, posts), Collected(init, posts), ItemsOf(last, posts));
    }
  }

  lemma Reassociate(x: seq<Item>, y: seq<Item>, z: seq<Item>)
    ensures (x + y) + z == x + (y + z)
  {
  }

  /** Pages of one kind: 200 rows each, the last one from 1 to 200. */
  ghost predicate WholePages(frames: seq<Frame>, posts: bool) {
    && (forall i :: 0 <= i < |frames| ==> frames[i].Posts? == posts && 0 < |frames[i].items| <= 200)
    && (forall i :: 0 <= i < |frames| - 1 ==> |frames[i].items| == 200)
  }

  lemma {:induction false} PagesAddUp(frames: seq<Frame>, posts: bool)
    requires WholePages(frames, posts)
    ensures Collected(frames, !posts) == []
    ensures 200 * |frames| - 200 < |Collected(frames, posts)| <= 200 * |frames| || frames == []
  {
    if frames != [] { PagesAddUp(frames[..|frames| - 1], posts); AllFull(frames[..|frames| - 1], posts); }
  }

  lemma {:induction false} AllFull(frames: seq<Frame>, posts: bool)
    requires forall i :: 0 <= i < |frames| ==> frames[i].Posts? == posts && |frames[i].items| == 200
    ensures |Collected(frames, posts)| == 200 * |frames|
  {
    if frames != [] { AllFull(frames[..|frames| - 1], posts); }
  }

  /** The first `n` pages hold 200 rows each, or all there are. */
  lemma FirstPages(frames: seq<Frame>, n: nat, posts: bool)
    requires WholePages(frames, posts) && n <= |frames|
    ensures |Collected(frames[..n], posts)| == Min(200 * n, |Collected(frames, posts)|)
    ensures Collected(frames[..n], !posts) == []
    ensures |frames| == PageCount(|Collected(frames, posts)|)
  {
    PagesAddUp(frames, posts);
    PagesAddUp(frames[..n], posts);
    if n < |frames| {
      AllFull(frames[..n], posts);
    } else {
      assert frames[..n] == frames;
    }
  }

  lemma {:induction false} SelectAgrees(rows: seq<Item>, p: Item -> bool, q: Item -> bool)
    requires forall x :: x in rows ==> p(x) == q(x)
    ensures Select(rows, p) == Select(rows, q)
  {
    if rows != [] { SelectAgrees(rows[..|rows| - 1], p, q); }
  }

  /** The frames carry the first `offset` rows of `wanted`, in whole pages of one kind. */
  ghost predicate Streamed(frames: seq<Frame>, wanted: seq<Item>, offset: nat, posts: bool) {
    && WholePages(frames, posts)
    && offset <= |wanted| && (offset < |wanted| ==> forall i :: 0 <= i < |frames| ==> |frames[i].items| == 200)
    && Collected(frames, posts) == wanted[..offset]
    && Collected(frames, !posts) == []
  }

  lemma NextPage(s: seq<Item>, offset: nat)
    requires offset <= |s|
    ensures var batch := Page(s, BATCH_SIZE, offset);
      && |batch| <= 200 && offset + |batch| <= |s| && (offset + |batch| < |s| ==> |batch| == 200)
      && s[..offset] + batch == s[..offset + |batch|]
      && (batch == [] ==> offset == |s|)
  {
  }

  lemma StreamStarts(wanted: seq<Item>, posts: bool)
    ensures Streamed([], wanted, 0, posts)
  {
  }

  lemma StreamPage(frames: seq<Frame>, wanted: seq<Item>, offset: nat, f: Frame, posts: bool)
    requires Streamed(frames, wanted, offset, posts)
    requires f.Posts? == posts && f.items == Page(wanted, BATCH_SIZE, offset)
    ensures f.items == [] ==> IsStream(frames, wanted, posts)
    ensures f.items != [] ==> Streamed(frames + [f], wanted, offset + |f.items|, posts)
    ensures f.items != [] ==> offset + |f.items| <= |wanted|
  {
    NextPage(wanted, offset);
    if f.items == [] {
      assert wanted[..|wanted|] == wanted;
    } else {
      CollectedSnoc(frames, f, true);
      CollectedSnoc(frames, f, false);
    }
  }

  /** The frames carry exactly the wanted rows, in whole pages. */
  ghost predicate IsStream(frames: seq<Frame>, wanted: seq<Item>, posts: bool) {
    WholePages(frames, posts) && Collected(frames, posts) == wanted
  }

  // ---- The devices ---------------------------------------------------------------

  class Storage {
    var posts: seq<Item>
    var interactions: seq<Item>

    constructor (posts: seq<Item>, interactions: seq<Item>)
      ensures this.posts == posts && this.interactions == interactions
    {
      this.posts, this.interactions := posts, interactions;
    }

    method InsertPost(x: Item)
      modifies this`posts
      ensures posts == InsertOrIgnore(old(posts), x)
    {
      if forall y | y in posts :: !Conflicts(y, x) {
        posts := posts + [x];
      }
    }

    method SaveInteraction(x: Item)
      modifies this`interactions
      ensures interactions == InsertOrIgnore(old(interactions), x)
    {
      if forall y | y in interactions :: !Conflicts(y, x) {
        interactions := interactions + [x];
      }
    }

    method GetPostsAfter(a: string, ts: nat, limit: nat, offset: nat) returns (r: seq<Item>)
      ensures IsPage(r, posts, NewerThan(a, ts), limit, offset)
      ensures r == Page(SortByTime(Select(posts, NewerThan(a, ts))), limit, offset)
    {
      PageIs(posts, NewerThan(a, ts), limit, offset);
      r := Page(SortByTime(Select(posts, NewerThan(a, ts))), limit, offset);
    }

    /** `get_interactions_after` when catching up, `get_interactions_paged` otherwise. */
    method GetInteractions(a: string, ts: nat, catchUp: bool, limit: nat, offset: nat) returns (r: seq<Item>)
      ensures var p := if catchUp then NewerThan(a, ts) else ByAuthor(a);
        IsPage(r, interactions, p, limit, offset) && r == Page(SortByTime(Select(interactions, p)), limit, offset)
    {
      PageIs(interactions, if catchUp then NewerThan(a, ts) else ByAuthor(a), limit, offset);
      if catchUp {
        r := Page(SortByTime(Select(interactions, NewerThan(a, ts))), limit, offset);
      } else {
        r := Page(SortByTime(Select(interactions, ByAuthor(a))), limit, offset);
      }
    }

    /** The ids are first copied into a temporary table, unless there are none. */
    method GetPostsNotIn(a: string, known: seq<string>, limit: nat, offset: nat) returns (r: seq<Item>)
      ensures r == Page(SortByTime(Select(posts, Unknown(a, IdSet(known)))), limit, offset)
    {
      if known == [] {
        SelectAgrees(posts, ByAuthor(a), Unknown(a, IdSet(known)));
        return Page(SortByTime(Select(posts, ByAuthor(a))), limit, offset);
      }
      var temporary: set<string> := {};
      for i := 0 to |known|
        invariant temporary == IdSet(known[..i])
      {
        temporary := temporary + {known[i]};
      }
      assert known[..|known|] == known;
      r := Page(SortByTime(Select(posts, Unknown(a, temporary))), limit, offset);
    }

    method GetPostIds(a: string) returns (ids: seq<string>)
      ensures IdSet(ids) == Ids(posts, a)
    {
      var rows := SortByTime(Select(posts, ByAuthor(a)));
      SortMembers(Select(posts, ByAuthor(a)));
      ids := seq(|rows|, i requires 0 <= i < |rows| => rows[i].id);
      forall id
        ensures id in ids <==> id in Ids(posts, a)
      {
        if id in ids {
          var i :| 0 <= i < |ids| && ids[i] == id;
          assert rows[i] in rows;
        }
        if x :| x in posts && x.author == a && x.id == id {
          assert x in rows;
          var i :| 0 <= i < |rows| && rows[i] == x;
          assert ids[i] == id;
        }
      }
    }
  }

  /** The query of one round of the loop over posts. */
  method QueryPosts(server: Storage, req: Request, mode: Mode, known: seq<string>, offset: nat)
      returns (batch: seq<Item>)
    requires !mode.UpToDate?
    ensures batch == Page(PostsFor(server.posts, req, mode, IdSet(known)), BATCH_SIZE, offset)
  {
    if mode.TimestampCatchUp? {
      batch := server.GetPostsAfter(req.author, req.newest, BATCH_SIZE, offset);
    } else {
      batch := server.GetPostsNotIn(req.author, known, BATCH_SIZE, offset);
    }
  }

  /** The server's paging loop over posts. */
  method StreamPosts(server: Storage, req: Request, mode: Mode, known: seq<string>)
      returns (frames: seq<Frame>, totalSent: nat)
    requires !mode.UpToDate?
    ensures IsStream(frames, PostsFor(server.posts, req, mode, IdSet(known)), true)
    ensures totalSent == |PostsFor(server.posts, req, mode, IdSet(known))|
  {
    frames, totalSent := [], 0;
    var offset := 0;
    ghost var wanted := PostsFor(server.posts, req, mode, IdSet(known));
    StreamStarts(wanted, true);
    while true
      invariant Streamed(frames, wanted, offset, true) && totalSent == offset
      decreases |wanted| - offset
    {
      var batch := QueryPosts(server, req, mode, known, offset);
      StreamPage(frames, wanted, offset, Posts(batch), true);
      if batch == [] {
        break;
      }
      totalSent := totalSent + |batch|;
      offset := offset + |batch|;
      frames := frames + [Posts(batch)];
    }
  }

  /** The query of one round of the loop over interactions. */
  method QueryInteractions(server: Storage, req: Request, catchUp: bool, offset: nat) returns (batch: seq<Item>)
    requires req.interactionCount != Count(server.interactions, ByAuthor(req.author))
    requires catchUp == CatchesUp(server.interactions, req.author, req.interactionCount, req.newestInteraction)
    ensures batch == Page(InteractionsFor(server.interactions, req), BATCH_SIZE, offset)
  {
    batch := server.GetInteractions(req.author, req.newestInteraction, catchUp, BATCH_SIZE, offset);
  }

  /** The server's paging loop over interactions. */
  method StreamDue(server: Storage, req: Request) returns (frames: seq<Frame>)
    requires req.interactionCount != Count(server.interactions, ByAuthor(req.author))
    ensures IsStream(frames, InteractionsFor(server.interactions, req), false)
  {
    var catchUp := CatchesUp(server.interactions, req.author, req.interactionCount, req.newestInteraction);
    frames := [];
    var offset := 0;
    ghost var due := InteractionsFor(server.interactions, req);
    StreamStarts(due, false);
    while true
      invariant Streamed(frames, due, offset, false)
      decreases |due| - offset
    {
      var batch := QueryInteractions(server, req, catchUp, offset);
      StreamPage(frames, due, offset, Interactions(batch), false);
      if batch == [] {
        break;
      }
      offset := offset + |batch|;
      frames := frames + [Interactions(batch)];
    }
  }

  /** Interactions are streamed unless the counts match. */
  method StreamInteractions(server: Storage, req: Request) returns (frames: seq<Frame>)
    ensures IsStream(frames, InteractionsFor(server.interactions, req), false)
  {
    frames := [];
    if req.interactionCount != Count(server.interactions, ByAuthor(req.author)) {
      frames := StreamDue(server, req);
    }
  }

  /** The client's read loop, over the frames that arrive before the end marker or an error. */
  method ReadFrames(frames: seq<Frame>) returns (posts: seq<Item>, interactions: seq<Item>)
    ensures posts == Collected(frames, true) && interactions == Collected(frames, false)
  {
    posts, interactions := [], [];
    for i := 0 to |frames|
      invariant posts == Collected(frames[..i], true) && interactions == Collected(frames[..i], false)
    {
      assert frames[..i + 1] == frames[..i] + [frames[i]];
      CollectedSnoc(frames[..i], frames[i], true);
      CollectedSnoc(frames[..i], frames[i], false);
      if frames[i].Posts? {
        posts := posts + frames[i].items;
      } else {
        interactions := interactions + frames[i].items;
      }
    }
    assert frames[..|frames|] == frames;
  }

  method StorePosts(client: Storage, items: seq<Item>)
    modifies client`posts
    ensures client.posts == Ingest(old(client.posts), items, ValidPost())
  {
    for i := 0 to |items|
      invariant client.posts == Ingest(old(client.posts), items[..i], ValidPost())
    {
      assert items[..i + 1][..i] == items[..i];
      if items[i].valid {
        client.InsertPost(items[i]);
      }
    }
    assert items[..|items|] == items;
  }

  method StoreInteractions(client: Storage, items: seq<Item>, a: string)
    modifies client`interactions
    ensures client.interactions == Ingest(old(client.interactions), items, ValidFrom(a))
  {
    for i := 0 to |items|
      invariant client.interactions == Ingest(old(client.interactions), items[..i], ValidFrom(a))
    {
      assert items[..i + 1][..i] == items[..i];
      if items[i].author == a && items[i].valid {
        client.SaveInteraction(items[i]);
      }
    }
    assert items[..|items|] == items;
  }

  lemma ArrivedPrefix(frames: seq<Frame>, n: nat, posts: bool)
    requires n <= |frames|
    ensures Collected(frames[..n], posts) == First(Collected(frames, posts), |Collected(frames[..n], posts)|)
  {
    assert frames == frames[..n] + frames[n..];
    CollectedAppend(frames[..n], frames[n..], posts);
  }

  lemma ArrivedOne(frames: seq<Frame>, n: nat, posts: bool)
    requires WholePages(frames, posts)
    ensures Collected(frames[..Min(n, |frames|)], posts) == ArrivedRows(Collected(frames, posts), n)
    ensures Collected(frames[..Min(n, |frames|)], !posts) == []
  {
    var k := Min(n, |frames|);
    FirstPages(frames, k, posts);
    ArrivedPrefix(frames, k, posts);
    if n >= |frames| {
      FirstPages(frames, |frames|, posts);
      assert frames[..k] == frames;
    }
  }

  lemma StreamCollects(postFrames: seq<Frame>, interactionFrames: seq<Frame>)
    requires Collected(postFrames, false) == [] && Collected(interactionFrames, true) == []
    ensures Collected(postFrames + interactionFrames, true) == Collected(postFrames, true)
    ensures Collected(postFrames + interactionFrames, false) == Collected(interactionFrames, false)
  {
    CollectedAppend(postFrames, interactionFrames, true);
    CollectedAppend(postFrames, interactionFrames, false);
  }

  lemma FirstOfBoth(postFrames: seq<Frame>, interactionFrames: seq<Frame>, n: nat)
    ensures var frames := postFrames + interactionFrames;
      frames[..Min(n, |frames|)] == postFrames[..Min(n, |postFrames|)]
        + interactionFrames[..Min(if n > |postFrames| then n - |postFrames| else 0, |interactionFrames|)]
  {
  }

  /** Of posts followed by interactions, the first `n` frames. */
  lemma ArrivedBoth(postFrames: seq<Frame>, interactionFrames: seq<Frame>, n: nat)
    requires WholePages(postFrames, true) && WholePages(interactionFrames, false)
    ensures var frames := postFrames + interactionFrames;
      var after := if n > |postFrames| then n - |postFrames| else 0;
      && Collected(frames[..Min(n, |frames|)], true) == ArrivedRows(Collected(postFrames, true), n)
      && Collected(frames[..Min(n, |frames|)], false) == ArrivedRows(Collected(interactionFrames, false), after)
  {
    var after := if n > |postFrames| then n - |postFrames| else 0;
    FirstOfBoth(postFrames, interactionFrames, n);
    ArrivedOne(postFrames, n, true);
    ArrivedOne(interactionFrames, after, false);
    StreamCollects(postFrames[..Min(n, |postFrames|)], interactionFrames[..Min(after, |interactionFrames|)]);
  }

  /** Phases two and three: what the client receives when the first `arriving` frames of the data
      stream arrive. */
  method Fetch(server: Storage, req: Request, mode: Mode, known: seq<string>, arriving: nat)
      returns (posts: seq<Item>, interactions: seq<Item>, whole: bool)
    requires !mode.UpToDate?
    ensures var allPosts := PostsFor(server.posts, req, mode, IdSet(known));
      var allInteractions := InteractionsFor(server.interactions, req);
      && posts == ArrivedRows(allPosts, arriving)
      && interactions == ArrivedRows(allInteractions, AfterPages(arriving, |allPosts|))
      && (whole <==> arriving >= PageCount(|allPosts|) + PageCount(|allInteractions|))
      && (whole ==> posts == allPosts && interactions == allInteractions)
  {
    var postFrames, total := StreamPosts(server, req, mode, known);
    var interactionFrames := StreamInteractions(server, req);
    var frames := postFrames + interactionFrames;
    ArrivedBoth(postFrames, interactionFrames, arriving);
    FirstPages(postFrames, 0, true);
    FirstPages(interactionFrames, 0, false);
    posts, interactions := ReadFrames(frames[..Min(arriving, |frames|)]);
    whole := arriving >= |frames|;
    AllArrived(Collected(postFrames, true), arriving);
    AllArrived(Collected(interactionFrames, false), AfterPages(arriving, total));
  }

  lemma AllArrived(rows: seq<Item>, n: nat)
    ensures n >= PageCount(|rows|) ==> ArrivedRows(rows, n) == rows
  {
  }

  /** One sync round: request, mode, streamed frames, ingestion of what arrived. */
  method SyncFromPeer(client: Storage, server: Storage, a: string, arriving: nat) returns (mode: Mode, whole: bool)
    requires client != server
    modifies client
    ensures mode
         == ModeFor(server.posts, server.interactions, RequestOf(old(client.posts), old(client.interactions), a))
    ensures (client.posts, client.interactions)
         == BrokenRound(old(client.posts), old(client.interactions), server.posts, server.interactions, a, arriving)
    ensures whole <==>
      arriving >= FrameCount(old(client.posts), old(client.interactions), server.posts, server.interactions, a)
    ensures whole ==>
      (client.posts, client.interactions)
      == Round(old(client.posts), old(client.interactions), server.posts, server.interactions, a)
  {
    var req := RequestOf(client.posts, client.interactions, a);
    mode := ModeFor(server.posts, server.interactions, req);
    whole := true;
    if mode.UpToDate? {
      return;
    }
    var known := [];
    if mode.NeedIdDiff? {
      known := client.GetPostIds(a);
    }
    var posts, interactions;
    posts, interactions, whole := Fetch(server, req, mode, known, arriving);
    StorePosts(client, posts);
    StoreInteractions(client, interactions, a);
  }
}
