/** Convergence of linked devices: one session, one pass over all devices, two passes. */
module DeviceSyncTheorems {
  import opened DeviceSync

  // ---- Tables as a join semilattice ---------------------------------------------------------

  /** Equal timestamps for a key imply equal rows. */
  ghost predicate Coherent<K, V>(a: map<K, Row<V>>, b: map<K, Row<V>>) {
    forall k :: k in a && k in b && a[k].changedAt == b[k].changedAt ==> a[k] == b[k]
  }

  /** Every row of `a` is in `b`, or superseded there. */
  ghost predicate Le<K, V>(a: map<K, Row<V>>, b: map<K, Row<V>>) {
    forall k :: k in a ==> k in b && (a[k].changedAt < b[k].changedAt || a[k] == b[k])
  }

  ghost predicate CoherentTables(a: Tables, b: Tables) {
    Coherent(a.follows, b.follows) && Coherent(a.moderation, b.moderation) && Coherent(a.ratchets, b.ratchets)
  }

  ghost predicate LeTables(a: Tables, b: Tables) {
    && Le(a.follows, b.follows) && Le(a.moderation, b.moderation)
    && a.bookmarks <= b.bookmarks && Le(a.ratchets, b.ratchets)
  }

  lemma LeTransitive(a: Tables, b: Tables, c: Tables)
    requires LeTables(a, b) && LeTables(b, c)
    ensures LeTables(a, c)
  {
  }

  lemma SameWhenMutual<K, V>(a: map<K, Row<V>>, b: map<K, Row<V>>)
    requires Le(a, b) && Le(b, a)
    ensures a == b
  {
    SameMap(a, b);
  }

  lemma LeAntisymmetric(a: Tables, b: Tables)
    requires LeTables(a, b) && LeTables(b, a)
    ensures a == b
  {
    SameWhenMutual(a.follows, b.follows);
    SameWhenMutual(a.moderation, b.moderation);
    SameWhenMutual(a.ratchets, b.ratchets);
  }

  lemma JoinUpper(a: Tables, b: Tables)
    requires CoherentTables(a, b)
    ensures LeTables(a, JoinTables(a, b)) && LeTables(b, JoinTables(a, b))
  {
  }

  lemma JoinLeast(a: Tables, b: Tables, u: Tables)
    requires LeTables(a, u) && LeTables(b, u)
    ensures LeTables(JoinTables(a, b), u)
  {
  }

  lemma JoinCoherent(a: Tables, b: Tables, c: Tables)
    requires CoherentTables(a, c) && CoherentTables(b, c)
    ensures CoherentTables(JoinTables(a, b), c) && CoherentTables(c, JoinTables(a, b))
  {
  }

  // ---- One session ---------------------------------------------------------------------------

  lemma JoinAbsorbs<K, V>(a: map<K, Row<V>>, b: map<K, Row<V>>)
    ensures Join(b, Join(a, b)) == Join(b, a)
  {
    SameMap(Join(b, Join(a, b)), Join(b, a));
  }

  lemma JoinsAgree<K, V>(a: map<K, Row<V>>, b: map<K, Row<V>>)
    ensures Join(a, b) == Join(b, a) <==> Coherent(a, b)
  {
    if Join(a, b) == Join(b, a) {
      forall k | k in a && k in b && a[k].changedAt == b[k].changedAt
        ensures a[k] == b[k]
      {
        assert Join(a, b)[k] == a[k] && Join(b, a)[k] == b[k];
      }
    }
    if Coherent(a, b) { SameMap(Join(a, b), Join(b, a)); }
  }

  /** After a session each device holds the join of both, keeping its own rows on ties; so they
      agree if and only if no key had the same timestamp with different rows. */
  lemma SessionConverges(a: Tables, b: Tables)
    ensures Session(a, b) == (JoinTables(a, b), JoinTables(b, a))
    ensures Session(a, b).0 == Session(a, b).1 <==> CoherentTables(a, b)
  {
    JoinAbsorbs(a.ratchets, b.ratchets);
    JoinsAgree(a.follows, b.follows);
    JoinsAgree(a.moderation, b.moderation);
    JoinsAgree(a.ratchets, b.ratchets);
  }

  function WithRatchet(r: Row<string>): Tables {
    Tables(map[], map[], {}, map["k" := r])
  }

  /** A tie with different rows: each device keeps its own. */
  lemma TiesSplit()
    ensures var x, y := WithRatchet(Row(1, "x")), WithRatchet(Row(1, "y"));
      Session(x, y) == (x, y) && x != y
  {
    var x, y := WithRatchet(Row(1, "x")), WithRatchet(Row(1, "y"));
    SessionConverges(x, y);
    assert "x"[0] != "y"[0];
    assert x.ratchets["k"] != y.ratchets["k"];
    SameMap(Join(x.ratchets, y.ratchets), x.ratchets);
    SameMap(Join(y.ratchets, x.ratchets), y.ratchets);
    assert JoinTables(x, y) == x && JoinTables(y, x) == y;
  }

  ghost predicate NotBehindTables(earlier: Tables, later: Tables) {
    && NotBehind(earlier.follows, later.follows) && NotBehind(earlier.moderation, later.moderation)
    && earlier.bookmarks <= later.bookmarks && NotBehind(earlier.ratchets, later.ratchets)
  }

  /** Coherent or not, a session never lowers a timestamp or loses a key. */
  lemma SessionNeverLowers(a: Tables, b: Tables)
    ensures NotBehindTables(a, Session(a, b).0) && NotBehindTables(b, Session(a, b).1)
  {
    SessionConverges(a, b);
    JoinNeverLowers(a, b);
    JoinNeverLowers(b, a);
  }

  lemma JoinNeverLowers(a: Tables, b: Tables)
    ensures NotBehindTables(a, JoinTables(a, b))
  {
  }

  // ---- All devices -----------------------------------------------------------------------------

  /** Device `d` syncs with device `e`. */
  function SyncPair(devices: seq<Tables>, d: nat, e: nat): (r: seq<Tables>)
    requires d < |devices| && e < |devices|
    ensures |r| == |devices|
  {
    if d == e then devices
    else devices[d := Session(devices[d], devices[e]).0][e := Session(devices[d], devices[e]).1]
  }

  predicate Targets(devices: nat, order: seq<nat>) {
    forall i :: 0 <= i < |order| ==> order[i] < devices
  }

  /** Device `d` syncs with each device of the list in turn. */
  function Pass(devices: seq<Tables>, d: nat, order: seq<nat>): (r: seq<Tables>)
    requires d < |devices| && Targets(|devices|, order)
    ensures |r| == |devices|
  {
    if order == [] then devices
    else SyncPair(Pass(devices, d, order[..|order| - 1]), d, order[|order| - 1])
  }

  ghost predicate AllCoherent(devices: seq<Tables>) {
    forall i, j :: 0 <= i < |devices| && 0 <= j < |devices| ==> CoherentTables(devices[i], devices[j])
  }

  function JoinAll(devices: seq<Tables>): Tables {
    if devices == [] then Tables(map[], map[], {}, map[])
    else JoinTables(JoinAll(devices[..|devices| - 1]), devices[|devices| - 1])
  }

  lemma CoherentPrefix(devices: seq<Tables>)
    requires devices != [] && AllCoherent(devices)
    ensures AllCoherent(devices[..|devices| - 1])
  {
  }

  lemma {:induction false} JoinAllCoherent(devices: seq<Tables>, c: Tables)
    requires forall i :: 0 <= i < |devices| ==> CoherentTables(devices[i], c)
    ensures CoherentTables(JoinAll(devices), c)
  {
    if devices != [] {
      var init := devices[..|devices| - 1];
      JoinAllCoherent(init, c);
      JoinCoherent(JoinAll(init), devices[|devices| - 1], c);
    }
  }

  /** The join of coherent devices is an upper bound of each. */
  lemma {:induction false} JoinAllUpper(devices: seq<Tables>, i: nat)
    requires AllCoherent(devices) && i < |devices|
    ensures LeTables(devices[i], JoinAll(devices))
  {
    var init, last := devices[..|devices| - 1], devices[|devices| - 1];
    CoherentPrefix(devices);
    forall k | 0 <= k < |init|
      ensures CoherentTables(init[k], last)
    {
      assert CoherentTables(devices[k], devices[|devices| - 1]);
    }
    JoinAllCoherent(init, last);
    JoinUpper(JoinAll(init), last);
    if i < |init| {
      JoinAllUpper(init, i);
      LeTransitive(init[i], JoinAll(init), JoinAll(devices));
    }
  }

  /** And the least one: it holds nothing that is not some device's row. */
  lemma {:induction false} JoinAllLeast(devices: seq<Tables>, u: Tables)
    requires forall i :: 0 <= i < |devices| ==> LeTables(devices[i], u)
    ensures LeTables(JoinAll(devices), u)
  {
    if devices != [] {
      var init := devices[..|devices| - 1];
      JoinAllLeast(init, u);
      JoinLeast(JoinAll(init), devices[|devices| - 1], u);
    }
  }

  ghost predicate AllBelow(devices: seq<Tables>, top: Tables) {
    forall i :: 0 <= i < |devices| ==> LeTables(devices[i], top)
  }

  /** Both devices of a pair hold the join of their tables. */
  lemma PairHolds(devices: seq<Tables>, d: nat, e: nat, i: nat)
    requires d < |devices| && e < |devices| && i < |devices|
    requires CoherentTables(devices[d], devices[e])
    ensures SyncPair(devices, d, e)[i] ==
      if d != e && (i == d || i == e) then JoinTables(devices[d], devices[e]) else devices[i]
  {
    SessionConverges(devices[d], devices[e]);
  }

  lemma PairCoherent(devices: seq<Tables>, d: nat, e: nat)
    requires d < |devices| && e < |devices| && AllCoherent(devices)
    ensures AllCoherent(SyncPair(devices, d, e))
  {
    var r, j := SyncPair(devices, d, e), JoinTables(devices[d], devices[e]);
    assert CoherentTables(devices[d], devices[e]);
    forall i | 0 <= i < |r|
      ensures CoherentTables(j, devices[i]) && CoherentTables(devices[i], j)
    {
      assert CoherentTables(devices[d], devices[i]) && CoherentTables(devices[e], devices[i]);
      JoinCoherent(devices[d], devices[e], devices[i]);
    }
    forall i, k | 0 <= i < |r| && 0 <= k < |r|
      ensures CoherentTables(r[i], r[k])
    {
      PairHolds(devices, d, e, i);
      PairHolds(devices, d, e, k);
      assert CoherentTables(devices[i], devices[k]);
    }
  }

  lemma PairBelow(devices: seq<Tables>, d: nat, e: nat, top: Tables)
    requires d < |devices| && e < |devices| && AllCoherent(devices) && AllBelow(devices, top)
    ensures AllBelow(SyncPair(devices, d, e), top)
  {
    assert CoherentTables(devices[d], devices[e]);
    JoinLeast(devices[d], devices[e], top);
    forall i | 0 <= i < |devices|
      ensures LeTables(SyncPair(devices, d, e)[i], top)
    {
      PairHolds(devices, d, e, i);
    }
  }

  /** A session lifts every device, and the first device of the pair above the second. */
  lemma PairGrows(devices: seq<Tables>, d: nat, e: nat, i: nat)
    requires d < |devices| && e < |devices| && i < |devices| && AllCoherent(devices)
    ensures LeTables(devices[i], SyncPair(devices, d, e)[i]) && LeTables(devices[e], SyncPair(devices, d, e)[d])
  {
    assert CoherentTables(devices[d], devices[e]);
    PairHolds(devices, d, e, i);
    PairHolds(devices, d, e, d);
    JoinUpper(devices[d], devices[e]);
  }

  lemma {:induction false} PassCoherent(devices: seq<Tables>, d: nat, order: seq<nat>)
    requires d < |devices| && Targets(|devices|, order) && AllCoherent(devices)
    ensures AllCoherent(Pass(devices, d, order))
  {
    if order != [] {
      PassCoherent(devices, d, order[..|order| - 1]);
      PairCoherent(Pass(devices, d, order[..|order| - 1]), d, order[|order| - 1]);
    }
  }

  lemma {:induction false} PassBelow(devices: seq<Tables>, d: nat, order: seq<nat>, top: Tables)
    requires d < |devices| && Targets(|devices|, order) && AllCoherent(devices) && AllBelow(devices, top)
    ensures AllBelow(Pass(devices, d, order), top)
  {
    if order != [] {
      PassCoherent(devices, d, order[..|order| - 1]);
      PassBelow(devices, d, order[..|order| - 1], top);
      PairBelow(Pass(devices, d, order[..|order| - 1]), d, order[|order| - 1], top);
    }
  }

  lemma {:induction false} PassGrows(devices: seq<Tables>, d: nat, order: seq<nat>, i: nat)
    requires d < |devices| && Targets(|devices|, order) && AllCoherent(devices) && i < |devices|
    ensures LeTables(devices[i], Pass(devices, d, order)[i])
  {
    if order != [] {
      var mid := Pass(devices, d, order[..|order| - 1]);
      PassCoherent(devices, d, order[..|order| - 1]);
      PassGrows(devices, d, order[..|order| - 1], i);
      PairGrows(mid, d, order[|order| - 1], i);
      LeTransitive(devices[i], mid[i], Pass(devices, d, order)[i]);
    }
  }

  lemma PassSnoc(devices: seq<Tables>, d: nat, order: seq<nat>)
    requires d < |devices| && Targets(|devices|, order) && order != [] && AllCoherent(devices)
    ensures Targets(|devices|, order[..|order| - 1])
    ensures var mid, e := Pass(devices, d, order[..|order| - 1]), order[|order| - 1];
      LeTables(mid[d], Pass(devices, d, order)[d]) && LeTables(mid[e], Pass(devices, d, order)[d])
  {
    var mid, e := Pass(devices, d, order[..|order| - 1]), order[|order| - 1];
    PassCoherent(devices, d, order[..|order| - 1]);
    PairGrows(mid, d, e, d);
  }

  /** What a device has collected before the last session of a pass it keeps. */
  lemma KeptByLast(devices: seq<Tables>, d: nat, order: seq<nat>, t: Tables)
    requires d < |devices| && Targets(|devices|, order) && order != [] && AllCoherent(devices)
    requires Targets(|devices|, order[..|order| - 1]) && LeTables(t, Pass(devices, d, order[..|order| - 1])[d])
    ensures LeTables(t, Pass(devices, d, order)[d])
  {
    PassSnoc(devices, d, order);
    LeTransitive(t, Pass(devices, d, order[..|order| - 1])[d], Pass(devices, d, order)[d]);
  }

  lemma CollectedByLast(devices: seq<Tables>, d: nat, order: seq<nat>)
    requires d < |devices| && Targets(|devices|, order) && order != [] && AllCoherent(devices)
    ensures LeTables(devices[order[|order| - 1]], Pass(devices, d, order)[d])
  {
    var init, e := order[..|order| - 1], order[|order| - 1];
    PassSnoc(devices, d, order);
    PassGrows(devices, d, init, e);
    LeTransitive(devices[e], Pass(devices, d, init)[e], Pass(devices, d, order)[d]);
  }

  /** After a pass the device has collected each device it synced with. */
  lemma {:induction false} PassCollects(devices: seq<Tables>, d: nat, order: seq<nat>, n: nat)
    requires d < |devices| && Targets(|devices|, order) && AllCoherent(devices) && n < |order|
    ensures LeTables(devices[order[n]], Pass(devices, d, order)[d])
  {
    if n < |order| - 1 {
      PassCollects(devices, d, order[..|order| - 1], n);
      KeptByLast(devices, d, order, devices[order[n]]);
    } else {
      CollectedByLast(devices, d, order);
    }
  }

  ghost predicate Covers(devices: nat, d: nat, order: seq<nat>) {
    Targets(devices, order) && forall i :: 0 <= i < devices && i != d ==> i in order
  }

  /** One pass over all other devices gives a device the join of all. */
  lemma OnePassCollects(devices: seq<Tables>, d: nat, order: seq<nat>)
    requires d < |devices| && Covers(|devices|, d, order) && AllCoherent(devices)
    ensures Pass(devices, d, order)[d] == JoinAll(devices)
  {
    var top, r := JoinAll(devices), Pass(devices, d, order);
    forall i | 0 <= i < |devices|
      ensures LeTables(devices[i], top) && LeTables(devices[i], r[d])
    {
      JoinAllUpper(devices, i);
      if i == d {
        PassGrows(devices, d, order, d);
      } else {
        assert i in order;
        var n :| 0 <= n < |order| && order[n] == i;
        PassCollects(devices, d, order, n);
      }
    }
    JoinAllLeast(devices, r[d]);
    PassBelow(devices, d, order, top);
    LeAntisymmetric(r[d], top);
  }

  /** A second pass, in any order, gives the join to every device. */
  lemma TwoPassesConverge(devices: seq<Tables>, d: nat, order: seq<nat>, again: seq<nat>, i: nat)
    requires d < |devices| && AllCoherent(devices) && i < |devices|
    requires Covers(|devices|, d, order) && Covers(|devices|, d, again)
    ensures Pass(Pass(devices, d, order), d, again)[i] == JoinAll(devices)
  {
    var top, mid := JoinAll(devices), Pass(devices, d, order);
    forall k | 0 <= k < |devices|
      ensures LeTables(devices[k], top)
    {
      JoinAllUpper(devices, k);
    }
    PassCoherent(devices, d, order);
    PassBelow(devices, d, order, top);
    OnePassCollects(devices, d, order);
    Spread(mid, d, again, top, i);
  }

  lemma SpreadOne(devices: seq<Tables>, d: nat, e: nat, top: Tables, i: nat)
    requires d < |devices| && e < |devices| && i < |devices|
    requires AllCoherent(devices) && AllBelow(devices, top) && devices[d] == top
    ensures SyncPair(devices, d, e)[i] == if i == d || i == e then top else devices[i]
  {
    assert CoherentTables(devices[d], devices[e]);
    PairHolds(devices, d, e, i);
    JoinUpper(devices[d], devices[e]);
    JoinLeast(devices[d], devices[e], top);
    LeAntisymmetric(JoinTables(devices[d], devices[e]), top);
  }

  /** A device that holds the top keeps it, and hands it to every device it syncs with. */
  lemma {:induction false} Spread(devices: seq<Tables>, d: nat, order: seq<nat>, top: Tables, i: nat)
    requires d < |devices| && Targets(|devices|, order) && i < |devices|
    requires AllCoherent(devices) && AllBelow(devices, top) && devices[d] == top
    ensures i == d || i in order ==> Pass(devices, d, order)[i] == top
  {
    if order != [] {
      var init, e := order[..|order| - 1], order[|order| - 1];
      Spread(devices, d, init, top, i);
      Spread(devices, d, init, top, d);
      PassCoherent(devices, d, init);
      PassBelow(devices, d, init, top);
      SpreadOne(Pass(devices, d, init), d, e, top, i);
      assert order == init + [e];
    }
  }
}
