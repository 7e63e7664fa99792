/** Sessions that break off: whatever part of them was merged, nothing is lost, nothing is invented,
    and later passes still converge to the join of what the devices held at first. */
module DeviceSyncFailures {
  import opened Wrappers
  import opened DeviceSync
  import opened DeviceSyncTheorems

  /** Table `a` after merging some rows of `b`: only newer rows replace its own. */
  ghost predicate Part<K, V>(a: map<K, Row<V>>, b: map<K, Row<V>>, r: map<K, Row<V>>) {
    && (forall k :: k in a ==> k in r)
    && (forall k :: k in r ==> (k in a && r[k] == a[k]) || Replaced(a, b, r, k))
  }

  ghost predicate Replaced<K, V>(a: map<K, Row<V>>, b: map<K, Row<V>>, r: map<K, Row<V>>, k: K)
    requires k in r
  {
    k in b && r[k] == b[k] && (k in a ==> a[k].changedAt < b[k].changedAt)
  }

  ghost predicate PartTables(a: Tables, b: Tables, r: Tables) {
    && Part(a.follows, b.follows, r.follows) && Part(a.moderation, b.moderation, r.moderation)
    && a.bookmarks <= r.bookmarks <= a.bookmarks + b.bookmarks
    && Part(a.ratchets, b.ratchets, r.ratchets)
  }

  /** Merging any rows of a table, in any order and number, takes part of it. */
  lemma {:induction false} MergedIsPart<K, V>(table: map<K, Row<V>>, entries: seq<Entry<K, V>>, remote: map<K, Row<V>>)
    requires forall e :: e in entries ==> e.key in remote && remote[e.key] == e.row
    ensures Part(table, remote, Merged(table, entries))
  {
    if entries != [] { MergedIsPart(table, entries[..|entries| - 1], remote); }
  }

  function First<T>(s: seq<T>, n: nat): seq<T> {
    if n < |s| then s[..n] else s
  }

  lemma SomeDeltas<K, V>(table: map<K, Row<V>>, ours: seq<Entry<K, V>>, theirs: seq<Entry<K, V>>,
                         remote: map<K, Row<V>>, n: nat)
    requires Lists(ours, remote)
    ensures Part(table, remote, Merged(table, First(Deltas(ours, theirs), n)))
  {
    forall e | e in First(Deltas(ours, theirs), n)
      ensures e in ours
    {
      DeltasMember(ours, theirs, e);
    }
    MergedIsPart(table, First(Deltas(ours, theirs), n), remote);
  }

  // ---- Sessions that break off ---------------------------------------------------------------

  /** How many entries of each kind are merged before the stream breaks. */
  datatype Cut = Cut(follows: nat, moderation: nat, bookmarks: nat, ratchets: nat)

  function CutFrames(f: DeltaFrames, cut: Cut): DeltaFrames {
    DeltaFrames(First(f.follows, cut.follows), First(f.moderation, cut.moderation), First(f.bookmarks, cut.bookmarks),
                First(f.ratchets, cut.ratchets))
  }

  lemma CutIsPart(t: Tables, theirs: SyncVector, before: Tables, sent: SyncVector,
                  ratchets: map<string, Row<string>>, exported: seq<Entry<string, string>>, cut: Cut)
    requires Describes(sent, before) && Lists(exported, ratchets)
    ensures PartTables(t, before.(ratchets := ratchets), Imported(t, CutFrames(FramesFor(sent, exported, theirs), cut)))
  {
    SomeDeltas(t.follows, sent.follows, theirs.follows, before.follows, cut.follows);
    SomeDeltas(t.moderation, sent.moderation, theirs.moderation, before.moderation, cut.moderation);
    SomeDeltas(t.ratchets, exported, theirs.ratchets, ratchets, cut.ratchets);
    forall id | id in First(NewIds(sent.bookmarks, theirs.bookmarks), cut.bookmarks)
      ensures id in before.bookmarks
    {
      assert id in IdSet(NewIds(sent.bookmarks, theirs.bookmarks));
    }
  }

  /** Like `TransferDeltas`, with the stream breaking at the cut. */
  method TransferSome(from: DeviceStore, sent: SyncVector, ghost before: Tables, theirs: SyncVector, to: DeviceStore,
                      cut: Cut)
    requires from != to && Describes(sent, before)
    modifies to
    ensures PartTables(old(to.View()), before.(ratchets := from.ratchets), to.View())
  {
    var exported := ListRows(from.ratchets);
    CutIsPart(to.View(), theirs, before, sent, from.ratchets, exported, cut);
    ImportDeltas(to, CutFrames(FramesFor(sent, exported, theirs), cut));
  }

  /** Rows that came from `b` change nothing when they are sent back to it. */
  lemma PartThrough<K, V>(a: map<K, Row<V>>, b: map<K, Row<V>>, a': map<K, Row<V>>, b': map<K, Row<V>>)
    requires Part(a, b, a') && Part(b, a', b')
    ensures Part(b, a, b')
  {
    forall k | k in b'
      ensures (k in b && b'[k] == b[k]) || Replaced(b, a, b', k)
    {
      assert k in a' ==> (k in a && a'[k] == a[k]) || Replaced(a, b, a', k);
    }
  }

  /** A session that breaks off in either direction. */
  method BrokenSession(a: DeviceStore, b: DeviceStore, received: Cut, delivered: Cut)
    requires a != b
    modifies a, b
    ensures PartTables(old(a.View()), old(b.View()), a.View())
    ensures PartTables(old(b.View()), old(a.View()), b.View())
  {
    var va := BuildVector(a);
    var vb := BuildVector(b);
    ghost var a0, b0 := a.View(), b.View();
    TransferSome(b, vb, b0, va, a, received);
    TransferSome(a, va, a0, vb, b, delivered);
    PartThrough(a0.ratchets, b0.ratchets, a.ratchets, b.ratchets);
  }

  // ---- Exchanges among all devices --------------------------------------------------------------

  ghost predicate AgreesWithAll(devices: seq<Tables>, c: Tables) {
    forall i :: 0 <= i < |devices| ==> CoherentTables(devices[i], c)
  }

  /** The tables hold no more than the devices together: they agree with whatever all devices
      agree with, and are below whatever all devices are below. */
  ghost predicate Within(devices: seq<Tables>, t: Tables) {
    && (forall c :: AgreesWithAll(devices, c) ==> CoherentTables(t, c))
    && (forall top :: AllBelow(devices, top) ==> LeTables(t, top))
  }

  /** Every device kept what it held and took in nothing from outside. */
  ghost predicate Exchanged(devices: seq<Tables>, later: seq<Tables>) {
    && |devices| == |later|
    && forall i :: 0 <= i < |devices| ==> LeTables(devices[i], later[i]) && Within(devices, later[i])
  }

  lemma PartIsAbove<K, V>(a: map<K, Row<V>>, b: map<K, Row<V>>, r: map<K, Row<V>>, top: map<K, Row<V>>,
                          c: map<K, Row<V>>)
    requires Part(a, b, r)
    ensures Le(a, r)
    ensures Le(a, top) && Le(b, top) ==> Le(r, top)
    ensures Coherent(a, c) && Coherent(b, c) ==> Coherent(r, c)
  {
  }

  lemma PartTablesAbove(a: Tables, b: Tables, r: Tables, top: Tables, c: Tables)
    requires PartTables(a, b, r)
    ensures LeTables(a, r)
    ensures LeTables(a, top) && LeTables(b, top) ==> LeTables(r, top)
    ensures CoherentTables(a, c) && CoherentTables(b, c) ==> CoherentTables(r, c)
  {
    PartIsAbove(a.follows, b.follows, r.follows, top.follows, c.follows);
    PartIsAbove(a.moderation, b.moderation, r.moderation, top.moderation, c.moderation);
    PartIsAbove(a.ratchets, b.ratchets, r.ratchets, top.ratchets, c.ratchets);
  }

  lemma PartWithin(devices: seq<Tables>, i: nat, j: nat, r: Tables)
    requires i < |devices| && j < |devices| && PartTables(devices[i], devices[j], r)
    ensures LeTables(devices[i], r) && Within(devices, r)
  {
    PartTablesAbove(devices[i], devices[j], r, r, r);
    forall c | AgreesWithAll(devices, c)
      ensures CoherentTables(r, c)
    {
      PartTablesAbove(devices[i], devices[j], r, r, c);
    }
    forall top | AllBelow(devices, top)
      ensures LeTables(r, top)
    {
      PartTablesAbove(devices[i], devices[j], r, top, r);
    }
  }

  lemma SelfWithin(devices: seq<Tables>, i: nat)
    requires i < |devices|
    ensures LeTables(devices[i], devices[i]) && Within(devices, devices[i])
  {
  }

  /** A session between two devices, complete or not, is an exchange. */
  lemma SessionExchanges(devices: seq<Tables>, later: seq<Tables>, d: nat, e: nat)
    requires d < |devices| && e < |devices| && |later| == |devices|
    requires forall i :: 0 <= i < |devices| && i != d && i != e ==> later[i] == devices[i]
    requires PartTables(devices[d], devices[e], later[d]) && PartTables(devices[e], devices[d], later[e])
    ensures Exchanged(devices, later)
  {
    forall i | 0 <= i < |devices|
      ensures LeTables(devices[i], later[i]) && Within(devices, later[i])
    {
      SelfWithin(devices, i);
      if i == d { PartWithin(devices, d, e, later[d]); }
      if i == e { PartWithin(devices, e, d, later[e]); }
    }
  }

  lemma JoinIsPart<K, V>(a: map<K, Row<V>>, b: map<K, Row<V>>)
    ensures Part(a, b, Join(a, b))
  {
  }

  lemma SessionIsPart(a: Tables, b: Tables)
    ensures PartTables(a, b, Session(a, b).0) && PartTables(b, a, Session(a, b).1)
  {
    SessionConverges(a, b);
    JoinIsPart(a.follows, b.follows);
    JoinIsPart(a.moderation, b.moderation);
    JoinIsPart(a.ratchets, b.ratchets);
    JoinIsPart(b.follows, a.follows);
    JoinIsPart(b.moderation, a.moderation);
    JoinIsPart(b.ratchets, a.ratchets);
  }

  lemma ExchangeTransitive(a: seq<Tables>, b: seq<Tables>, c: seq<Tables>)
    requires Exchanged(a, b) && Exchanged(b, c)
    ensures Exchanged(a, c)
  {
    forall i | 0 <= i < |a|
      ensures LeTables(a[i], c[i]) && Within(a, c[i])
    {
      LeTransitive(a[i], b[i], c[i]);
      forall t | AgreesWithAll(a, t)
        ensures CoherentTables(c[i], t)
      {
        assert AgreesWithAll(b, t);
      }
      forall top | AllBelow(a, top)
        ensures LeTables(c[i], top)
      {
        assert AllBelow(b, top);
      }
    }
  }

  /** Exchanges keep coherent devices coherent, and the join of all as it was. */
  lemma ExchangeKeepsJoin(devices: seq<Tables>, later: seq<Tables>)
    requires AllCoherent(devices) && Exchanged(devices, later)
    ensures AllCoherent(later) && JoinAll(later) == JoinAll(devices)
  {
    ExchangeCoherent(devices, later);
    var top, top' := JoinAll(devices), JoinAll(later);
    forall i | 0 <= i < |devices|
      ensures LeTables(devices[i], top) && LeTables(devices[i], top')
    {
      JoinAllUpper(devices, i);
      JoinAllUpper(later, i);
      LeTransitive(devices[i], later[i], top');
    }
    assert AllBelow(devices, top);
    JoinAllLeast(devices, top');
    JoinAllLeast(later, top);
    LeAntisymmetric(top, top');
  }

  lemma CoherentSymmetric(a: Tables, b: Tables)
    requires CoherentTables(a, b)
    ensures CoherentTables(b, a)
  {
  }

  lemma ExchangeCoherent(devices: seq<Tables>, later: seq<Tables>)
    requires AllCoherent(devices) && Exchanged(devices, later)
    ensures AllCoherent(later)
  {
    forall i, k | 0 <= i < |later| && 0 <= k < |later|
      ensures CoherentTables(later[k], later[i])
    {
      forall j | 0 <= j < |devices|
        ensures CoherentTables(devices[j], later[i])
      {
        assert AgreesWithAll(devices, devices[j]);
        CoherentSymmetric(later[i], devices[j]);
      }
      assert AgreesWithAll(devices, later[i]);
    }
  }

  /** After any sequence of complete and broken sessions among any of the devices, two complete
      passes still give every device the join of what they all held at first. */
  lemma ConvergesAfterFailures(devices: seq<Tables>, later: seq<Tables>, d: nat, order: seq<nat>, again: seq<nat>,
                               i: nat)
    requires AllCoherent(devices) && Exchanged(devices, later)
    requires d < |devices| && i < |devices| && Covers(|devices|, d, order) && Covers(|devices|, d, again)
    ensures Pass(Pass(later, d, order), d, again)[i] == JoinAll(devices)
  {
    ExchangeKeepsJoin(devices, later);
    TwoPassesConverge(later, d, order, again, i);
  }

  // ---- The loop over all devices -------------------------------------------------------------------

  function Views(devices: seq<DeviceStore>): (r: seq<Tables>)
    reads devices
    ensures |r| == |devices|
  {
    seq(|devices|, i requires 0 <= i < |devices| reads devices => devices[i].View())
  }

  /** What becomes of a session: it completes, or it breaks off in either direction. */
  datatype Outcome = Completes | Breaks(received: Cut, delivered: Cut)

  method Attempt(devices: seq<DeviceStore>, d: nat, e: nat, outcome: Outcome)
    requires d < |devices| && e < |devices| && d != e
    requires forall i, j :: 0 <= i < j < |devices| ==> devices[i] != devices[j]
    modifies devices[d], devices[e]
    ensures Exchanged(old(Views(devices)), Views(devices))
    ensures outcome.Completes? ==> Views(devices) == SyncPair(old(Views(devices)), d, e)
  {
    ghost var before := Views(devices);
    if outcome.Completes? {
      SessionIsPart(before[d], before[e]);
      SyncWithDevice(devices[d], devices[e]);
    } else {
      BrokenSession(devices[d], devices[e], outcome.received, outcome.delivered);
    }
    SessionExchanges(before, Views(devices), d, e);
  }

  /** The loop of `sync_all_devices`: a failed or timed-out session does not stop it. */
  method SyncAllDevices(devices: seq<DeviceStore>, d: nat, order: seq<nat>, outcomes: seq<Outcome>)
    requires d < |devices| && Targets(|devices|, order) && d !in order && |outcomes| == |order|
    requires forall i, j :: 0 <= i < j < |devices| ==> devices[i] != devices[j]
    modifies devices
    ensures Exchanged(old(Views(devices)), Views(devices))
    ensures (forall o :: o in outcomes ==> o.Completes?) ==> Views(devices) == Pass(old(Views(devices)), d, order)
  {
    ghost var start := Views(devices);
    AllSelf(start);
    for i := 0 to |order|
      invariant Exchanged(start, Views(devices))
      invariant (forall o :: o in outcomes ==> o.Completes?) ==> Views(devices) == Pass(start, d, order[..i])
    {
      ghost var before := Views(devices);
      Attempt(devices, d, order[i], outcomes[i]);
      ExchangeTransitive(start, before, Views(devices));
      assert order[..i + 1][..i] == order[..i];
    }
    assert order[..|order|] == order;
  }

  lemma AllSelf(devices: seq<Tables>)
    ensures Exchanged(devices, devices)
  {
    forall i | 0 <= i < |devices|
      ensures LeTables(devices[i], devices[i]) && Within(devices, devices[i])
    {
      SelfWithin(devices, i);
    }
  }
}
