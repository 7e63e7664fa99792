/** Sync between the linked devices of one user (src-tauri/src/device_sync.rs and
    src-tauri/src/storage/device_sync.rs): each side sends the rows the other's vector shows it
    lacks, and merges what it receives, the newer timestamp winning. */
module DeviceSync {
  import opened Wrappers

  /** A row and the time of its last change. */
  datatype Row<V> = Row(changedAt: nat, value: V)

  datatype Entry<K, V> = Entry(key: K, row: Row<V>)

  datatype Follow = Follow(followedAt: nat, state: string)

  datatype Moderation = Moderation(createdAt: nat, state: string)

  /** A moderation row is keyed by public key and kind (mute or block). */
  type ModerationKey = (string, string)

  predicate Supersedes<K(==), V>(table: map<K, Row<V>>, e: Entry<K, V>) {
    e.key !in table || e.row.changedAt > table[e.key].changedAt
  }

  /** The table after merging entries one by one. */
  function Merged<K(==), V>(table: map<K, Row<V>>, entries: seq<Entry<K, V>>): map<K, Row<V>> {
    if entries == [] then table
    else
      var before := Merged(table, entries[..|entries| - 1]);
      var e := entries[|entries| - 1];
      if Supersedes(before, e) then before[e.key := e.row] else before
  }

  /** How many of the entries changed the table. */
  function Updates<K(==), V>(table: map<K, Row<V>>, entries: seq<Entry<K, V>>): nat {
    if entries == [] then 0
    else
      var n := Updates(table, entries[..|entries| - 1]);
      if Supersedes(Merged(table, entries[..|entries| - 1]), entries[|entries| - 1]) then n + 1 else n
  }

  /** The filter on what to send: entries the peer lacks, or has an older version of. */
  function Deltas<K(==), V>(ours: seq<Entry<K, V>>, theirs: seq<Entry<K, V>>): seq<Entry<K, V>> {
    if ours == [] then []
    else
      var rest := Deltas(ours[..|ours| - 1], theirs);
      var e := ours[|ours| - 1];
      if Wanted(e, theirs) then rest + [e] else rest
  }

  predicate Wanted<K(==), V>(e: Entry<K, V>, theirs: seq<Entry<K, V>>) {
    match FindEntry(theirs, e.key)
    case None => true
    case Some(found) => e.row.changedAt > found.row.changedAt
  }

  /** The first entry of a key. */
  function FindEntry<K(==), V>(entries: seq<Entry<K, V>>, key: K): (r: Option<Entry<K, V>>)
    ensures r.Some? ==> r.value in entries && r.value.key == key
    ensures r.None? ==> forall e :: e in entries ==> e.key != key
  {
    if entries == [] then None
    else if entries[0].key == key then Some(entries[0])
    else FindEntry(entries[1..], key)
  }

  /** The entries are the rows of the table, each once, in some order. */
  ghost predicate Lists<K, V>(entries: seq<Entry<K, V>>, table: map<K, Row<V>>) {
    && (forall e :: e in entries ==> e.key in table && table[e.key] == e.row)
    && (forall k :: k in table ==> Entry(k, table[k]) in entries)
    && DistinctKeys(entries)
  }

  ghost predicate DistinctKeys<K, V>(entries: seq<Entry<K, V>>) {
    forall i, j :: 0 <= i < j < |entries| ==> entries[i].key != entries[j].key
  }

  function IdSet(ids: seq<string>): set<string> {
    set id | id in ids
  }

  lemma IdSetSnoc(ids: seq<string>, id: string)
    ensures IdSet(ids + [id]) == IdSet(ids) + {id}
  {
  }

  /** A query for all rows of a table. */
  method ListRows<K(==), V>(table: map<K, Row<V>>) returns (entries: seq<Entry<K, V>>)
    ensures Lists(entries, table)
  {
    entries := [];
    var left := table.Keys;
    while left != {}
      invariant left <= table.Keys
      invariant forall e :: e in entries ==> e.key in table && e.key !in left && table[e.key] == e.row
      invariant forall k :: k in table && k !in left ==> Entry(k, table[k]) in entries
      invariant forall i, j :: 0 <= i < j < |entries| ==> entries[i].key != entries[j].key
      decreases left
    {
      var k :| k in left;
      left := left - {k};
      ghost var before := entries;
      entries := entries + [Entry(k, table[k])];
      assert Entry(k, table[k]) == entries[|entries| - 1];
      forall k' | k' in table && k' !in left
        ensures Entry(k', table[k']) in entries
      {
        if k' != k { assert Entry(k', table[k']) in before; }
      }
    }
  }

  /** The loop shared by the last-writer-wins merges. */
  method MergeRows<K(==), V>(table: map<K, Row<V>>, entries: seq<Entry<K, V>>)
      returns (merged: map<K, Row<V>>, count: nat)
    ensures merged == Merged(table, entries) && count == Updates(table, entries)
  {
    merged, count := table, 0;
    for i := 0 to |entries|
      invariant merged == Merged(table, entries[..i]) && count == Updates(table, entries[..i])
    {
      assert entries[..i + 1][..i] == entries[..i];
      if entries[i].key !in merged || entries[i].row.changedAt > merged[entries[i].key].changedAt {
        merged := merged[entries[i].key := entries[i].row];
        count := count + 1;
      }
    }
    assert entries[..|entries|] == entries;
  }

  // ---- A device ------------------------------------------------------------------------

  /** The synced tables of a device, as a value. */
  datatype Tables = Tables(
    follows: map<string, Row<Follow>>,
    moderation: map<ModerationKey, Row<Moderation>>,
    bookmarks: set<string>,
    ratchets: map<string, Row<string>>)

  /** Newer rows win; on equal timestamps the first table keeps its own. */
  function Join<K(==), V>(a: map<K, Row<V>>, b: map<K, Row<V>>): map<K, Row<V>> {
    map k | k in a.Keys + b.Keys ::
      if k !in a then b[k] else if k !in b then a[k] else if b[k].changedAt > a[k].changedAt then b[k] else a[k]
  }

  function JoinTables(a: Tables, b: Tables): Tables {
    Tables(Join(a.follows, b.follows), Join(a.moderation, b.moderation), a.bookmarks + b.bookmarks,
           Join(a.ratchets, b.ratchets))
  }

  /** The two devices after the initiator `a` has synced with the responder `b`. The initiator
      exports its ratchet sessions only after it has merged the responder's. */
  function Session(a: Tables, b: Tables): (Tables, Tables) {
    var a' := JoinTables(a, b);
    (a', JoinTables(b, a).(ratchets := Join(b.ratchets, a'.ratchets)))
  }

  class DeviceStore {
    var follows: map<string, Row<Follow>>
    var moderation: map<ModerationKey, Row<Moderation>>
    var bookmarks: set<string>
    var ratchets: map<string, Row<string>>

    function View(): Tables
      reads this
    {
      Tables(follows, moderation, bookmarks, ratchets)
    }

    constructor (t: Tables)
      ensures View() == t
    {
      follows, moderation, bookmarks, ratchets := t.follows, t.moderation, t.bookmarks, t.ratchets;
    }

    method MergeFollows(entries: seq<Entry<string, Follow>>) returns (count: nat)
      modifies this`follows
      ensures follows == Merged(old(follows), entries) && count == Updates(old(follows), entries)
    {
      var merged;
      merged, count := MergeRows(follows, entries);
      follows := merged;
    }

    method MergeModeration(entries: seq<Entry<ModerationKey, Moderation>>) returns (count: nat)
      modifies this`moderation
      ensures moderation == Merged(old(moderation), entries) && count == Updates(old(moderation), entries)
    {
      var merged;
      merged, count := MergeRows(moderation, entries);
      moderation := merged;
    }

    method MergeRatchets(entries: seq<Entry<string, string>>) returns (count: nat)
      modifies this`ratchets
      ensures ratchets == Merged(old(ratchets), entries) && count == Updates(old(ratchets), entries)
    {
      var merged;
      merged, count := MergeRows(ratchets, entries);
      ratchets := merged;
    }

    /** Bookmarks only grow; the count is the number of new ones. */
    method MergeBookmarks(ids: seq<string>) returns (added: nat)
      modifies this`bookmarks
      ensures bookmarks == old(bookmarks) + IdSet(ids)
      ensures added == |bookmarks| - |old(bookmarks)|
    {
      added := 0;
      for i := 0 to |ids|
        invariant bookmarks == old(bookmarks) + IdSet(ids[..i])
        invariant added == |bookmarks| - |old(bookmarks)|
      {
        IdSetSnoc(ids[..i], ids[i]);
        assert ids[..i + 1] == ids[..i] + [ids[i]];
        if ids[i] !in bookmarks {
          bookmarks := bookmarks + {ids[i]};
          added := added + 1;
        }
      }
      assert ids[..|ids|] == ids;
    }
  }

  /** The ids of a set, each once. */
  method ListIds(ids: set<string>) returns (r: seq<string>)
    ensures IdSet(r) == ids
  {
    r := [];
    var left := ids;
    while left != {}
      invariant left <= ids && IdSet(r) == ids - left
      decreases left
    {
      var id :| id in left;
      left := left - {id};
      IdSetSnoc(r, id);
      r := r + [id];
    }
  }

  /** What a device reports about itself before a session. Of a ratchet session only the key and
      the time are reported; the model lists the whole row and reads no more than those. */
  datatype SyncVector = SyncVector(
    follows: seq<Entry<string, Follow>>,
    moderation: seq<Entry<ModerationKey, Moderation>>,
    bookmarks: seq<string>,
    ratchets: seq<Entry<string, string>>)

  ghost predicate Describes(v: SyncVector, t: Tables) {
    && Lists(v.follows, t.follows) && Lists(v.moderation, t.moderation) && Lists(v.ratchets, t.ratchets)
    && IdSet(v.bookmarks) == t.bookmarks
  }

  method BuildVector(d: DeviceStore) returns (v: SyncVector)
    ensures Describes(v, d.View())
  {
    var follows := ListRows(d.follows);
    var moderation := ListRows(d.moderation);
    var bookmarks := ListIds(d.bookmarks);
    var ratchets := ListRows(d.ratchets);
    v := SyncVector(follows, moderation, bookmarks, ratchets);
  }

  function NewIds(ours: seq<string>, theirs: seq<string>): (r: seq<string>)
    ensures IdSet(r) == IdSet(ours) - IdSet(theirs)
  {
    if ours == [] then []
    else
      var rest := NewIds(ours[..|ours| - 1], theirs);
      var id := ours[|ours| - 1];
      assert ours == ours[..|ours| - 1] + [id];
      IdSetSnoc(ours[..|ours| - 1], id);
      IdSetSnoc(rest, id);
      if id !in theirs then rest + [id] else rest
  }

  /** What one side sends: the entries and ids of its frames. */
  datatype DeltaFrames = DeltaFrames(
    follows: seq<Entry<string, Follow>>,
    moderation: seq<Entry<ModerationKey, Moderation>>,
    bookmarks: seq<string>,
    ratchets: seq<Entry<string, string>>)

  /** Follows, moderation and bookmarks come from the vector built before the session; ratchet
      sessions are exported afresh. */
  function FramesFor(sent: SyncVector, exported: seq<Entry<string, string>>, theirs: SyncVector): DeltaFrames {
    DeltaFrames(Deltas(sent.follows, theirs.follows), Deltas(sent.moderation, theirs.moderation),
                NewIds(sent.bookmarks, theirs.bookmarks), Deltas(exported, theirs.ratchets))
  }

  function Imported(t: Tables, f: DeltaFrames): Tables {
    Tables(Merged(t.follows, f.follows), Merged(t.moderation, f.moderation), t.bookmarks + IdSet(f.bookmarks),
           Merged(t.ratchets, f.ratchets))
  }

  /** Merges the frames of one stream, as they arrive. */
  method ImportDeltas(to: DeviceStore, f: DeltaFrames)
    modifies to
    ensures to.View() == Imported(old(to.View()), f)
  {
    var n := to.MergeFollows(f.follows);
    n := to.MergeModeration(f.moderation);
    n := to.MergeBookmarks(f.bookmarks);
    n := to.MergeRatchets(f.ratchets);
  }

  /** Sends a device's deltas and merges them at the receiver. */
  method TransferDeltas(from: DeviceStore, sent: SyncVector, ghost before: Tables, theirs: SyncVector, to: DeviceStore)
    requires from != to
    requires Describes(theirs, to.View()) && Describes(sent, before)
    modifies to
    ensures to.View() == JoinTables(old(to.View()), before.(ratchets := from.ratchets))
  {
    var exported := ListRows(from.ratchets);
    AllDeltas(to.View(), theirs, before, sent, from.ratchets, exported);
    ImportDeltas(to, FramesFor(sent, exported, theirs));
  }

  lemma AllDeltas(t: Tables, theirs: SyncVector, before: Tables, sent: SyncVector,
                  ratchets: map<string, Row<string>>, exported: seq<Entry<string, string>>)
    requires Describes(theirs, t) && Describes(sent, before) && Lists(exported, ratchets)
    ensures Imported(t, FramesFor(sent, exported, theirs)) == JoinTables(t, before.(ratchets := ratchets))
  {
    DeltasRefineMerge(t.follows, theirs.follows, t.follows, sent.follows, before.follows);
    DeltasRefineMerge(t.moderation, theirs.moderation, t.moderation, sent.moderation, before.moderation);
    DeltasRefineMerge(t.ratchets, theirs.ratchets, t.ratchets, exported, ratchets);
  }

  /** One session: vectors are exchanged, the responder's deltas go first, then the initiator's. */
  method SyncWithDevice(a: DeviceStore, b: DeviceStore)
    requires a != b
    modifies a, b
    ensures (a.View(), b.View()) == Session(old(a.View()), old(b.View()))
  {
    var va := BuildVector(a);
    var vb := BuildVector(b);
    ghost var a0, b0 := a.View(), b.View();
    TransferDeltas(b, vb, b0, va, a);
    TransferDeltas(a, va, a0, vb, b);
  }

  // ---- Merging --------------------------------------------------------------------------

  /** `later` has every key of `earlier`, with no older timestamp. */
  ghost predicate NotBehind<K, V>(earlier: map<K, Row<V>>, later: map<K, Row<V>>) {
    forall k :: k in earlier ==> k in later && earlier[k].changedAt <= later[k].changedAt
  }

  /** No merge lowers a key's timestamp or removes a key, whatever is received. */
  lemma {:induction false} MergeNeverLowers<K, V>(table: map<K, Row<V>>, entries: seq<Entry<K, V>>)
    ensures NotBehind(table, Merged(table, entries))
  {
    if entries != [] { MergeNeverLowers(table, entries[..|entries| - 1]); }
  }

  /** A merge leaves a key alone that no entry names. */
  lemma {:induction false} MergedElsewhere<K, V>(table: map<K, Row<V>>, entries: seq<Entry<K, V>>, k: K)
    requires forall i :: 0 <= i < |entries| ==> entries[i].key != k
    ensures k in Merged(table, entries) <==> k in table
    ensures k in table ==> Merged(table, entries)[k] == table[k]
  {
    if entries != [] { MergedElsewhere(table, entries[..|entries| - 1], k); }
  }

  /** A merge gives the key of an entry that entry's row when it is newer, and keeps its row otherwise. */
  lemma {:induction false} MergedAt<K, V>(table: map<K, Row<V>>, entries: seq<Entry<K, V>>, i: nat)
    requires DistinctKeys(entries) && i < |entries|
    ensures entries[i].key in Merged(table, entries)
    ensures Merged(table, entries)[entries[i].key]
         == if Supersedes(table, entries[i]) then entries[i].row else table[entries[i].key]
  {
    var init := entries[..|entries| - 1];
    if i == |init| {
      MergedElsewhere(table, init, entries[i].key);
    } else {
      assert init[i] == entries[i];
      MergedAt(table, init, i);
    }
  }

  /** After merging any entries, in any order and with keys repeated, each key holds the newest of
      its old row and its entries. */
  lemma {:induction false} MergedNewest<K, V>(table: map<K, Row<V>>, entries: seq<Entry<K, V>>, k: K)
    ensures k in Merged(table, entries) <==> k in table || exists e :: e in entries && e.key == k
    ensures k in table ==> table[k].changedAt <= Merged(table, entries)[k].changedAt
    ensures forall e :: e in entries && e.key == k ==> e.row.changedAt <= Merged(table, entries)[k].changedAt
    ensures k in Merged(table, entries) ==>
      (k in table && Merged(table, entries)[k] == table[k]) || Entry(k, Merged(table, entries)[k]) in entries
  {
    if entries != [] {
      var init, last := entries[..|entries| - 1], entries[|entries| - 1];
      MergedNewest(table, init, k);
      assert entries == init + [last];
    }
  }

  /** The entry is newer than the row it meets, and than every earlier entry of its key. */
  predicate Improves<K(==), V>(table: map<K, Row<V>>, entries: seq<Entry<K, V>>, i: nat)
    requires i < |entries|
  {
    && (entries[i].key in table ==> entries[i].row.changedAt > table[entries[i].key].changedAt)
    && forall j :: 0 <= j < i && entries[j].key == entries[i].key ==>
         entries[j].row.changedAt < entries[i].row.changedAt
  }

  function Improving<K(==), V>(table: map<K, Row<V>>, entries: seq<Entry<K, V>>): set<nat> {
    set i | 0 <= i < |entries| && Improves(table, entries, i)
  }

  lemma SupersedesExactly<K, V>(table: map<K, Row<V>>, entries: seq<Entry<K, V>>)
    requires entries != []
    ensures Supersedes(Merged(table, entries[..|entries| - 1]), entries[|entries| - 1])
       <==> Improves(table, entries, |entries| - 1)
  {
    var init, last := entries[..|entries| - 1], entries[|entries| - 1];
    MergedNewest(table, init, last.key);
    forall j | 0 <= j < |init|
      ensures init[j] == entries[j] && init[j] in init
    {
    }
  }

  lemma ImprovingSnoc<K, V>(table: map<K, Row<V>>, entries: seq<Entry<K, V>>)
    requires entries != []
    ensures Improving(table, entries)
         == Improving(table, entries[..|entries| - 1])
            + if Improves(table, entries, |entries| - 1) then {|entries| - 1} else {}
  {
    var init := entries[..|entries| - 1];
    forall i | 0 <= i < |init|
      ensures Improves(table, init, i) <==> Improves(table, entries, i)
    {
      assert forall j :: 0 <= j <= i ==> init[j] == entries[j];
    }
  }

  /** The number of updates is the number of entries that improve on all before them. */
  lemma {:induction false} UpdatesExactly<K, V>(table: map<K, Row<V>>, entries: seq<Entry<K, V>>)
    ensures Updates(table, entries) == |Improving(table, entries)|
  {
    if entries == [] {
      assert Improving(table, entries) == {};
    } else {
      UpdatesExactly(table, entries[..|entries| - 1]);
      SupersedesExactly(table, entries);
      ImprovingSnoc(table, entries);
      assert |entries| - 1 !in Improving(table, entries[..|entries| - 1]);
    }
  }

  /** What is sent: exactly the entries the peer has not reported, or reported with an older time. */
  lemma DeltasExactly<K, V>(ours: seq<Entry<K, V>>, theirs: seq<Entry<K, V>>, reported: map<K, Row<V>>, e: Entry<K, V>)
    requires Lists(theirs, reported)
    ensures e in Deltas(ours, theirs) <==>
      e in ours && (e.key in reported ==> e.row.changedAt > reported[e.key].changedAt)
  {
    DeltasMember(ours, theirs, e);
    if e.key in reported { assert Entry(e.key, reported[e.key]) in theirs; }
  }

  lemma {:induction false} DeltasMember<K, V>(ours: seq<Entry<K, V>>, theirs: seq<Entry<K, V>>, e: Entry<K, V>)
    ensures e in Deltas(ours, theirs) <==> e in ours && Wanted(e, theirs)
  {
    if ours != [] {
      assert ours == ours[..|ours| - 1] + [ours[|ours| - 1]];
      DeltasMember(ours[..|ours| - 1], theirs, e);
    }
  }

  lemma {:induction false} DeltasDistinct<K, V>(ours: seq<Entry<K, V>>, theirs: seq<Entry<K, V>>)
    requires DistinctKeys(ours)
    ensures DistinctKeys(Deltas(ours, theirs))
  {
    if ours != [] {
      var init, last := ours[..|ours| - 1], ours[|ours| - 1];
      DeltasDistinct(init, theirs);
      forall e | e in Deltas(init, theirs)
        ensures e.key != last.key
      {
        DeltasMember(init, theirs, e);
        var i :| 0 <= i < |init| && init[i] == e;
        assert ours[i].key != ours[|ours| - 1].key;
      }
    }
  }

  lemma SameMap<K, V>(a: map<K, V>, b: map<K, V>)
    requires forall k :: k in a <==> k in b
    requires forall k :: k in a && k in b ==> a[k] == b[k]
    ensures a == b
  {
  }

  /** Merging a whole remote table is the join. */
  lemma MergeListing<K, V>(table: map<K, Row<V>>, entries: seq<Entry<K, V>>, remote: map<K, Row<V>>)
    requires Lists(entries, remote)
    ensures Merged(table, entries) == Join(table, remote)
  {
    var m, j := Merged(table, entries), Join(table, remote);
    forall k
      ensures k in m <==> k in j
      ensures k in m && k in j ==> m[k] == j[k]
    {
      if k in remote {
        var i :| 0 <= i < |entries| && entries[i] == Entry(k, remote[k]);
        MergedAt(table, entries, i);
      } else {
        MergedElsewhere(table, entries, k);
      }
    }
    SameMap(m, j);
  }

  /** Merging only the entries the receiver's vector asks for gives the join with the sender's
      whole table, even if the receiver has moved on since it reported its vector. */
  lemma DeltasRefineMerge<K, V>(reported: map<K, Row<V>>, theirs: seq<Entry<K, V>>, now: map<K, Row<V>>,
                                ours: seq<Entry<K, V>>, remote: map<K, Row<V>>)
    requires Lists(theirs, reported) && Lists(ours, remote) && NotBehind(reported, now)
    ensures Merged(now, Deltas(ours, theirs)) == Join(now, remote) == Merged(now, ours)
  {
    MergeListing(now, ours, remote);
    DeltasDistinct(ours, theirs);
    var m, j := Merged(now, Deltas(ours, theirs)), Join(now, remote);
    forall k
      ensures k in m <==> k in j
      ensures k in m && k in j ==> m[k] == j[k]
    {
      DeltasAt(reported, theirs, now, ours, remote, k);
    }
    SameMap(m, j);
  }

  lemma DeltasAt<K, V>(reported: map<K, Row<V>>, theirs: seq<Entry<K, V>>, now: map<K, Row<V>>,
                       ours: seq<Entry<K, V>>, remote: map<K, Row<V>>, k: K)
    requires Lists(theirs, reported) && Lists(ours, remote) && NotBehind(reported, now)
    requires DistinctKeys(Deltas(ours, theirs))
    ensures var m, j := Merged(now, Deltas(ours, theirs)), Join(now, remote);
      (k in m <==> k in j) && (k in m && k in j ==> m[k] == j[k])
  {
    var deltas := Deltas(ours, theirs);
    if k in remote && Wanted(Entry(k, remote[k]), theirs) {
      DeltasMember(ours, theirs, Entry(k, remote[k]));
      var i :| 0 <= i < |deltas| && deltas[i] == Entry(k, remote[k]);
      MergedAt(now, deltas, i);
    } else {
      forall i | 0 <= i < |deltas|
        ensures deltas[i].key != k
      {
        DeltasMember(ours, theirs, deltas[i]);
      }
      MergedElsewhere(now, deltas, k);
      if k in remote { NotWantedIsOld(reported, theirs, now, Entry(k, remote[k])); }
    }
  }

  lemma NotWantedIsOld<K, V>(reported: map<K, Row<V>>, theirs: seq<Entry<K, V>>, now: map<K, Row<V>>, e: Entry<K, V>)
    requires Lists(theirs, reported) && NotBehind(reported, now) && !Wanted(e, theirs)
    ensures e.key in now && e.row.changedAt <= now[e.key].changedAt
  {
    assert FindEntry(theirs, e.key).value in theirs;
  }
}
