/** Speaker forwarding on the stage host (src-tauri/src/stage/pipeline.rs): each speaker
    connection registers and takes a snapshot under the hub's lock, then subscribes to and
    from the speakers of its snapshot without the lock, while others come and go. */
module SfuHub {
  import opened Wrappers

  type NodeId = string

  /** The hub's two maps, changed under one lock. Values are connection numbers: they stand for
      both the speaker's fanout and its connection. */
  datatype HubMaps = HubMaps(fanouts: map<NodeId, nat>, connections: map<NodeId, nat>)

  /** The maps after a speaker's connection has registered. */
  function Registered(h: HubMaps, id: NodeId, connection: nat): HubMaps {
    HubMaps(h.fanouts[id := connection], h.connections[id := connection])
  }

  /** The maps after a receive task has removed its speaker. */
  function CleanedUp(h: HubMaps, id: NodeId): HubMaps {
    HubMaps(h.fanouts - {id}, h.connections - {id})
  }

  class Hub {
    var fanouts: map<NodeId, nat>
    var connections: map<NodeId, nat>

    function View(): HubMaps
      reads this
    {
      HubMaps(fanouts, connections)
    }

    constructor ()
      ensures View() == Start().hub
    {
      fanouts, connections := map[], map[];
    }

    /** Under the lock: the snapshot is of the maps before the connection enters them. */
    method RegisterAndSnapshot(id: NodeId, connection: nat) returns (snapshot: HubMaps)
      modifies this
      ensures snapshot == old(View()) && View() == Registered(old(View()), id, connection)
    {
      snapshot := HubMaps(fanouts, connections);
      fanouts := fanouts[id := connection];
      connections := connections[id := connection];
    }

    method Remove(id: NodeId)
      modifies this
      ensures View() == CleanedUp(old(View()), id)
    {
      fanouts := fanouts - {id};
      connections := connections - {id};
    }
  }

  /** Where a connection's task is: subscribing (with the peers left, and the one whose first
      half is done), about to subscribe to the host's voice, receiving, or removed. */
  datatype Phase = Connecting(pending: set<NodeId>, half: Option<NodeId>) | HostVoice | Receiving | Removed

  datatype Speaker = Speaker(id: NodeId, live: bool, before: HubMaps, phase: Phase)

  /** `subs[(a, b)]` counts the subscriptions of connection `b` to the fanout of `a`. */
  datatype State = State(speakers: seq<Speaker>, hub: HubMaps,
                         subs: multiset<(nat, nat)>, hostSubs: multiset<nat>)

  datatype Event =
    | Register(id: NodeId)
    | Subscribe(connection: nat, peer: NodeId)
    | SubscribeBack(connection: nat)
    | FinishPeers(connection: nat)
    | SubscribeHost(connection: nat)
    | Disconnect(connection: nat)
    | Cleanup(connection: nat)

  function Start(): State {
    State([], HubMaps(map[], map[]), multiset{}, multiset{})
  }

  function SetPhase(s: State, j: nat, p: Phase): State
    requires j < |s.speakers|
  {
    s.(speakers := s.speakers[j := s.speakers[j].(phase := p)])
  }

  predicate Live(s: State, i: nat) {
    i < |s.speakers| && s.speakers[i].live
  }

  /** Whether the event can happen. A connection may drop at any time, and a receive loop may end,
      and clean up, whether or not its connection still opens streams. */
  predicate Enabled(s: State, ev: Event) {
    match ev
    case Register(_) => true
    case Subscribe(j, e) =>
      && j < |s.speakers| && s.speakers[j].phase.Connecting? && s.speakers[j].phase.half.None?
      && e in s.speakers[j].phase.pending && e in s.speakers[j].before.fanouts
    case SubscribeBack(j) =>
      j < |s.speakers| && s.speakers[j].phase.Connecting? && s.speakers[j].phase.half.Some?
    case FinishPeers(j) =>
      && j < |s.speakers| && s.speakers[j].phase.Connecting? && s.speakers[j].phase.half.None?
      && s.speakers[j].phase.pending == {}
    case SubscribeHost(j) => j < |s.speakers| && s.speakers[j].phase.HostVoice?
    case Disconnect(j) => j < |s.speakers|
    case Cleanup(j) => j < |s.speakers| && s.speakers[j].phase.Receiving?
  }

  /** Opening a stream succeeds exactly on a live connection. */
  function Step(s: State, ev: Event): State {
    if !Enabled(s, ev) then s
    else
      match ev
      case Register(id) =>
        s.(speakers := s.speakers + [Speaker(id, true, s.hub, Connecting(s.hub.fanouts.Keys, None))],
           hub := Registered(s.hub, id, |s.speakers|))
      case Subscribe(j, e) =>
        var me := s.speakers[j];
        var s' := SetPhase(s, j, me.phase.(half := Some(e)));
        if me.live then s'.(subs := s.subs + multiset{(me.before.fanouts[e], j)}) else s'
      case SubscribeBack(j) =>
        var me := s.speakers[j];
        var e := me.phase.half.value;
        var s' := SetPhase(s, j, Connecting(me.phase.pending - {e}, None));
        if e in me.before.connections && Live(s, me.before.connections[e])
        then s'.(subs := s.subs + multiset{(j, me.before.connections[e])}) else s'
      case FinishPeers(j) => SetPhase(s, j, HostVoice)
      case SubscribeHost(j) =>
        var s' := SetPhase(s, j, Receiving);
        if s.speakers[j].live then s'.(hostSubs := s.hostSubs + multiset{j}) else s'
      case Disconnect(j) => s.(speakers := s.speakers[j := s.speakers[j].(live := false)])
      case Cleanup(j) =>
        SetPhase(s, j, Removed).(hub := CleanedUp(s.hub, s.speakers[j].id))
  }

  function Run(events: seq<Event>): State {
    if events == [] then Start() else Step(Run(events[..|events| - 1]), events[|events| - 1])
  }

  // ---- The invariant -----------------------------------------------------------------

  /** Connection `j` found connection `i` in the hub when it registered. */
  predicate Found(s: State, i: nat, j: nat)
    requires i < |s.speakers| && j < |s.speakers|
  {
    s.speakers[i].id in s.speakers[j].before.fanouts && s.speakers[j].before.fanouts[s.speakers[i].id] == i
  }

  /** How far a connection has come with a peer: 0 untouched, 1 first half done, 2 done. */
  function Progress(p: Phase, e: NodeId): nat {
    if !p.Connecting? then 2
    else if p.half == Some(e) then 1
    else if e in p.pending then 0
    else 2
  }

  function Bound(b: bool): nat {
    if b then 1 else 0
  }

  /** The connection has not been cleaned up. */
  predicate InHub(s: State, i: nat) {
    i < |s.speakers| && !s.speakers[i].phase.Removed?
  }

  ghost predicate SpeakerInv(s: State, j: nat)
    requires j < |s.speakers|
  {
    var me := s.speakers[j];
    && me.before.fanouts == me.before.connections
    && (forall e :: e in me.before.fanouts ==>
          me.before.fanouts[e] < j && s.speakers[me.before.fanouts[e]].id == e)
    && (me.phase.Connecting? ==>
          && me.phase.pending <= me.before.fanouts.Keys
          && (me.phase.half.Some? ==> me.phase.half.value in me.phase.pending))
    && s.hostSubs[j] <= Bound(me.phase.Receiving? || me.phase.Removed?)
    && (me.live && (me.phase.Receiving? || me.phase.Removed?) ==> s.hostSubs[j] == 1)
  }

  /** For `i` registered before `j`: who subscribed to whom. */
  ghost predicate PairInv(s: State, i: nat, j: nat)
    requires i < j < |s.speakers|
  {
    var e, p := s.speakers[i].id, s.speakers[j].phase;
    && s.subs[(i, j)] <= Bound(Found(s, i, j) && Progress(p, e) >= 1)
    && s.subs[(j, i)] <= Bound(Found(s, i, j) && Progress(p, e) == 2)
    && (s.speakers[j].live ==> s.subs[(i, j)] == Bound(Found(s, i, j) && Progress(p, e) >= 1))
    && (s.speakers[i].live ==> s.subs[(j, i)] == Bound(Found(s, i, j) && Progress(p, e) == 2))
  }

  ghost predicate Inv(s: State) {
    && s.hub.fanouts == s.hub.connections
    && (forall e :: e in s.hub.fanouts ==> InHub(s, s.hub.fanouts[e]) && s.speakers[s.hub.fanouts[e]].id == e)
    && (forall j :: 0 <= j < |s.speakers| ==> SpeakerInv(s, j))
    && (forall i, j :: 0 <= i < j < |s.speakers| ==> PairInv(s, i, j))
    && (forall i: nat, j: nat :: i == j || i >= |s.speakers| || j >= |s.speakers| ==> s.subs[(i, j)] == 0)
    && (forall j: nat :: j >= |s.speakers| ==> s.hostSubs[j] == 0)
  }

  lemma RegisterKeeps(s: State, id: NodeId)
    requires Inv(s) && Enabled(s, Register(id))
    ensures Inv(Step(s, Register(id)))
  {
    var s' := Step(s, Register(id));
    forall j | 0 <= j < |s'.speakers|
      ensures SpeakerInv(s', j)
    {
      if j < |s.speakers| { assert SpeakerInv(s, j); }
    }
    forall i, j | 0 <= i < j < |s'.speakers|
      ensures PairInv(s', i, j)
    {
      if j < |s.speakers| {
        assert PairInv(s, i, j);
      } else {
        assert SpeakerInv(s, i);
      }
    }
  }

  /** What an event other than a registration may touch, one speaker and one pair at a time. */
  lemma SubscribeSpeaker(s: State, j: nat, e: NodeId, k: nat)
    requires Inv(s) && Enabled(s, Subscribe(j, e)) && k < |s.speakers|
    ensures SpeakerInv(Step(s, Subscribe(j, e)), k)
  {
    assert SpeakerInv(s, k);
  }

  lemma SubscribePair(s: State, j: nat, e: NodeId, a: nat, b: nat)
    requires Inv(s) && Enabled(s, Subscribe(j, e)) && a < b < |s.speakers|
    ensures PairInv(Step(s, Subscribe(j, e)), a, b)
  {
    assert SpeakerInv(s, j);
    assert PairInv(s, a, b);
  }

  lemma SubscribeKeeps(s: State, j: nat, e: NodeId)
    requires Inv(s) && Enabled(s, Subscribe(j, e))
    ensures Inv(Step(s, Subscribe(j, e)))
  {
    var s' := Step(s, Subscribe(j, e));
    assert SpeakerInv(s, j);
    forall k | 0 <= k < |s'.speakers|
      ensures SpeakerInv(s', k)
    {
      SubscribeSpeaker(s, j, e, k);
    }
    forall a, b | 0 <= a < b < |s'.speakers|
      ensures PairInv(s', a, b)
    {
      SubscribePair(s, j, e, a, b);
    }
  }

  lemma SubscribeBackSpeaker(s: State, j: nat, k: nat)
    requires Inv(s) && Enabled(s, SubscribeBack(j)) && k < |s.speakers|
    ensures SpeakerInv(Step(s, SubscribeBack(j)), k)
  {
    assert SpeakerInv(s, k);
  }

  lemma SubscribeBackPair(s: State, j: nat, a: nat, b: nat)
    requires Inv(s) && Enabled(s, SubscribeBack(j)) && a < b < |s.speakers|
    ensures PairInv(Step(s, SubscribeBack(j)), a, b)
  {
    assert SpeakerInv(s, j);
    assert PairInv(s, a, b);
  }

  lemma SubscribeBackKeeps(s: State, j: nat)
    requires Inv(s) && Enabled(s, SubscribeBack(j))
    ensures Inv(Step(s, SubscribeBack(j)))
  {
    var s' := Step(s, SubscribeBack(j));
    assert SpeakerInv(s, j);
    forall k | 0 <= k < |s'.speakers|
      ensures SpeakerInv(s', k)
    {
      SubscribeBackSpeaker(s, j, k);
    }
    forall a, b | 0 <= a < b < |s'.speakers|
      ensures PairInv(s', a, b)
    {
      SubscribeBackPair(s, j, a, b);
    }
  }

  /** The events that concern one connection alone. */
  predicate Local(ev: Event) {
    ev.FinishPeers? || ev.SubscribeHost? || ev.Disconnect? || ev.Cleanup?
  }

  lemma LocalSpeaker(s: State, ev: Event, k: nat)
    requires Inv(s) && Local(ev) && Enabled(s, ev) && k < |s.speakers|
    ensures SpeakerInv(Step(s, ev), k)
  {
    assert SpeakerInv(s, k);
    assert SpeakerInv(s, ev.connection);
  }

  lemma LocalPair(s: State, ev: Event, a: nat, b: nat)
    requires Inv(s) && Local(ev) && Enabled(s, ev) && a < b < |s.speakers|
    ensures PairInv(Step(s, ev), a, b)
  {
    assert PairInv(s, a, b);
  }

  lemma LocalKeeps(s: State, ev: Event)
    requires Inv(s) && Local(ev) && Enabled(s, ev)
    ensures Inv(Step(s, ev))
  {
    var s' := Step(s, ev);
    assert SpeakerInv(s, ev.connection);
    forall k | 0 <= k < |s'.speakers|
      ensures SpeakerInv(s', k)
    {
      LocalSpeaker(s, ev, k);
    }
    forall a, b | 0 <= a < b < |s'.speakers|
      ensures PairInv(s', a, b)
    {
      LocalPair(s, ev, a, b);
    }
  }

  lemma {:induction false} RunsKeepInv(events: seq<Event>)
    ensures Inv(Run(events))
  {
    if events != [] {
      var s, ev := Run(events[..|events| - 1]), events[|events| - 1];
      RunsKeepInv(events[..|events| - 1]);
      if Enabled(s, ev) {
        match ev
        case Register(id) => RegisterKeeps(s, id);
        case Subscribe(j, e) => SubscribeKeeps(s, j, e);
        case SubscribeBack(j) => SubscribeBackKeeps(s, j);
        case _ => LocalKeeps(s, ev);
      }
    }
  }

  // ---- What each event does -----------------------------------------------------------

  /** Only live connections gain subscriptions. */
  lemma OnlyLiveGain(s: State, ev: Event, a: nat, b: nat)
    ensures Step(s, ev).subs[(a, b)] > s.subs[(a, b)] ==> Live(s, b)
    ensures Step(s, ev).hostSubs[b] > s.hostSubs[b] ==> Live(s, b)
    ensures s.subs[(a, b)] <= Step(s, ev).subs[(a, b)] <= s.subs[(a, b)] + 1
    ensures s.hostSubs[b] <= Step(s, ev).hostSubs[b] <= s.hostSubs[b] + 1
  {
  }

  predicate Dropped(s: State, b: nat) {
    b < |s.speakers| && !s.speakers[b].live
  }

  lemma DroppedOne(s: State, ev: Event, a: nat, b: nat)
    requires Dropped(s, b)
    ensures Dropped(Step(s, ev), b)
    ensures Step(s, ev).subs[(a, b)] == s.subs[(a, b)] && Step(s, ev).hostSubs[b] == s.hostSubs[b]
  {
    OnlyLiveGain(s, ev, a, b);
  }

  lemma RunSnoc(events: seq<Event>, more: seq<Event>)
    requires more != []
    ensures Run(events + more) == Step(Run(events + more[..|more| - 1]), more[|more| - 1])
  {
    assert (events + more)[..|events + more| - 1] == events + more[..|more| - 1];
  }

  /** A dropped connection stays dropped, and nothing is subscribed to it ever again. */
  lemma {:induction false} DroppedStaysSilent(events: seq<Event>, more: seq<Event>, a: nat, b: nat)
    requires Dropped(Run(events), b)
    ensures Dropped(Run(events + more), b)
    ensures Run(events + more).subs[(a, b)] == Run(events).subs[(a, b)]
    ensures Run(events + more).hostSubs[b] == Run(events).hostSubs[b]
    decreases |more|
  {
    if more == [] {
      assert events + more == events;
    } else {
      DroppedStaysSilent(events, more[..|more| - 1], a, b);
      RunSnoc(events, more);
      DroppedOne(Run(events + more[..|more| - 1]), more[|more| - 1], a, b);
    }
  }

  /** Registrations, disconnects and the end of a receive loop are never held up. */
  lemma NothingHeldUp(s: State, id: NodeId, j: nat)
    requires j < |s.speakers|
    ensures Enabled(s, Register(id)) && Enabled(s, Disconnect(j))
    ensures s.speakers[j].phase.Receiving? ==> Enabled(s, Cleanup(j))
  {
  }

  /** The hub right after a registration, a clean-up, and a disconnect. */
  lemma HubAfter(s: State, ev: Event)
    requires Enabled(s, ev)
    ensures var s' := Step(s, ev);
      && (ev.Register? ==>
            && |s'.speakers| == |s.speakers| + 1 && Live(s', |s.speakers|)
            && s'.speakers[|s.speakers|].before == s.hub
            && s'.hub.fanouts == s.hub.fanouts[ev.id := |s.speakers|]
            && s'.hub.connections == s.hub.connections[ev.id := |s.speakers|])
      && (ev.Cleanup? ==>
            && s'.hub.fanouts == s.hub.fanouts - {s.speakers[ev.connection].id}
            && s'.hub.connections == s.hub.connections - {s.speakers[ev.connection].id}
            && !InHub(s', ev.connection))
      && (ev.Disconnect? ==> !Live(s', ev.connection) && s'.hub == s.hub)
      && (ev.Subscribe? || ev.SubscribeBack? || ev.FinishPeers? || ev.SubscribeHost? ==> s'.hub == s.hub)
  {
  }

  // ---- Full mesh ------------------------------------------------------------------------

  /** A live speaker whose connect task has finished and whose receive loop runs. */
  predicate Settled(s: State, i: nat) {
    Live(s, i) && s.speakers[i].phase.Receiving?
  }

  /** In every run the two maps agree, nobody is subscribed twice or to itself, and every settled
      speaker is subscribed to the host's voice once; two settled speakers are subscribed to each
      other, exactly once in each direction, if and only if the later one found the earlier one in
      the hub when it registered. */
  lemma MeshExactly(events: seq<Event>)
    ensures var s := Run(events);
      && s.hub.fanouts == s.hub.connections
      && (forall e :: e in s.hub.fanouts ==> InHub(s, s.hub.fanouts[e]) && s.speakers[s.hub.fanouts[e]].id == e)
      && (forall a: nat, b: nat :: s.subs[(a, b)] <= 1)
      && (forall a: nat :: s.subs[(a, a)] == 0)
      && (forall a: nat :: Settled(s, a) ==> s.hostSubs[a] == 1)
      && (forall a: nat, b: nat :: a < b && Settled(s, a) && Settled(s, b) ==>
            s.subs[(a, b)] == s.subs[(b, a)] == Bound(Found(s, a, b)))
  {
    RunsKeepInv(events);
    var s := Run(events);
    forall a: nat, b: nat
      ensures s.subs[(a, b)] <= 1
      ensures a < b && Settled(s, a) && Settled(s, b) ==> s.subs[(a, b)] == s.subs[(b, a)] == Bound(Found(s, a, b))
    {
      if a < b < |s.speakers| { assert PairInv(s, a, b); }
      if b < a < |s.speakers| { assert PairInv(s, b, a); }
    }
    forall a: nat | Settled(s, a)
      ensures s.hostSubs[a] == 1
    {
      assert SpeakerInv(s, a);
    }
  }

  /** The connection is the hub's entry for its node. */
  predicate Entered(s: State, j: nat)
    requires j < |s.speakers|
  {
    s.speakers[j].id in s.hub.fanouts && s.hub.fanouts[s.speakers[j].id] == j
  }

  /** Every connection not cleaned up is in the hub, and was found by all later ones. */
  ghost predicate Steady(s: State) {
    && (forall j :: 0 <= j < |s.speakers| && InHub(s, j) ==> Entered(s, j))
    && (forall i, j :: 0 <= i < j < |s.speakers| && InHub(s, i) ==> Found(s, i, j))
  }

  /** A node registers while the hub still has an entry for it. */
  predicate Reconnects(s: State, ev: Event) {
    ev.Register? && ev.id in s.hub.fanouts
  }

  predicate NoReconnects(events: seq<Event>) {
    forall n :: 0 <= n < |events| ==> !Reconnects(Run(events[..n]), events[n])
  }

  /** An event changes no connection's node or snapshot, and brings none back. */
  lemma SameSpeaker(s: State, ev: Event, j: nat)
    requires j < |s.speakers|
    ensures var s' := Step(s, ev);
      && |s.speakers| <= |s'.speakers| <= |s.speakers| + 1
      && s'.speakers[j].id == s.speakers[j].id && s'.speakers[j].before == s.speakers[j].before
      && (InHub(s', j) ==> InHub(s, j))
  {
  }

  lemma StepEntered(s: State, ev: Event, j: nat)
    requires Inv(s) && Steady(s) && !Reconnects(s, ev) && InHub(Step(s, ev), j)
    ensures Entered(Step(s, ev), j)
  {
    if j < |s.speakers| {
      SameSpeaker(s, ev, j);
      assert Entered(s, j);
      if ev.Cleanup? && Enabled(s, ev) { assert InHub(s, ev.connection) && Entered(s, ev.connection); }
    }
  }

  lemma StepFound(s: State, ev: Event, i: nat, j: nat)
    requires Steady(s) && i < j < |Step(s, ev).speakers| && InHub(Step(s, ev), i)
    ensures Found(Step(s, ev), i, j)
  {
    if j < |s.speakers| {
      SameSpeaker(s, ev, i);
      SameSpeaker(s, ev, j);
      assert Found(s, i, j);
    } else {
      assert ev.Register? && InHub(s, i) && Entered(s, i);
    }
  }

  lemma StepSteady(s: State, ev: Event)
    requires Inv(s) && Steady(s) && !Reconnects(s, ev)
    ensures Steady(Step(s, ev))
  {
    var s' := Step(s, ev);
    forall j | 0 <= j < |s'.speakers| && InHub(s', j)
      ensures Entered(s', j)
    {
      StepEntered(s, ev, j);
    }
    forall i, j | 0 <= i < j < |s'.speakers| && InHub(s', i)
      ensures Found(s', i, j)
    {
      StepFound(s, ev, i, j);
    }
  }

  lemma {:induction false} RunsSteady(events: seq<Event>)
    requires NoReconnects(events)
    ensures Steady(Run(events))
  {
    if events != [] {
      var init := events[..|events| - 1];
      forall n | 0 <= n < |init|
        ensures !Reconnects(Run(init[..n]), init[n])
      {
        assert init[..n] == events[..n];
      }
      RunsSteady(init);
      RunsKeepInv(init);
      StepSteady(Run(init), events[|events| - 1]);
    }
  }

  /** If no node registers while the hub still has an entry for it: the hub holds every connection
      not cleaned up, and two settled speakers are subscribed to each other exactly once in each
      direction. */
  lemma FullMesh(events: seq<Event>)
    requires NoReconnects(events)
    ensures var s := Run(events);
      && (forall a: nat :: InHub(s, a) ==> Entered(s, a))
      && (forall a: nat, b: nat :: a != b && Settled(s, a) && Settled(s, b) ==> s.subs[(a, b)] == 1)
  {
    MeshExactly(events);
    RunsSteady(events);
  }

  /** A reconnect breaks the mesh: when the loop of the old connection ends it removes the entry of
      the new one, which nobody who registers afterwards finds. */
  lemma StaleCleanupHides(s: State, i: nat, j: nat, id: NodeId)
    requires i < j < |s.speakers| && s.speakers[i].id == s.speakers[j].id && Enabled(s, Cleanup(i))
    ensures var s' := Step(Step(s, Cleanup(i)), Register(id));
      |s'.speakers| == |s.speakers| + 1 && !Found(s', j, |s.speakers|)
  {
  }

  /** How many steps a connect task still has to take. */
  function Remaining(p: Phase): nat {
    match p
    case Connecting(pending, half) => 2 * |pending| + if half.Some? then 1 else 2
    case HostVoice => 1
    case _ => 0
  }

  /** A connect task is never stuck, and each of its steps brings it closer to the end. */
  lemma TaskAdvances(events: seq<Event>, j: nat)
    requires j < |Run(events).speakers| && Remaining(Run(events).speakers[j].phase) > 0
    ensures exists ev: Event :: (ev == SubscribeBack(j) || ev == FinishPeers(j) || ev == SubscribeHost(j)
                                 || (ev.Subscribe? && ev.connection == j))
              && Enabled(Run(events), ev)
              && Remaining(Step(Run(events), ev).speakers[j].phase) < Remaining(Run(events).speakers[j].phase)
  {
    RunsKeepInv(events);
    var s := Run(events);
    assert SpeakerInv(s, j);
    var p := s.speakers[j].phase;
    var ev := if p.HostVoice? then SubscribeHost(j)
              else if p.half.Some? then SubscribeBack(j)
              else if p.pending == {} then FinishPeers(j)
              else var e :| e in p.pending; Subscribe(j, e);
    assert Enabled(s, ev);
    if ev.SubscribeBack? {
      assert |p.pending - {p.half.value}| == |p.pending| - 1;
    }
    assert Remaining(Step(s, ev).speakers[j].phase) < Remaining(p);
  }
}
