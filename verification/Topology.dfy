/** Assignment of stage listeners to the host or to volunteer relays
    (src-tauri/src/stage/topology.rs, and the volunteer case of stage/control_handler.rs). */
module Topology {
  import opened Wrappers

  datatype Source = Source(isHost: bool, endpoint: string, capacity: nat, held: nat)

  /** The manager's state: sources in order of registration, and each listener's endpoint. */
  datatype State = State(sources: seq<Source>, assignments: map<string, string>)

  function FindSource(sources: seq<Source>, endpoint: string): (r: Option<nat>)
    ensures r.Some? ==> r.value < |sources| && sources[r.value].endpoint == endpoint
    ensures r.None? ==> forall i :: 0 <= i < |sources| ==> sources[i].endpoint != endpoint
  {
    if sources == [] then None
    else if sources[0].endpoint == endpoint then Some(0)
    else
      match FindSource(sources[1..], endpoint)
      case None => None
      case Some(i) => Some(i + 1)
  }

  function AddRelay(t: State, endpoint: string, capacity: nat): State {
    if FindSource(t.sources, endpoint).Some? then t
    else t.(sources := t.sources + [Source(false, endpoint, capacity, 0)])
  }

  function SaturatingDecrement(n: nat): (r: nat)
    ensures r <= n <= r + 1 && (r == n <==> n == 0)
  {
    if n == 0 then 0 else n - 1
  }

  /** Frees the listener's slot, if it has one. */
  function Release(t: State, listener: string): State {
    if listener !in t.assignments then t
    else
      var rest := t.assignments - {listener};
      match FindSource(t.sources, t.assignments[listener])
      case None => t.(assignments := rest)
      case Some(i) =>
        State(t.sources[i := t.sources[i].(held := SaturatingDecrement(t.sources[i].held))], rest)
  }

  predicate HasRoom(s: Source) {
    s.held < s.capacity
  }

  function Room(s: Source): int {
    s.capacity - s.held
  }

  /** The first host with room. */
  function HostWithRoom(sources: seq<Source>): (r: Option<nat>)
    ensures r.Some? ==> r.value < |sources| && sources[r.value].isHost && HasRoom(sources[r.value])
    ensures r.Some? ==> forall i :: 0 <= i < r.value ==> !(sources[i].isHost && HasRoom(sources[i]))
    ensures r.None? ==> forall i :: 0 <= i < |sources| ==> !(sources[i].isHost && HasRoom(sources[i]))
  {
    if sources == [] then None
    else if sources[0].isHost && HasRoom(sources[0]) then Some(0)
    else
      match HostWithRoom(sources[1..])
      case None => None
      case Some(i) => Some(i + 1)
  }

  /** The source with the most room; the last of several, as `max_by_key` returns. */
  function MostRoom(sources: seq<Source>): (r: Option<nat>)
    ensures r.Some? ==> r.value < |sources| && HasRoom(sources[r.value])
    ensures r.Some? ==> forall i :: 0 <= i < |sources| ==>
      sources[i].capacity - sources[i].held <= sources[r.value].capacity - sources[r.value].held
    ensures r.Some? ==> forall i :: r.value < i < |sources| ==>
      sources[i].capacity - sources[i].held < sources[r.value].capacity - sources[r.value].held
    ensures r.None? ==> forall i :: 0 <= i < |sources| ==> !HasRoom(sources[i])
  {
    if sources == [] then None
    else
      var last := sources[|sources| - 1];
      match MostRoom(sources[..|sources| - 1])
      case None => if HasRoom(last) then Some(|sources| - 1) else None
      case Some(i) =>
        if HasRoom(last) && Room(last) >= Room(sources[i])
        then Some(|sources| - 1) else Some(i)
  }

  function Choose(sources: seq<Source>): (r: Option<nat>)
    ensures r.Some? ==> r.value < |sources| && HasRoom(sources[r.value])
    ensures r.None? ==> forall i :: 0 <= i < |sources| ==> !HasRoom(sources[i])
  {
    var host := HostWithRoom(sources);
    if host.Some? then host else MostRoom(sources)
  }

  function Assign(t: State, listener: string): (State, Option<string>) {
    var freed := Release(t, listener);
    match Choose(freed.sources)
    case None => (freed, None)
    case Some(i) =>
      var s := freed.sources[i];
      (State(freed.sources[i := s.(held := s.held + 1)], freed.assignments[listener := s.endpoint]), Some(s.endpoint))
  }

  function AssignAll(t: State, listeners: seq<string>): State {
    if listeners == [] then t
    else Assign(AssignAll(t, listeners[..|listeners| - 1]), listeners[|listeners| - 1]).0
  }

  class TopologyManager {
    var sources: seq<Source>
    var assignments: map<string, string>

    function View(): State
      reads this
    {
      State(sources, assignments)
    }

    constructor (hostEndpoint: string, hostCapacity: nat)
      ensures View() == State([Source(true, hostEndpoint, hostCapacity, 0)], map[])
      ensures Valid(View())
    {
      sources := [Source(true, hostEndpoint, hostCapacity, 0)];
      assignments := map[];
      new;
      NobodyAssigned(hostEndpoint);
    }

    method Register(endpoint: string, capacity: nat)
      requires Valid(View())
      modifies this
      ensures View() == AddRelay(old(View()), endpoint, capacity)
      ensures Valid(View()) && assignments == old(assignments)
      ensures Serves(old(sources), endpoint) ==> sources == old(sources)
      ensures !Serves(old(sources), endpoint) ==> sources == old(sources) + [Source(false, endpoint, capacity, 0)]
    {
      AddRelayKeeps(View(), endpoint, capacity);
      if FindSource(sources, endpoint).None? {
        sources := sources + [Source(false, endpoint, capacity, 0)];
      }
    }

    /** Reassignment begins by freeing the old slot. */
    method FreeSlot(listener: string)
      modifies this
      ensures View() == Release(old(View()), listener)
    {
      if listener in assignments {
        var was := assignments[listener];
        assignments := assignments - {listener};
        var found := FindSource(sources, was);
        if found.Some? {
          var s := sources[found.value];
          sources := sources[found.value := s.(held := SaturatingDecrement(s.held))];
        }
      }
    }

    method AssignListener(listener: string) returns (endpoint: Option<string>)
      requires Valid(View())
      modifies this
      ensures (View(), endpoint) == Assign(old(View()), listener)
      ensures Valid(View())
    {
      AssignKeeps(View(), listener);
      FreeSlot(listener);
      var choice := Choose(sources);
      if choice.None? {
        return None;
      }
      var s := sources[choice.value];
      sources := sources[choice.value := s.(held := s.held + 1)];
      assignments := assignments[listener := s.endpoint];
      endpoint := Some(s.endpoint);
    }

    /** The host's handling of a relay volunteer: register it, then reassign every listener. The
        result lists, in order, exactly the listeners that end up on the relay. */
    method HandleVolunteer(relay: string, capacity: nat, listeners: seq<string>) returns (relayListeners: seq<string>)
      requires Valid(View()) && Distinct(listeners)
      modifies this
      ensures View() == AssignAll(AddRelay(old(View()), relay, capacity), listeners)
      ensures Valid(View())
      ensures relayListeners == OnEndpoint(listeners, assignments, relay)
      ensures forall l :: l in relayListeners <==> l in listeners && l in assignments && assignments[l] == relay
      ensures Serves(sources, relay)
      ensures ServesUpTo(old(View()), View(), SetOf(listeners), CapacityWith(old(View()), relay, capacity))
    {
      VolunteerServes(View(), relay, capacity, listeners);
      Register(relay, capacity);
      relayListeners := [];
      ghost var start := View();
      for i := 0 to |listeners|
        invariant View() == AssignAll(start, listeners[..i]) && Valid(View())
        invariant relayListeners == OnEndpoint(listeners[..i], assignments, relay)
      {
        VolunteerStep(View(), listeners, i, relay);
        assert listeners[..i + 1][..i] == listeners[..i];
        var endpoint := AssignListener(listeners[i]);
        if endpoint == Some(relay) {
          relayListeners := relayListeners + [listeners[i]];
        }
      }
      assert listeners[..|listeners|] == listeners;
      OnEndpointExactly(listeners, assignments, relay);
    }
  }

  /** Assigning the next listener of the list extends the relay's part by it, or not. */
  lemma VolunteerStep(t: State, listeners: seq<string>, i: nat, relay: string)
    requires Valid(t) && Distinct(listeners) && i < |listeners|
    ensures var (t', r) := Assign(t, listeners[i]);
      OnEndpoint(listeners[..i + 1], t'.assignments, relay)
      == OnEndpoint(listeners[..i], t.assignments, relay) + if r == Some(relay) then [listeners[i]] else []
  {
    AssignMoves(t, listeners[i]);
    assert listeners[..i + 1][..i] == listeners[..i];
    OthersStay(listeners[..i], t.assignments, Assign(t, listeners[i]).0.assignments, relay, listeners[i]);
  }

  // ---- The invariant ------------------------------------------------------------------------

  ghost predicate Distinct(s: seq<string>) {
    forall i, j :: 0 <= i < j < |s| ==> s[i] != s[j]
  }

  function Listeners(assignments: map<string, string>, endpoint: string): set<string> {
    set l | l in assignments && assignments[l] == endpoint
  }

  predicate Serves(sources: seq<Source>, endpoint: string) {
    exists i :: 0 <= i < |sources| && sources[i].endpoint == endpoint
  }

  /** Endpoints are distinct, every listener is on a source, and each counter is the number of
      listeners on its source, within its capacity. */
  ghost predicate Valid(t: State) {
    && (forall i, j :: 0 <= i < j < |t.sources| ==> t.sources[i].endpoint != t.sources[j].endpoint)
    && (forall l :: l in t.assignments ==> Serves(t.sources, t.assignments[l]))
    && (forall i :: 0 <= i < |t.sources| ==>
          t.sources[i].held == |Listeners(t.assignments, t.sources[i].endpoint)| <= t.sources[i].capacity)
  }

  lemma NobodyAssigned(endpoint: string)
    ensures Listeners(map[], endpoint) == {}
  {
  }

  lemma AddRelayKeeps(t: State, endpoint: string, capacity: nat)
    requires Valid(t)
    ensures Valid(AddRelay(t, endpoint, capacity))
  {
    var t' := AddRelay(t, endpoint, capacity);
    if t' != t {
      forall l | l in t'.assignments
        ensures Serves(t'.sources, t'.assignments[l]) && t'.assignments[l] != endpoint
      {
        var i :| 0 <= i < |t.sources| && t.sources[i].endpoint == t.assignments[l];
        assert t'.sources[i].endpoint == t'.assignments[l];
      }
      assert Listeners(t'.assignments, endpoint) == {};
    }
  }

  /** The endpoint's source, its capacity and the number of its listeners. */
  predicate Offers(t: State, endpoint: string, capacity: nat, held: nat) {
    exists i :: 0 <= i < |t.sources| && t.sources[i].endpoint == endpoint
                && t.sources[i].capacity == capacity && t.sources[i].held == held
  }

  /** A relay that volunteers is served from: an unknown one joins behind the other sources with its
      capacity and nobody on it, adding that capacity to the total; a known one changes nothing. */
  lemma RelayJoins(t: State, endpoint: string, capacity: nat)
    ensures var t' := AddRelay(t, endpoint, capacity);
      && Serves(t'.sources, endpoint)
      && t'.assignments == t.assignments
      && |t'.sources| == |t.sources| + (if Serves(t.sources, endpoint) then 0 else 1)
      && t.sources <= t'.sources
      && Capacity(t'.sources) == Capacity(t.sources) + (if Serves(t.sources, endpoint) then 0 else capacity)
      && (!Serves(t.sources, endpoint) ==> Offers(t', endpoint, capacity, 0) && !t'.sources[|t.sources|].isHost)
  {
    var t' := AddRelay(t, endpoint, capacity);
    if Serves(t.sources, endpoint) {
      var i :| 0 <= i < |t.sources| && t.sources[i].endpoint == endpoint;
    } else {
      assert t'.sources[..|t.sources|] == t.sources;
      assert t'.sources[|t.sources|].endpoint == endpoint;
    }
  }

  lemma ListenersWithout(assignments: map<string, string>, l: string, endpoint: string)
    ensures Listeners(assignments - {l}, endpoint) == Listeners(assignments, endpoint) - {l}
    ensures l in assignments ==>
      |Listeners(assignments - {l}, endpoint)|
      == |Listeners(assignments, endpoint)| - (if assignments[l] == endpoint then 1 else 0)
  {
    assert Listeners(assignments - {l}, endpoint) == Listeners(assignments, endpoint) - {l};
  }

  lemma ListenersWith(assignments: map<string, string>, l: string, to: string, endpoint: string)
    requires l !in assignments
    ensures |Listeners(assignments[l := to], endpoint)|
         == |Listeners(assignments, endpoint)| + (if to == endpoint then 1 else 0)
  {
    assert Listeners(assignments[l := to], endpoint)
        == Listeners(assignments, endpoint) + (if to == endpoint then {l} else {});
  }

  /** Releasing a held slot never saturates, and leaves room on its source. */
  lemma ReleaseKeeps(t: State, listener: string)
    requires Valid(t)
    ensures Valid(Release(t, listener))
    ensures listener !in Release(t, listener).assignments
    ensures listener in t.assignments ==>
      var found := FindSource(t.sources, t.assignments[listener]);
      found.Some? && t.sources[found.value].held > 0 && HasRoom(Release(t, listener).sources[found.value])
  {
    if listener in t.assignments {
      var endpoint := t.assignments[listener];
      assert Serves(t.sources, endpoint);
      var found := FindSource(t.sources, endpoint);
      assert listener in Listeners(t.assignments, endpoint);
      var t' := Release(t, listener);
      forall i | 0 <= i < |t'.sources|
        ensures t'.sources[i].endpoint == t.sources[i].endpoint
        ensures t'.sources[i].held == |Listeners(t'.assignments, t'.sources[i].endpoint)| <= t'.sources[i].capacity
      {
        ListenersWithout(t.assignments, listener, t.sources[i].endpoint);
      }
      SameEndpoints(t, t');
    }
  }

  lemma SameEndpoints(t: State, t': State)
    requires |t.sources| == |t'.sources|
    requires forall i :: 0 <= i < |t.sources| ==> t.sources[i].endpoint == t'.sources[i].endpoint
    ensures forall e :: Serves(t.sources, e) ==> Serves(t'.sources, e)
  {
    forall e | Serves(t.sources, e)
      ensures Serves(t'.sources, e)
    {
      var i :| 0 <= i < |t.sources| && t.sources[i].endpoint == e;
      assert t'.sources[i].endpoint == e;
    }
  }

  lemma TakeKeeps(t: State, listener: string, i: nat)
    requires Valid(t) && listener !in t.assignments && i < |t.sources| && HasRoom(t.sources[i])
    ensures var s := t.sources[i];
      Valid(State(t.sources[i := s.(held := s.held + 1)], t.assignments[listener := s.endpoint]))
  {
    var s := t.sources[i];
    var t' := State(t.sources[i := s.(held := s.held + 1)], t.assignments[listener := s.endpoint]);
    forall k | 0 <= k < |t'.sources|
      ensures t'.sources[k].endpoint == t.sources[k].endpoint
      ensures t'.sources[k].held == |Listeners(t'.assignments, t'.sources[k].endpoint)| <= t'.sources[k].capacity
    {
      ListenersWith(t.assignments, listener, s.endpoint, t.sources[k].endpoint);
    }
    SameEndpoints(t, t');
    assert t'.sources[i].endpoint == s.endpoint;
  }

  lemma AssignKeeps(t: State, listener: string)
    requires Valid(t)
    ensures Valid(Assign(t, listener).0)
  {
    ReleaseKeeps(t, listener);
    var freed := Release(t, listener);
    var choice := Choose(freed.sources);
    if choice.Some? { TakeKeeps(freed, listener, choice.value); }
  }

  predicate Full(t: State) {
    forall i :: 0 <= i < |t.sources| ==> !HasRoom(t.sources[i])
  }

  /** A new listener finds no source exactly when every source is full. */
  lemma AssignFails(t: State, listener: string)
    requires Valid(t)
    ensures Choose(Release(t, listener).sources).None? <==> listener !in t.assignments && Full(t)
  {
    ReleaseKeeps(t, listener);
  }

  lemma ReleaseForgets(t: State, listener: string, endpoint: string)
    ensures Release(t, listener).assignments[listener := endpoint] == t.assignments[listener := endpoint]
    ensures listener !in t.assignments ==> Release(t, listener) == t
  {
    assert (t.assignments - {listener})[listener := endpoint] == t.assignments[listener := endpoint];
  }

  /** Assigning fails exactly for a new listener when every source is full, and then changes
      nothing; otherwise it moves this listener alone. */
  lemma AssignMoves(t: State, listener: string)
    requires Valid(t)
    ensures var (t', r) := Assign(t, listener);
      && (r.None? <==> listener !in t.assignments && Full(t))
      && (r.None? ==> t' == t)
      && (r.Some? ==> t'.assignments == t.assignments[listener := r.value])
  {
    AssignFails(t, listener);
    var freed := Release(t, listener);
    var choice := Choose(freed.sources);
    ReleaseForgets(t, listener, if choice.Some? then freed.sources[choice.value].endpoint else "");
  }

  /** The listener goes to the host when it has room once the old slot is free, and otherwise to
      the last of the sources with the most room. */
  lemma AssignPrefers(t: State, listener: string)
    ensures var freed := Release(t, listener).sources; var choice := Choose(freed);
      choice.Some? ==>
        && Assign(t, listener).1 == Some(freed[choice.value].endpoint)
        && freed[choice.value].held < freed[choice.value].capacity
        && (freed[choice.value].isHost || forall i :: 0 <= i < |freed| ==>
              && (freed[i].isHost ==> freed[i].held >= freed[i].capacity)
              && freed[i].capacity - freed[i].held <= freed[choice.value].capacity - freed[choice.value].held
              && (i > choice.value ==>
                    freed[i].capacity - freed[i].held < freed[choice.value].capacity - freed[choice.value].held))
  {
  }

  /** Assigning keeps the sources' endpoints and capacities. */
  lemma AssignKeepsSources(t: State, listener: string)
    ensures var t' := Assign(t, listener).0;
      && |t'.sources| == |t.sources|
      && forall i :: 0 <= i < |t.sources| ==>
           t'.sources[i].endpoint == t.sources[i].endpoint && t'.sources[i].capacity == t.sources[i].capacity
  {
  }

  // ---- How many listeners are served -----------------------------------------------------------

  function Capacity(sources: seq<Source>): nat {
    if sources == [] then 0 else Capacity(sources[..|sources| - 1]) + sources[|sources| - 1].capacity
  }

  function Taken(sources: seq<Source>): nat {
    if sources == [] then 0 else Taken(sources[..|sources| - 1]) + sources[|sources| - 1].held
  }

  lemma {:induction false} CapacityKept(a: seq<Source>, b: seq<Source>)
    requires |a| == |b| && forall i :: 0 <= i < |a| ==> a[i].capacity == b[i].capacity
    ensures Capacity(a) == Capacity(b)
  {
    if a != [] { CapacityKept(a[..|a| - 1], b[..|b| - 1]); }
  }

  /** Leaving out the last source and its listeners does not touch the listeners of the others. */
  lemma WithoutLast(sources: seq<Source>, assignments: map<string, string>, i: nat)
    requires i < |sources| - 1 && sources[i].endpoint != sources[|sources| - 1].endpoint
    ensures var here := Listeners(assignments, sources[|sources| - 1].endpoint);
      Listeners(assignments - here, sources[i].endpoint) == Listeners(assignments, sources[i].endpoint)
  {
  }

  lemma StillServed(sources: seq<Source>, endpoint: string)
    requires Serves(sources, endpoint) && endpoint != sources[|sources| - 1].endpoint
    ensures Serves(sources[..|sources| - 1], endpoint)
  {
    var init := sources[..|sources| - 1];
    var i :| 0 <= i < |sources| && sources[i].endpoint == endpoint;
    assert init[i].endpoint == endpoint;
  }

  lemma SplitCount(assignments: map<string, string>, here: set<string>)
    requires here <= assignments.Keys
    ensures |assignments - here| + |here| == |assignments|
  {
    assert (assignments - here).Keys == assignments.Keys - here;
    assert |assignments.Keys - here| + |here| == |assignments.Keys|;
  }

  /** Every listener is counted by exactly one source. */
  lemma {:induction false} CountersAddUp(sources: seq<Source>, assignments: map<string, string>)
    requires forall i, j :: 0 <= i < j < |sources| ==> sources[i].endpoint != sources[j].endpoint
    requires forall l :: l in assignments ==> Serves(sources, assignments[l])
    requires forall i :: 0 <= i < |sources| ==> sources[i].held == |Listeners(assignments, sources[i].endpoint)|
    ensures Taken(sources) == |assignments|
  {
    if sources == [] {
      assert forall l :: l in assignments ==> Serves(sources, assignments[l]);
      assert assignments == map[];
    } else {
      var init, last := sources[..|sources| - 1], sources[|sources| - 1];
      var here := Listeners(assignments, last.endpoint);
      var rest := assignments - here;
      forall l | l in rest
        ensures Serves(init, rest[l])
      {
        StillServed(sources, assignments[l]);
      }
      forall i | 0 <= i < |init|
        ensures init[i].held == |Listeners(rest, init[i].endpoint)|
      {
        WithoutLast(sources, assignments, i);
      }
      CountersAddUp(init, rest);
      SplitCount(assignments, here);
    }
  }

  lemma {:induction false} FullMeansTaken(sources: seq<Source>)
    requires forall i :: 0 <= i < |sources| ==> sources[i].held <= sources[i].capacity
    ensures Taken(sources) <= Capacity(sources)
    ensures Taken(sources) == Capacity(sources) <==> forall i :: 0 <= i < |sources| ==> !HasRoom(sources[i])
  {
    if sources != [] {
      var init := sources[..|sources| - 1];
      FullMeansTaken(init);
      if forall i :: 0 <= i < |sources| ==> !HasRoom(sources[i]) {
        assert forall i :: 0 <= i < |init| ==> init[i] == sources[i];
      }
      if Taken(sources) == Capacity(sources) {
        assert forall i :: 0 <= i < |init| ==> !HasRoom(sources[i]) by {
          assert forall i :: 0 <= i < |init| ==> init[i] == sources[i];
        }
      }
    }
  }

  function SetOf(s: seq<string>): set<string> {
    set x | x in s
  }

  function Min(a: nat, b: nat): nat {
    if a < b then a else b
  }

  /** The number of listeners served is within the total capacity, and equal to it exactly when
      every source is full. */
  lemma ServedWithinCapacity(t: State)
    requires Valid(t)
    ensures |t.assignments| <= Capacity(t.sources)
    ensures |t.assignments| == Capacity(t.sources) <==> Full(t)
  {
    CountersAddUp(t.sources, t.assignments);
    FullMeansTaken(t.sources);
  }

  /** From `t` to `t'`, asking for slots for some listeners: the capacity is the same, nobody
      loses a slot, only those asked for gain one, and as many are served as can be. */
  ghost predicate ServesMost(t: State, t': State, asked: set<string>) {
    && Valid(t') && Capacity(t'.sources) == Capacity(t.sources)
    && t.assignments.Keys <= t'.assignments.Keys <= t.assignments.Keys + asked
    && |t'.assignments.Keys| == Min(|t.assignments.Keys + asked|, Capacity(t.sources))
  }

  /** The effect of one assignment on the set of served listeners. */
  lemma AssignOne(t: State, l: string)
    requires Valid(t)
    ensures var t' := Assign(t, l).0;
      && Capacity(t'.sources) == Capacity(t.sources)
      && t'.assignments.Keys == t.assignments.Keys + if |t.assignments.Keys| < Capacity(t.sources) then {l} else {}
  {
    AssignMoves(t, l);
    AssignKeepsSources(t, l);
    CapacityKept(t.sources, Assign(t, l).0.sources);
    ServedWithinCapacity(t);
    assert |t.assignments.Keys| == |t.assignments|;
  }

  lemma ServesMostOne(t: State, mid: State, asked: set<string>, l: string)
    requires ServesMost(t, mid, asked)
    ensures ServesMost(t, Assign(mid, l).0, asked + {l})
  {
    AssignKeeps(mid, l);
    AssignOne(mid, l);
    OneMore(t.assignments.Keys, asked, mid.assignments.Keys, l, Assign(mid, l).0.assignments.Keys, Capacity(t.sources));
  }

  /** Assigning a list of listeners keeps everyone who had a slot, and ends with as many assigned
      as the total capacity allows. */
  lemma {:induction false} AssignAllIsMaximal(t: State, listeners: seq<string>)
    requires Valid(t)
    ensures ServesMost(t, AssignAll(t, listeners), SetOf(listeners))
  {
    if listeners == [] {
      ServesMostNone(t);
    } else {
      AssignAllIsMaximal(t, listeners[..|listeners| - 1]);
      var init := listeners[..|listeners| - 1];
      ServesMostOne(t, AssignAll(t, init), SetOf(init), listeners[|listeners| - 1]);
      SetOfSnoc(listeners);
    }
  }

  lemma ServesMostNone(t: State)
    requires Valid(t)
    ensures ServesMost(t, t, SetOf([]))
  {
    ServedWithinCapacity(t);
    assert |t.assignments.Keys| == |t.assignments|;
    assert t.assignments.Keys + SetOf([]) == t.assignments.Keys;
  }

  lemma SetOfSnoc(s: seq<string>)
    requires s != []
    ensures SetOf(s) == SetOf(s[..|s| - 1]) + {s[|s| - 1]}
  {
    assert s == s[..|s| - 1] + [s[|s| - 1]];
  }

  lemma OneMore(start: set<string>, asked: set<string>, served: set<string>, l: string, served': set<string>,
                capacity: nat)
    requires start <= served <= start + asked && |served| == Min(|start + asked|, capacity)
    requires served' == if |served| < capacity then served + {l} else served
    ensures start <= served' <= start + (asked + {l})
    ensures |served'| == Min(|start + (asked + {l})|, capacity)
  {
    assert start + (asked + {l}) == start + asked + {l};
    SubsetSize(served, start + asked);
    SubsetSize(start + asked, start + asked + {l});
    if |served| < capacity {
      assert served == start + asked;
    }
  }

  lemma SubsetSize(a: set<string>, b: set<string>)
    requires a <= b
    ensures |a| <= |b|
    ensures |a| == |b| ==> a == b
  {
    assert b == a + (b - a);
  }

  // ---- The volunteer loop ----------------------------------------------------------------------

  /** The listeners of the list that are assigned to the endpoint, in order. */
  function OnEndpoint(listeners: seq<string>, assignments: map<string, string>, endpoint: string): seq<string> {
    if listeners == [] then []
    else
      var rest := OnEndpoint(listeners[..|listeners| - 1], assignments, endpoint);
      var l := listeners[|listeners| - 1];
      if l in assignments && assignments[l] == endpoint then rest + [l] else rest
  }

  /** The total capacity once a relay has volunteered. */
  function CapacityWith(t: State, relay: string, capacity: nat): nat {
    Capacity(t.sources) + if Serves(t.sources, relay) then 0 else capacity
  }

  /** From `t` to `t'`: nobody has lost a slot, only those asked for have gained one, and as many
      are served as `total` slots allow. */
  ghost predicate ServesUpTo(t: State, t': State, asked: set<string>, total: nat) {
    && t.assignments.Keys <= t'.assignments.Keys <= t.assignments.Keys + asked
    && |t'.assignments.Keys| == Min(|t.assignments.Keys + asked|, total)
  }

  /** After a relay has volunteered, as many of the listeners wanted or already served have a slot
      as the old capacity and the relay's together allow, and nobody has lost one. */
  lemma VolunteerServes(t: State, relay: string, capacity: nat, listeners: seq<string>)
    requires Valid(t)
    ensures var t' := AssignAll(AddRelay(t, relay, capacity), listeners);
      && Valid(t') && Serves(t'.sources, relay)
      && ServesUpTo(t, t', SetOf(listeners), CapacityWith(t, relay, capacity))
  {
    var mid := AddRelay(t, relay, capacity);
    RelayJoins(t, relay, capacity);
    AddRelayKeeps(t, relay, capacity);
    AssignAllIsMaximal(mid, listeners);
    AssignAllServes(mid, listeners, relay);
    FromMiddle(t, mid, AssignAll(mid, listeners), SetOf(listeners), CapacityWith(t, relay, capacity));
  }

  lemma FromMiddle(t: State, mid: State, t': State, asked: set<string>, total: nat)
    requires ServesMost(mid, t', asked) && mid.assignments == t.assignments && Capacity(mid.sources) == total
    ensures ServesUpTo(t, t', asked, total)
  {
  }

  lemma {:induction false} AssignAllServes(t: State, listeners: seq<string>, endpoint: string)
    requires Serves(t.sources, endpoint)
    ensures Serves(AssignAll(t, listeners).sources, endpoint)
  {
    if listeners != [] {
      var mid, l := AssignAll(t, listeners[..|listeners| - 1]), listeners[|listeners| - 1];
      AssignAllServes(t, listeners[..|listeners| - 1], endpoint);
      AssignKeepsSources(mid, l);
      SameEndpoints(mid, Assign(mid, l).0);
    }
  }

  /** The served are those served at first and the first `n` of the list, cut short only when every
      slot is taken. */
  ghost predicate ServesFirst(start: set<string>, served: set<string>, listeners: seq<string>, capacity: nat, n: nat) {
    && n <= |listeners|
    && served == start + SetOf(listeners[..n])
    && (n < |listeners| ==> |served| == capacity)
  }

  /** Slots go to the listeners in the order of the list. */
  lemma {:induction false} FirstComeFirstServed(t: State, listeners: seq<string>) returns (n: nat)
    requires Valid(t)
    ensures ServesFirst(t.assignments.Keys, AssignAll(t, listeners).assignments.Keys, listeners, Capacity(t.sources), n)
  {
    if listeners == [] {
      n := 0;
      assert SetOf(listeners[..n]) == {};
    } else {
      var init, l := listeners[..|listeners| - 1], listeners[|listeners| - 1];
      n := FirstComeFirstServed(t, init);
      AssignAllIsMaximal(t, init);
      AssignOne(AssignAll(t, init), l);
      n := OneServed(t.assignments.Keys, AssignAll(t, init).assignments.Keys, listeners, Capacity(t.sources), n);
    }
  }

  lemma OneServed(start: set<string>, served: set<string>, listeners: seq<string>, capacity: nat, n: nat)
      returns (m: nat)
    requires listeners != [] && ServesFirst(start, served, listeners[..|listeners| - 1], capacity, n)
    requires |served| <= capacity
    ensures ServesFirst(start, served + if |served| < capacity then {listeners[|listeners| - 1]} else {},
                        listeners, capacity, m)
  {
    var init := listeners[..|listeners| - 1];
    m := n;
    assert init[..n] == listeners[..n];
    if |served| < capacity {
      m := n + 1;
      SetOfSnoc(listeners);
      assert listeners[..m] == listeners && init[..n] == init;
    }
  }

  /** The part of the list on an endpoint: its members, and their order. */
  lemma {:induction false} OnEndpointExactly(listeners: seq<string>, assignments: map<string, string>, endpoint: string)
    ensures forall l :: l in OnEndpoint(listeners, assignments, endpoint) <==>
      l in listeners && l in assignments && assignments[l] == endpoint
    ensures Distinct(listeners) ==> Distinct(OnEndpoint(listeners, assignments, endpoint))
  {
    if listeners != [] {
      var init, last := listeners[..|listeners| - 1], listeners[|listeners| - 1];
      assert listeners == init + [last];
      OnEndpointExactly(init, assignments, endpoint);
      if Distinct(listeners) {
        forall i | 0 <= i < |init|
          ensures init[i] != last
        {
          assert listeners[i] != listeners[|listeners| - 1];
        }
      }
    }
  }

  lemma OnEndpointAppend(listeners: seq<string>, l: string, assignments: map<string, string>, endpoint: string)
    ensures OnEndpoint(listeners + [l], assignments, endpoint) == OnEndpoint(listeners, assignments, endpoint)
      + if l in assignments && assignments[l] == endpoint then [l] else []
  {
    assert (listeners + [l])[..|listeners|] == listeners;
  }

  lemma {:induction false} OthersStay(listeners: seq<string>, before: map<string, string>, after: map<string, string>,
                                      endpoint: string, moved: string)
    requires moved !in listeners
    requires forall l :: l != moved ==> (l in before <==> l in after) && (l in before ==> before[l] == after[l])
    ensures OnEndpoint(listeners, before, endpoint) == OnEndpoint(listeners, after, endpoint)
  {
    if listeners != [] { OthersStay(listeners[..|listeners| - 1], before, after, endpoint, moved); }
  }
}
