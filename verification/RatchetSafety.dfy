/** Every event of a run keeps the ratchet invariant. */
module RatchetSafety {
  import opened Wrappers
  import opened SymbolicCrypto
  import opened Ratchet
  import opened DmSessions
  import opened RatchetRuns
  import opened RatchetInvariant
  import opened RatchetReceive

  /** The receiver's state after envelope `i` of the peer's log arrives. */
  function Arrived(p: Party, sent: seq<Sent>, i: nat, generated: nat): Party
    requires i < |sent|
  {
    var e := sent[i].envelope;
    var accepted := if Receive(p.session, true, e, generated).Ok? then p.accepted + {i} else p.accepted;
    ReceiveAt(p, e, generated).(accepted := accepted)
  }

  function ArrivedHistory(h: History, p: Party, sent: seq<Sent>, i: nat, generated: nat): History
    requires i < |sent|
  {
    if Receive(p.session, true, sent[i].envelope, generated).Ok? && sent[i].step == p.step + 1
    then Ratcheted(h, generated) else h
  }

  /** Accepting message `n` of the current chain keeps a receiver's invariant. */
  lemma TakenCurrent(h: History, p: Party, s: Session, sent: seq<Sent>, i: nat, n: nat)
    requires PartyInv(h, p.(session := s)) && LogInv(h, p.step % 2, sent) && Distinct(h.keys)
    requires |h.chains| == |h.keys| - 1 && p.step >= 2
    requires IsMessage(h, p.step - 2, n) && h.chains[p.step - 2][n] == i && s.recvCount <= n
    ensures PartyInv(h, p.(session := Taken(h, s, p.step - 2, n), accepted := p.accepted + {i}))
  {
    var t := p.step;
    StoredAfterPassing(h, t, s.recvCount, n, p.accepted, s.skipped);
    StoredAfterHead(h, t, n, p.accepted, s.skipped + Passing(h, t - 2, s.recvCount, n), i, sent);
  }

  lemma LogRatchets(h: History, parity: nat, sent: seq<Sent>, generated: nat)
    requires LogInv(h, parity, sent) && |h.chains| == |h.keys| - 1
    ensures LogInv(Ratcheted(h, generated), parity, sent)
  {
    var h' := Ratcheted(h, generated);
    forall c: nat, n: nat | c % 2 == parity && IsMessage(h', c, n)
      ensures h'.chains[c][n] < |sent| && Places(h', c, n, sent[h'.chains[c][n]])
    {
      assert IsMessage(h, c, n);
      ChainGrows(h, h', c, n);
      assert Places(h, c, n, sent[h.chains[c][n]]);
    }
  }

  lemma ClosedStored(h: History, p: Party)
    requires PartyInv(h, p) && Distinct(h.keys)
    requires |h.chains| == |h.keys| - 1 && p.step + 2 == |h.keys|
    ensures StoredInv(h, p.step, ChainLength(h, p.step - 2), p.accepted, Closed(h, p).skipped)
  {
    if p.step >= 2 {
      StoredAfterPassing(h, p.step, p.session.recvCount, ChainLength(h, p.step - 2), p.accepted, p.session.skipped);
    }
  }

  lemma TurnedParty(h: History, p: Party, generated: nat)
    requires PartyInv(h, p) && Distinct(h.keys)
    requires |h.chains| == |h.keys| - 1 && p.step + 2 == |h.keys|
    ensures PartyInv(Ratcheted(h, generated), p.(session := Turned(h, p, generated), step := p.step + 2))
  {
    TurnedSession(h, p, generated);
    ClosedStored(h, p);
    StoredAfterTurn(h, p.step, ChainLength(h, p.step - 2), p.accepted, Closed(h, p).skipped, generated);
  }

  lemma RatchetedAt(h: History, p: Party, sent: seq<Sent>, i: nat, generated: nat)
    requires Facing(h, p, sent) && i < |sent| && sent[i].step == p.step + 1 && generated !in h.keys
    ensures p.step + 2 == |h.keys|
    ensures var h' := Ratcheted(h, generated);
      Distinct(h'.keys) && IsMessage(h', p.step, Number(sent[i])) && h'.chains[p.step][Number(sent[i])] == i
  {
    Locate(h, p, sent, i);
  }

  lemma ArrivedNext(h: History, p: Party, sent: seq<Sent>, i: nat, generated: nat)
    requires Facing(h, p, sent) && i < |sent| && sent[i].step == p.step + 1
    requires generated !in h.keys
    ensures p.step + 2 == |h.keys|
    ensures var h' := Ratcheted(h, generated);
      PartyInv(h', p.(session := Taken(h', Turned(h, p, generated), p.step, Number(sent[i])),
                      step := p.step + 2, accepted := p.accepted + {i}))
  {
    RatchetedAt(h, p, sent, i, generated);
    TurnedParty(h, p, generated);
    LogRatchets(h, p.step % 2, sent, generated);
    TakenCurrent(Ratcheted(h, generated), p.(session := Turned(h, p, generated), step := p.step + 2),
                 Turned(h, p, generated), sent, i, Number(sent[i]));
  }

  ghost predicate ArrivedWell(h: History, p: Party, sent: seq<Sent>, i: nat, generated: nat)
    requires i < |sent|
  {
    && PartyInv(ArrivedHistory(h, p, sent, i, generated), Arrived(p, sent, i, generated))
    && Arrived(p, sent, i, generated).step
       == if ArrivedHistory(h, p, sent, i, generated) == h then p.step else p.step + 2
  }

  lemma StoredArrives(h: History, p: Party, sent: seq<Sent>, i: nat, generated: nat)
    requires Facing(h, p, sent) && i < |sent| && sent[i].step >= 1
    requires Pending(h, p.step, p.session.recvCount, p.accepted, sent[i].step - 1, Number(sent[i]))
    ensures ArrivedWell(h, p, sent, i, generated)
  {
    DecryptStored(h, p, sent, i, generated);
    StoredAfterUse(h, p, sent, i, FindSkipped(p.session.skipped, sent[i].envelope.header).value);
  }

  lemma CurrentArrives(h: History, p: Party, sent: seq<Sent>, i: nat, generated: nat)
    requires Facing(h, p, sent) && i < |sent| && sent[i].step == p.step - 1
    requires !Pending(h, p.step, p.session.recvCount, p.accepted, p.step - 2, Number(sent[i]))
    ensures ArrivedWell(h, p, sent, i, generated)
  {
    Locate(h, p, sent, i);
    DecryptCurrent(h, p, sent, i, generated);
    if Number(sent[i]) >= p.session.recvCount { TakenCurrent(h, p, p.session, sent, i, Number(sent[i])); }
  }

  lemma NextArrived(h: History, p: Party, sent: seq<Sent>, i: nat, generated: nat)
    requires Facing(h, p, sent) && i < |sent| && sent[i].step == p.step + 1
    ensures p.step + 2 == |h.keys|
    ensures var h' := Ratcheted(h, generated);
      if TooFar(p.session, ChainLength(h, p.step - 2)) || Number(sent[i]) > MAX_SKIP
      then Arrived(p, sent, i, generated) == p && ArrivedHistory(h, p, sent, i, generated) == h
      else ArrivedHistory(h, p, sent, i, generated) == h'
           && Arrived(p, sent, i, generated)
              == p.(session := Taken(h', Turned(h, p, generated), p.step, Number(sent[i])),
                    step := p.step + 2, accepted := p.accepted + {i})
  {
    DecryptNext(h, p, sent, i, generated);
    if p.step >= 1 { assert h.keys[p.step - 1] != h.keys[p.step + 1]; }
  }

  lemma NextArrives(h: History, p: Party, sent: seq<Sent>, i: nat, generated: nat)
    requires Facing(h, p, sent) && i < |sent| && sent[i].step == p.step + 1
    requires generated !in h.keys
    ensures ArrivedWell(h, p, sent, i, generated)
  {
    NextArrived(h, p, sent, i, generated);
    if !TooFar(p.session, ChainLength(h, p.step - 2)) && Number(sent[i]) <= MAX_SKIP {
      ArrivedNext(h, p, sent, i, generated);
    }
  }

  lemma ArrivedInv(h: History, p: Party, sent: seq<Sent>, i: nat, generated: nat)
    requires Facing(h, p, sent) && i < |sent| && generated !in h.keys
    ensures ArrivedWell(h, p, sent, i, generated)
  {
    Locate(h, p, sent, i);
    if Pending(h, p.step, p.session.recvCount, p.accepted, sent[i].step - 1, Number(sent[i])) {
      StoredArrives(h, p, sent, i, generated);
    } else if sent[i].step == p.step - 1 {
      CurrentArrives(h, p, sent, i, generated);
    } else if sent[i].step == p.step + 1 {
      NextArrives(h, p, sent, i, generated);
    } else {
      DecryptOld(h, p, sent, i, generated);
    }
  }

  /** An envelope whose ciphertext was not sealed by anyone is always rejected. */
  lemma JunkRejected(s: Session, hd: Header, bytes: seq<bv8>, generated: nat)
    ensures Receive(s, true, Envelope(hd, Junk(bytes)), generated).Err?
  {
  }

  // ---- Sending --------------------------------------------------------------

  function SentHistory(h: History, p: Party): History {
    if p.session.chainSend.Some? && 1 <= p.step <= |h.chains|
    then h.(chains := h.chains[p.step - 1 := h.chains[p.step - 1] + [|p.sent|]]) else h
  }

  lemma SentParty(h: History, p: Party, payload: Payload)
    requires PartyInv(h, p)
    requires |h.chains| == |h.keys| - 1 && |h.keys| <= p.step + 2
    ensures PartyInv(SentHistory(h, p), SendFrom(p, payload))
  {
    if p.session.chainSend.Some? {
      var t, n, h' := p.step, p.session.sendCount, SentHistory(h, p);
      ChainGrows(h, h', t - 1, n + 1);
      RootGrows(h, h', t);
      if t >= 2 { ChainGrows(h, h', t - 2, p.session.recvCount); }
      assert SessionInv(h', t, SendFrom(p, payload).session);
      StoredGrows(h, h', t, p.session.recvCount, p.accepted, p.session.skipped);
    }
  }

  lemma SentLog(h: History, p: Party, payload: Payload, parity: nat)
    requires SessionInv(h, p.step, p.session) && LogInv(h, parity, p.sent) && parity == (p.step + 1) % 2
    requires |h.chains| == |h.keys| - 1 && |h.keys| <= p.step + 2
    ensures LogInv(SentHistory(h, p), parity, SendFrom(p, payload).sent)
  {
    if p.session.chainSend.Some? {
      var t, n, h', sent := p.step, p.session.sendCount, SentHistory(h, p), SendFrom(p, payload).sent;
      ChainGrows(h, h', t - 1, n);
      assert Places(h', t - 1, n, sent[|p.sent|]);
      LogSends(h, h', t, p.sent, sent, parity);
    }
  }

  lemma LogSends(h: History, h': History, t: nat, sent: seq<Sent>, sent': seq<Sent>, parity: nat)
    requires LogInv(h, parity, sent) && 1 <= t && parity == (t + 1) % 2
    requires |h.chains| == |h.keys| - 1 && t < |h.keys| <= t + 2
    requires h' == h.(chains := h.chains[t - 1 := h.chains[t - 1] + [|sent|]])
    requires |sent'| == |sent| + 1 && sent == sent'[..|sent|]
    requires Places(h', t - 1, |h.chains[t - 1]|, sent'[|sent|])
    ensures LogInv(h', parity, sent')
  {
    forall c: nat, n: nat | c % 2 == parity && IsMessage(h', c, n)
      ensures h'.chains[c][n] < |sent'| && Places(h', c, n, sent'[h'.chains[c][n]])
    {
      if IsMessage(h, c, n) {
        assert Places(h, c, n, sent[h.chains[c][n]]);
        ChainGrows(h, h', c, n);
      }
    }
    forall i | 0 <= i < |sent'|
      ensures var c, n := sent'[i].step - 1, sent'[i].envelope.header.number;
        c >= 0 && c % 2 == parity && IsMessage(h', c, n) && h'.chains[c][n] == i
    {
      if i < |sent| {
        assert sent'[i] == sent[i];
        assert IsMessage(h, sent[i].step - 1, sent[i].envelope.header.number);
      }
    }
  }

  /** The other party is not disturbed by a send. */
  lemma PeerOfSender(h: History, p: Party, peer: Party)
    requires PartyInv(h, peer)
    requires |h.chains| == |h.keys| - 1 && |h.keys| <= peer.step + 2
    requires p.step == peer.step + 1 || peer.step == p.step + 1
    requires |p.sent| !in peer.accepted
    ensures PartyInv(SentHistory(h, p), peer)
  {
    var h' := SentHistory(h, p);
    SessionGrows(h, h', peer.step, peer.session);
    StoredGrows(h, h', peer.step, peer.session.recvCount, peer.accepted, peer.session.skipped);
  }

  lemma PeerLogOfSender(h: History, p: Party, parity: nat, sent: seq<Sent>)
    requires LogInv(h, parity, sent) && parity == p.step % 2
    requires |h.chains| == |h.keys| - 1 && |h.keys| <= p.step + 2
    ensures LogInv(SentHistory(h, p), parity, sent)
  {
    var h' := SentHistory(h, p);
    forall c: nat, n: nat | c % 2 == parity && IsMessage(h', c, n)
      ensures h'.chains[c][n] < |sent| && Places(h', c, n, sent[h'.chains[c][n]])
    {
      assert IsMessage(h, c, n);
      assert Places(h, c, n, sent[h.chains[c][n]]);
      ChainGrows(h, h', c, n);
    }
  }

  lemma PeerOfReceiver(h: History, peer: Party, generated: nat)
    requires PartyInv(h, peer)
    requires |h.chains| == |h.keys| - 1 && |h.keys| == peer.step + 1
    ensures PartyInv(Ratcheted(h, generated), peer)
  {
    var h' := Ratcheted(h, generated);
    SessionGrows(h, h', peer.step, peer.session);
    StoredGrows(h, h', peer.step, peer.session.recvCount, peer.accepted, peer.session.skipped);
  }

  // ---- Whole runs -----------------------------------------------------------

  function NextHistory(net: Net, ev: Event, h: History): History {
    match ev
    case Send(from, _) => SentHistory(h, net.Get(from))
    case Deliver(to, i) =>
      var sent := net.Get(Other(to)).sent;
      if i < |sent| then ArrivedHistory(h, net.Get(to), sent, i, net.nextKey) else h
    case Corrupt(_, _, _) => h
  }

  lemma SentKeepsHistory(h: History, me: Party, payload: Payload, top: nat, nextKey: nat)
    requires HistoryInv(h, top, nextKey)
    ensures HistoryInv(SentHistory(h, me), top, nextKey)
    ensures SendFrom(me, payload).step == me.step && SendFrom(me, payload).accepted == me.accepted
    ensures me.sent <= SendFrom(me, payload).sent
  {
  }

  lemma PairSend(h: History, me: Party, peer: Party, nextKey: nat, payload: Payload)
    requires PairInv(h, me, peer, nextKey)
    ensures PairInv(SentHistory(h, me), SendFrom(me, payload), peer, nextKey)
  {
    SentKeepsHistory(h, me, payload, Max(me.step, peer.step), nextKey);
    SentParty(h, me, payload);
    SentLog(h, me, payload, peer.step % 2);
    PeerOfSender(h, me, peer);
    PeerLogOfSender(h, me, me.step % 2, peer.sent);
    PairJoin(SentHistory(h, me), SendFrom(me, payload), peer, nextKey, me.step % 2);
  }

  lemma PairReceive(h: History, me: Party, peer: Party, nextKey: nat, i: nat)
    requires PairInv(h, me, peer, nextKey) && i < |peer.sent|
    ensures PairInv(ArrivedHistory(h, me, peer.sent, i, nextKey), Arrived(me, peer.sent, i, nextKey), peer, nextKey + 1)
  {
    assert Facing(h, me, peer.sent);
    Locate(h, me, peer.sent, i);
    ArrivedInv(h, me, peer.sent, i, nextKey);
    PairArrives(h, me, Arrived(me, peer.sent, i, nextKey), peer, nextKey, i,
                ArrivedHistory(h, me, peer.sent, i, nextKey));
  }

  lemma PairArrives(h: History, me: Party, me': Party, peer: Party, nextKey: nat, i: nat, h': History)
    requires PairInv(h, me, peer, nextKey) && PartyInv(h', me')
    requires h' == h || (h' == Ratcheted(h, nextKey) && peer.step == me.step + 1)
    requires me'.step == (if h' == h then me.step else me.step + 2)
    requires me'.sent == me.sent && me'.accepted <= me.accepted + {i} && i < |peer.sent|
    ensures PairInv(h', me', peer, nextKey + 1)
  {
    if h' != h {
      PairTurns(h, me, me', peer, nextKey);
    } else {
      HistoryLater(h, Max(me.step, peer.step), nextKey);
    }
    PairJoin(h', me', peer, nextKey + 1, me.step % 2);
  }

  lemma HistoryLater(h: History, top: nat, nextKey: nat)
    requires HistoryInv(h, top, nextKey)
    ensures HistoryInv(h, top, nextKey + 1)
  {
  }

  lemma PairTurns(h: History, me: Party, me': Party, peer: Party, nextKey: nat)
    requires PairInv(h, me, peer, nextKey) && peer.step == me.step + 1
    requires me'.step == me.step + 2 && me'.sent == me.sent
    ensures var h' := Ratcheted(h, nextKey);
      && HistoryInv(h', Max(me'.step, peer.step), nextKey + 1) && PartyInv(h', peer)
      && LogInv(h', peer.step % 2, me'.sent) && LogInv(h', me.step % 2, peer.sent)
  {
    PeerOfReceiver(h, peer, nextKey);
    LogRatchets(h, me.step % 2, peer.sent, nextKey);
    LogRatchets(h, peer.step % 2, me.sent, nextKey);
  }

  lemma PairJoin(h: History, a: Party, b: Party, nextKey: nat, parity: nat)
    requires HistoryInv(h, Max(a.step, b.step), nextKey)
    requires a.step == b.step + 1 || b.step == a.step + 1
    requires PartyInv(h, a) && PartyInv(h, b)
    requires parity == a.step % 2 && LogInv(h, b.step % 2, a.sent) && LogInv(h, parity, b.sent)
    requires forall i :: i in a.accepted ==> i < |b.sent|
    requires forall i :: i in b.accepted ==> i < |a.sent|
    ensures PairInv(h, a, b, nextKey)
  {
  }

  lemma PairSwap(h: History, a: Party, b: Party, nextKey: nat)
    requires PairInv(h, a, b, nextKey)
    ensures PairInv(h, b, a, nextKey)
  {
  }

  lemma SendKeeps(net: Net, from: Role, payload: Payload, h: History)
    requires Inv(net, h)
    ensures Inv(Step(net, Send(from, payload)), SentHistory(h, net.Get(from)))
  {
    if from == Alice {
      PairSend(h, net.alice, net.bob, net.nextKey, payload);
    } else {
      PairSwap(h, net.alice, net.bob, net.nextKey);
      PairSend(h, net.bob, net.alice, net.nextKey, payload);
      PairSwap(SentHistory(h, net.bob), SendFrom(net.bob, payload), net.alice, net.nextKey);
    }
  }

  lemma DeliverKeepsAlice(net: Net, i: nat, h: History)
    requires Inv(net, h) && i < |net.bob.sent|
    ensures var h' := ArrivedHistory(h, net.alice, net.bob.sent, i, net.nextKey);
      Inv(Net(Arrived(net.alice, net.bob.sent, i, net.nextKey), net.bob, net.nextKey + 1), h')
  {
    PairReceive(h, net.alice, net.bob, net.nextKey, i);
  }

  lemma DeliverKeepsBob(net: Net, i: nat, h: History)
    requires Inv(net, h) && i < |net.alice.sent|
    ensures var h' := ArrivedHistory(h, net.bob, net.alice.sent, i, net.nextKey);
      Inv(Net(net.alice, Arrived(net.bob, net.alice.sent, i, net.nextKey), net.nextKey + 1), h')
  {
    PairSwap(h, net.alice, net.bob, net.nextKey);
    PairReceive(h, net.bob, net.alice, net.nextKey, i);
    PairSwap(ArrivedHistory(h, net.bob, net.alice.sent, i, net.nextKey),
             Arrived(net.bob, net.alice.sent, i, net.nextKey), net.alice, net.nextKey + 1);
  }

  lemma DeliverStep(net: Net, to: Role, i: nat)
    requires i < |net.Get(Other(to)).sent|
    ensures Step(net, Deliver(to, i)) ==
      net.Put(to, Arrived(net.Get(to), net.Get(Other(to)).sent, i, net.nextKey)).(nextKey := net.nextKey + 1)
  {
  }

  lemma StepKeeps(net: Net, ev: Event, h: History)
    requires Inv(net, h)
    ensures Inv(Step(net, ev), NextHistory(net, ev, h))
  {
    match ev
    case Send(from, payload) => SendKeeps(net, from, payload, h);
    case Deliver(to, i) =>
      if i < |net.Get(Other(to)).sent| {
        DeliverStep(net, to, i);
        if to == Alice { DeliverKeepsAlice(net, i, h); } else { DeliverKeepsBob(net, i, h); }
      }
    case Corrupt(to, hd, bytes) =>
      JunkRejected(net.Get(to).session, hd, bytes, net.nextKey);
      assert Step(net, ev) == net.(nextKey := net.nextKey + 1);
  }

  function HistoryOf(k: Setup, events: seq<Event>): History {
    if events == [] then History(k.shared, [k.bobPrivate, k.alicePrivate], [[]])
    else
      var before := events[..|events| - 1];
      NextHistory(Run(k, before), events[|events| - 1], HistoryOf(k, before))
  }

  lemma {:induction false} RunsKeepInv(k: Setup, events: seq<Event>)
    requires k.bobPrivate != k.alicePrivate
    ensures Inv(Run(k, events), HistoryOf(k, events))
  {
    if events == [] {
      var h := HistoryOf(k, events);
      assert Root(h, 1) == RootOf(Root(h, 0), Shared({h.keys[0], h.keys[1]}));
      assert {k.alicePrivate, k.bobPrivate} == {h.keys[0], h.keys[1]};
      assert Start(k).alice.session.rootKey == Root(h, 1);
    } else {
      var before := events[..|events| - 1];
      RunsKeepInv(k, before);
      StepKeeps(Run(k, before), events[|events| - 1], HistoryOf(k, before));
    }
  }
}
