/** What the ratchet promises over every run: exact first delivery, at-most-once delivery,
    deliverability that is never lost, exact stored keys, and message keys used once. */
module RatchetTheorems {
  import opened Wrappers
  import opened SymbolicCrypto
  import opened Ratchet
  import opened DmSessions
  import opened RatchetRuns
  import opened RatchetInvariant
  import opened RatchetReceive
  import opened RatchetSafety

  /** The receiver has a key for the message: stored, on its chain, or on the next one. */
  predicate Opens(me: Party, e: Sent) {
    var hd := e.envelope.header;
    || FindSkipped(me.session.skipped, hd).Some?
    || (me.session.remotePublic == Some(hd.dhPublic) && hd.number <= me.session.recvCount + 100)
    || (me.session.remotePublic != Some(hd.dhPublic)
        && hd.previousLength <= me.session.recvCount + 100 && hd.number <= 100)
  }

  lemma FacingIn(k: Setup, events: seq<Event>, to: Role)
    requires k.bobPrivate != k.alicePrivate
    ensures var net := Run(k, events); Facing(HistoryOf(k, events), net.Get(to), net.Get(Other(to)).sent)
  {
    RunsKeepInv(k, events);
    FacingAt(Run(k, events), HistoryOf(k, events), to);
  }

  lemma FacingAt(net: Net, h: History, to: Role)
    requires Inv(net, h)
    ensures Facing(h, net.Get(to), net.Get(Other(to)).sent)
  {
  }

  /** The first delivery of an honest envelope returns its payload exactly when the receiver
      has a key within reach, and otherwise reports too many skipped messages. */
  lemma FirstDelivery(k: Setup, events: seq<Event>, to: Role, i: nat, generated: nat)
    requires k.bobPrivate != k.alicePrivate
    requires i < |Run(k, events).Get(Other(to)).sent| && i !in Run(k, events).Get(to).accepted
    ensures var me, e := Run(k, events).Get(to), Run(k, events).Get(Other(to)).sent[i];
      && Decrypt(me.session, e.envelope.header, e.envelope.ciphertext, generated).1
         == (if Opens(me, e) then Ok(Json(e.payload)) else Err(TooManySkipped))
      && (match Receive(me.session, true, e.envelope, generated)
          case Ok((_, payload)) => Opens(me, e) && payload == e.payload
          case Err(error) => !Opens(me, e) && error == Crypto(TooManySkipped))
      && e.step <= me.step + 1
      && (me.session.remotePublic == Some(e.envelope.header.dhPublic) <==> e.step + 1 == me.step)
      && (e.step + 1 < me.step ==> FindSkipped(me.session.skipped, e.envelope.header).Some?)
  {
    FacingIn(k, events, to);
    DeliveredOnce(HistoryOf(k, events), Run(k, events).Get(to), Run(k, events).Get(Other(to)).sent, i, generated);
  }

  lemma DeliveredOnce(h: History, me: Party, sent: seq<Sent>, i: nat, generated: nat)
    requires Facing(h, me, sent) && i < |sent| && i !in me.accepted
    ensures Decrypt(me.session, sent[i].envelope.header, sent[i].envelope.ciphertext, generated).1
         == (if Opens(me, sent[i]) then Ok(Json(sent[i].payload)) else Err(TooManySkipped))
    ensures 1 <= sent[i].step <= me.step + 1
    ensures me.session.remotePublic == Some(sent[i].envelope.header.dhPublic) <==> sent[i].step + 1 == me.step
    ensures sent[i].step + 1 < me.step ==> FindSkipped(me.session.skipped, sent[i].envelope.header).Some?
  {
    Locate(h, me, sent, i);
    var c, n, t, recv := sent[i].step - 1, Number(sent[i]), me.step, me.session.recvCount;
    FindPending(h, me, c, n, sent[i].envelope.header.previousLength);
    if t >= 1 && c + 2 != t { assert h.keys[c + 1] != h.keys[t - 1]; }
    if Pending(h, t, recv, me.accepted, c, n) {
      DecryptStored(h, me, sent, i, generated);
    } else if c + 2 == t {
      DecryptCurrent(h, me, sent, i, generated);
    } else {
      assert c == t;
      DecryptNext(h, me, sent, i, generated);
    }
  }

  // ---- At most once ----------------------------------------------------------

  /** An accepted envelope never opens again, and the stored session is left as it was. */
  lemma Redelivery(k: Setup, events: seq<Event>, to: Role, i: nat, generated: nat)
    requires k.bobPrivate != k.alicePrivate
    requires i in Run(k, events).Get(to).accepted
    ensures var net := Run(k, events); var me, peer := net.Get(to), net.Get(Other(to));
      && i < |peer.sent|
      && Receive(me.session, true, peer.sent[i].envelope, generated).Err?
      && Step(net, Deliver(to, i)) == net.(nextKey := net.nextKey + 1)
  {
    FacingIn(k, events, to);
    var net := Run(k, events);
    ReplayFails(HistoryOf(k, events), net.Get(to), net.Get(Other(to)).sent, i, generated);
    ReplayFails(HistoryOf(k, events), net.Get(to), net.Get(Other(to)).sent, i, net.nextKey);
  }

  lemma ReplayFails(h: History, me: Party, sent: seq<Sent>, i: nat, generated: nat)
    requires Facing(h, me, sent) && i < |sent| && i in me.accepted
    ensures Receive(me.session, true, sent[i].envelope, generated).Err?
  {
    Locate(h, me, sent, i);
    var c, n := sent[i].step - 1, Number(sent[i]);
    assert Passed(h, me.step, me.session.recvCount, c, n);
    if c + 2 == me.step {
      DecryptCurrent(h, me, sent, i, generated);
    } else {
      DecryptOld(h, me, sent, i, generated);
    }
  }

  // ---- Deliverability is never lost --------------------------------------------

  /** Where an openable message is, without looking at keys. */
  predicate Reachable(h: History, t: nat, recv: nat, accepted: set<nat>, c: nat, n: nat) {
    || Pending(h, t, recv, accepted, c, n)
    || (c + 2 == t && n <= recv + MAX_SKIP)
    || (c == t && ChainLength(h, c - 2) <= recv + MAX_SKIP && n <= MAX_SKIP)
  }

  /** The message's place in the history decides whether the receiver can open it. */
  ghost predicate PlaceDecides(h: History, me: Party, sent: seq<Sent>, i: nat)
    requires i < |sent|
  {
    && 1 <= sent[i].step <= me.step + 1
    && var c, n := sent[i].step - 1, Number(sent[i]);
      && IsMessage(h, c, n) && h.chains[c][n] == i && c % 2 == me.step % 2
      && sent[i].envelope.header.previousLength == ChainLength(h, c - 2)
      && (Opens(me, sent[i]) <==> Reachable(h, me.step, me.session.recvCount, me.accepted, c, n))
  }

  lemma OpensExactly(h: History, me: Party, sent: seq<Sent>, i: nat)
    requires Facing(h, me, sent) && i < |sent| && i !in me.accepted
    ensures PlaceDecides(h, me, sent, i)
  {
    Locate(h, me, sent, i);
    var c, n, t := sent[i].step - 1, Number(sent[i]), me.step;
    FindPending(h, me, c, n, sent[i].envelope.header.previousLength);
    if t >= 1 && c + 2 != t { assert h.keys[c + 1] != h.keys[t - 1]; }
  }

  lemma ReachableKept(h: History, t: nat, recv: nat, accepted: set<nat>,
                      h': History, t': nat, recv': nat, accepted': set<nat>, c: nat, n: nat)
    requires Grows(h, h') && IsMessage(h, c, n) && c % 2 == t % 2 && h.chains[c][n] !in accepted'
    requires t' == t + 2 || (t' == t && recv <= recv')
    requires ChainLength(h, c - 2) == ChainLength(h', c - 2)
    requires Reachable(h, t, recv, accepted, c, n)
    ensures Reachable(h', t', recv', accepted', c, n)
  {
    assert h'.chains[c][n] == h.chains[c][n];
  }

  /** A receiver that only moves forward keeps every message it could open, until it accepts it. */
  lemma OpensKept(h: History, me: Party, sent: seq<Sent>, h': History, me': Party, sent': seq<Sent>, i: nat)
    requires i < |sent| && sent <= sent' && i !in me.accepted && i !in me'.accepted
    requires PlaceDecides(h, me, sent, i) && PlaceDecides(h', me', sent', i) && Grows(h, h')
    requires me'.step == me.step + 2 || (me'.step == me.step && me.session.recvCount <= me'.session.recvCount)
    requires Opens(me, sent[i])
    ensures Opens(me', sent[i])
  {
    assert sent'[i] == sent[i];
    ReachableKept(h, me.step, me.session.recvCount, me.accepted, h', me'.step, me'.session.recvCount, me'.accepted,
                  sent[i].step - 1, Number(sent[i]));
  }

  ghost predicate Forward(h: History, me: Party, sent: seq<Sent>, h': History, me': Party, sent': seq<Sent>) {
    && Grows(h, h') && sent <= sent' && me.accepted <= me'.accepted
    && (me'.step == me.step + 2 || (me'.step == me.step && me.session.recvCount <= me'.session.recvCount))
  }

  lemma ArrivedForward(h: History, me: Party, sent: seq<Sent>, i: nat, generated: nat)
    requires Facing(h, me, sent) && i < |sent|
    ensures Forward(h, me, sent, ArrivedHistory(h, me, sent, i, generated), Arrived(me, sent, i, generated), sent)
  {
    Locate(h, me, sent, i);
    var c, n, t := sent[i].step - 1, Number(sent[i]), me.step;
    if Pending(h, t, me.session.recvCount, me.accepted, c, n) {
      DecryptStored(h, me, sent, i, generated);
    } else if c + 2 == t {
      DecryptCurrent(h, me, sent, i, generated);
    } else if c == t {
      DecryptNext(h, me, sent, i, generated);
      if t >= 1 { assert h.keys[t - 1] != h.keys[t + 1]; }
    } else {
      DecryptOld(h, me, sent, i, generated);
    }
  }

  lemma SendForward(h: History, p: Party, payload: Payload)
    ensures Grows(h, SentHistory(h, p))
    ensures p.sent <= SendFrom(p, payload).sent && SendFrom(p, payload).accepted == p.accepted
    ensures SendFrom(p, payload).step == p.step && SendFrom(p, payload).session.recvCount == p.session.recvCount
  {
  }

  ghost predicate NetForward(h: History, net: Net, h': History, net': Net, to: Role) {
    Forward(h, net.Get(to), net.Get(Other(to)).sent, h', net'.Get(to), net'.Get(Other(to)).sent)
  }

  lemma DeliverForward(net: Net, h: History, r: Role, i: nat, to: Role)
    requires Facing(h, net.Get(r), net.Get(Other(r)).sent) && i < |net.Get(Other(r)).sent|
    ensures NetForward(h, net, ArrivedHistory(h, net.Get(r), net.Get(Other(r)).sent, i, net.nextKey),
                       Step(net, Deliver(r, i)), to)
  {
    var me, sent := net.Get(r), net.Get(Other(r)).sent;
    DeliverStep(net, r, i);
    ArrivedForward(h, me, sent, i, net.nextKey);
  }

  lemma StepForward(net: Net, h: History, ev: Event, to: Role)
    requires Inv(net, h)
    ensures NetForward(h, net, NextHistory(net, ev, h), Step(net, ev), to)
  {
    match ev
    case Send(from, payload) => SendForward(h, net.Get(from), payload);
    case Deliver(r, i) =>
      FacingAt(net, h, r);
      if i < |net.Get(Other(r)).sent| { DeliverForward(net, h, r, i, to); }
    case Corrupt(r, hd, bytes) => JunkRejected(net.Get(r).session, hd, bytes, net.nextKey);
  }

  /** Message `i` was openable and not accepted; it stays so until accepted. */
  predicate StillDue(me: Party, sent: seq<Sent>, me': Party, sent': seq<Sent>, i: nat)
    requires i < |sent|
  {
    && sent <= sent' && me.accepted <= me'.accepted
    && (Opens(me, sent[i]) && i !in me.accepted ==> i in me'.accepted || Opens(me', sent'[i]))
  }

  lemma StepStillDue(net: Net, h: History, ev: Event, to: Role, i: nat)
    requires Inv(net, h) && i < |net.Get(Other(to)).sent|
    ensures StillDue(net.Get(to), net.Get(Other(to)).sent, Step(net, ev).Get(to), Step(net, ev).Get(Other(to)).sent, i)
  {
    StepKeeps(net, ev, h);
    StepForward(net, h, ev, to);
    var h', net' := NextHistory(net, ev, h), Step(net, ev);
    FacingAt(net, h, to);
    FacingAt(net', h', to);
    var me, sent, me', sent' := net.Get(to), net.Get(Other(to)).sent, net'.Get(to), net'.Get(Other(to)).sent;
    if i !in me'.accepted && Opens(me, sent[i]) {
      OpensExactly(h, me, sent, i);
      OpensExactly(h', me', sent', i);
      OpensKept(h, me, sent, h', me', sent', i);
    }
  }

  /** Whatever happens later, a message that could be opened can still be opened until it is
      accepted, and an accepted message stays accepted. */
  lemma {:induction false} DeliverableStays(k: Setup, events: seq<Event>, more: seq<Event>, to: Role, i: nat)
    requires k.bobPrivate != k.alicePrivate
    requires i < |Run(k, events).Get(Other(to)).sent|
    ensures StillDue(Run(k, events).Get(to), Run(k, events).Get(Other(to)).sent,
                     Run(k, events + more).Get(to), Run(k, events + more).Get(Other(to)).sent, i)
    decreases |more|
  {
    if more == [] {
      assert events + more == events;
    } else {
      var init, ev := more[..|more| - 1], more[|more| - 1];
      DeliverableStays(k, events, init, to, i);
      RunsKeepInv(k, events + init);
      RunSnoc(k, events, more);
      DueOneMore(Run(k, events), Run(k, events + init), HistoryOf(k, events + init), ev, to, i);
    }
  }

  lemma RunSnoc(k: Setup, events: seq<Event>, more: seq<Event>)
    requires more != []
    ensures Run(k, events + more) == Step(Run(k, events + more[..|more| - 1]), more[|more| - 1])
  {
    assert (events + more)[..|events + more| - 1] == events + more[..|more| - 1];
  }

  lemma DueOneMore(start: Net, net: Net, h: History, ev: Event, to: Role, i: nat)
    requires Inv(net, h) && i < |start.Get(Other(to)).sent|
    requires StillDue(start.Get(to), start.Get(Other(to)).sent, net.Get(to), net.Get(Other(to)).sent, i)
    ensures StillDue(start.Get(to), start.Get(Other(to)).sent,
                     Step(net, ev).Get(to), Step(net, ev).Get(Other(to)).sent, i)
  {
    StepStillDue(net, h, ev, to, i);
  }

  // ---- Ping-pong ---------------------------------------------------------------

  /** Party `b`, one step behind party `a`, derives from its own root key and `a`'s public key
      the root key of `a` and a chain that reaches the sending chain of `a`; and `a` receives on
      the chain `b` sends on. */
  predicate InStep(b: Session, a: Session) {
    var (root, chain) := KdfRk(b.rootKey, Dh(b.selfPrivate, a.selfPublic));
    && root == a.rootKey
    && a.chainSend == Some(Advance(chain, a.sendCount))
    && a.remotePublic == Some(b.selfPublic)
    && (a.chainRecv.Some? <==> b.chainSend.Some?)
    && (a.chainRecv.Some? ==>
          && a.recvCount <= b.sendCount
          && b.chainSend.value == Advance(a.chainRecv.value, b.sendCount - a.recvCount))
  }

  lemma InStepAt(h: History, t: nat, b: Session, a: Session)
    requires SessionInv(h, t, b) && SessionInv(h, t + 1, a)
    ensures InStep(b, a)
  {
    assert {h.keys[t], h.keys[t + 1]} == {b.selfPrivate, h.keys[t + 1]};
    assert Root(h, t + 1) == RootOf(Root(h, t), Shared({h.keys[t], h.keys[t + 1]}));
    if t >= 1 {
      AdvanceAdd(Begin(h, t - 1), a.recvCount, b.sendCount - a.recvCount);
    }
  }

  lemma NothingYet(h: History, p: Party, q: Party)
    requires Facing(h, p, q.sent) && Facing(h, q, p.sent)
    requires p.step == 0 && q.step == 1 && forall i :: i in p.accepted ==> i < |q.sent|
    ensures p.sent == [] && p.accepted == {}
  {
    forall i | i in p.accepted
      ensures false
    {
      AcceptedPassed(h, p, q.sent, i);
      Locate(h, p, q.sent, i);
    }
    if p.sent != [] { Locate(h, q, p.sent, 0); }
  }

  /** In every reachable state the parties are exactly one ratchet step apart and in step; the
      initiator has a sending chain, and the responder if and only if it has accepted a message. */
  lemma PingPong(k: Setup, events: seq<Event>)
    requires k.bobPrivate != k.alicePrivate
    ensures var a, b := Run(k, events).alice, Run(k, events).bob;
      && (OneAhead(a, b) || OneAhead(b, a))
      && a.session.chainSend.Some?
      && (b.session.chainSend.None? <==> b.accepted == {})
      && (b.session.chainSend.None? ==> b.sent == [])
  {
    RunsKeepInv(k, events);
    PingPongAt(Run(k, events), HistoryOf(k, events));
    ResponderWaits(k, events);
  }

  ghost predicate OneAhead(a: Party, b: Party) {
    a.step == b.step + 1 && InStep(b.session, a.session)
  }

  /** The responder does not turn before it accepts a message. */
  lemma {:induction false} ResponderWaits(k: Setup, events: seq<Event>)
    ensures Run(k, events).bob.accepted == {} ==> Run(k, events).bob.step == 0
  {
    if events != [] {
      var net, ev := Run(k, events[..|events| - 1]), events[|events| - 1];
      ResponderWaits(k, events[..|events| - 1]);
      if ev.Corrupt? { JunkRejected(net.Get(ev.to).session, ev.header, ev.bytes, net.nextKey); }
    }
  }

  /** Neither sending nor any delivery, failed or not, takes a sending chain away. */
  lemma ChainKept(s: Session, hd: Header, c: Ciphertext, generated: nat)
    requires s.chainSend.Some?
    ensures Decrypt(s, hd, c, generated).0.chainSend.Some?
  {
    SkipClosed(s, hd.previousLength);
    SkipClosed(s, hd.number);
    SkipClosed(DhStep(Skip(s, hd.previousLength), hd.dhPublic, generated), hd.number);
  }

  lemma StepKeepsChain(net: Net, ev: Event, r: Role)
    requires net.Get(r).session.chainSend.Some?
    ensures Step(net, ev).Get(r).session.chainSend.Some?
  {
    match ev
    case Send(_, _) =>
    case Deliver(to, i) =>
      if to == r && i < |net.Get(Other(to)).sent| {
        var e := net.Get(Other(to)).sent[i].envelope;
        ChainKept(net.Get(r).session, e.header, e.ciphertext, net.nextKey);
      }
    case Corrupt(to, hd, bytes) => JunkRejected(net.Get(to).session, hd, bytes, net.nextKey);
  }

  /** Once a party has a sending chain it never loses it. */
  lemma {:induction false} SendingChainStays(k: Setup, events: seq<Event>, more: seq<Event>, r: Role)
    requires Run(k, events).Get(r).session.chainSend.Some?
    ensures Run(k, events + more).Get(r).session.chainSend.Some?
    decreases |more|
  {
    if more == [] {
      assert events + more == events;
    } else {
      SendingChainStays(k, events, more[..|more| - 1], r);
      RunSnoc(k, events, more);
      StepKeepsChain(Run(k, events + more[..|more| - 1]), more[|more| - 1], r);
    }
  }

  lemma PingPongAt(net: Net, h: History)
    requires Inv(net, h)
    ensures var a, b := net.alice, net.bob;
      && (OneAhead(a, b) || OneAhead(b, a))
      && a.session.chainSend.Some?
      && (b.session.chainSend.None? <==> b.step == 0)
      && (b.step == 0 ==> b.sent == [] && b.accepted == {})
  {
    FacingAt(net, h, Alice);
    FacingAt(net, h, Bob);
    if net.alice.step == net.bob.step + 1 {
      InStepAt(h, net.bob.step, net.bob.session, net.alice.session);
      if net.bob.step == 0 { NothingYet(h, net.bob, net.alice); }
    } else {
      InStepAt(h, net.alice.step, net.alice.session, net.bob.session);
    }
  }

  // ---- Stored keys -------------------------------------------------------------

  /** The entry a receiver stores for a message it has passed over. */
  function KeyFor(e: Sent): SkippedKey
    requires e.envelope.ciphertext.Sealed?
  {
    SkippedKey(e.envelope.header.dhPublic, e.envelope.header.number, e.envelope.ciphertext.key)
  }

  predicate PassedOver(me: Party, e: Sent) {
    e.step + 1 < me.step || (e.step + 1 == me.step && e.envelope.header.number < me.session.recvCount)
  }

  predicate Awaited(me: Party, sent: seq<Sent>, i: nat) {
    i < |sent| && PassedOver(me, sent[i]) && i !in me.accepted
  }

  ghost predicate IsKeyOf(sent: seq<Sent>, i: nat, x: SkippedKey) {
    i < |sent| && sent[i].envelope.ciphertext.Sealed? && x == KeyFor(sent[i])
  }

  ghost predicate KeyIsStored(sent: seq<Sent>, i: nat, stored: seq<SkippedKey>) {
    exists x :: x in stored && IsKeyOf(sent, i, x)
  }

  ghost predicate KeyIsAwaited(me: Party, sent: seq<Sent>, x: SkippedKey) {
    exists i: nat :: Awaited(me, sent, i) && IsKeyOf(sent, i, x)
  }

  /** The stored keys are exactly those of the messages passed over and not yet accepted, one
      for each, under the key that sealed the message; every accepted message was passed over. */
  ghost predicate StoresExactly(me: Party, sent: seq<Sent>) {
    var stored := me.session.skipped;
    && (forall i: nat :: Awaited(me, sent, i) ==> KeyIsStored(sent, i, stored))
    && (forall x :: x in stored ==> KeyIsAwaited(me, sent, x))
    && (forall j, j' :: 0 <= j < j' < |stored| ==> !SameName(stored[j], stored[j']))
    && (forall i :: i in me.accepted ==> i < |sent| && PassedOver(me, sent[i]))
  }

  lemma StoredKeysExact(k: Setup, events: seq<Event>, to: Role)
    requires k.bobPrivate != k.alicePrivate
    ensures StoresExactly(Run(k, events).Get(to), Run(k, events).Get(Other(to)).sent)
  {
    RunsKeepInv(k, events);
    var net := Run(k, events);
    FacingAt(net, HistoryOf(k, events), to);
    StoresExactlyAt(HistoryOf(k, events), net.Get(to), net.Get(Other(to)).sent);
  }

  lemma StoresExactlyAt(h: History, me: Party, sent: seq<Sent>)
    requires Facing(h, me, sent) && forall i :: i in me.accepted ==> i < |sent|
    ensures StoresExactly(me, sent)
  {
    forall i: nat | Awaited(me, sent, i)
      ensures KeyIsStored(sent, i, me.session.skipped)
    {
      AwaitedStored(h, me, sent, i);
    }
    forall x | x in me.session.skipped
      ensures KeyIsAwaited(me, sent, x)
    {
      StoredAwaited(h, me, sent, x);
    }
    forall i | i in me.accepted
      ensures PassedOver(me, sent[i])
    {
      AcceptedPassed(h, me, sent, i);
    }
  }

  lemma AcceptedPassed(h: History, me: Party, sent: seq<Sent>, i: nat)
    requires Facing(h, me, sent) && i in me.accepted && i < |sent|
    ensures PassedOver(me, sent[i])
  {
    Locate(h, me, sent, i);
    assert Passed(h, me.step, me.session.recvCount, sent[i].step - 1, Number(sent[i]));
  }

  lemma AwaitedStored(h: History, me: Party, sent: seq<Sent>, i: nat)
    requires Facing(h, me, sent) && Awaited(me, sent, i)
    ensures KeyIsStored(sent, i, me.session.skipped)
  {
    Locate(h, me, sent, i);
    var c, n := sent[i].step - 1, Number(sent[i]);
    assert Pending(h, me.step, me.session.recvCount, me.accepted, c, n);
    assert HasEntry(h, c, n, me.session.skipped);
    assert IsKeyOf(sent, i, Entry(h, c, n));
  }

  lemma StoredAwaited(h: History, me: Party, sent: seq<Sent>, x: SkippedKey)
    requires Facing(h, me, sent) && x in me.session.skipped
    ensures KeyIsAwaited(me, sent, x)
  {
    assert Owned(h, me.step, me.session.recvCount, me.accepted, x);
    var c: nat :| IsEntry(h, me.step, me.session.recvCount, me.accepted, c, x);
    var i := h.chains[c][x.number];
    assert Places(h, c, x.number, sent[i]);
    assert Awaited(me, sent, i) && IsKeyOf(sent, i, x);
  }

  // ---- Message keys are used once --------------------------------------------------

  /** No two envelopes of a run, in either direction, are sealed under the same key. */
  lemma MessageKeysUnique(k: Setup, events: seq<Event>, r: Role, i: nat, r': Role, i': nat)
    requires k.bobPrivate != k.alicePrivate
    requires i < |Run(k, events).Get(r).sent| && i' < |Run(k, events).Get(r').sent|
    requires r != r' || i != i'
    ensures var c := Run(k, events).Get(r).sent[i].envelope.ciphertext;
      var c' := Run(k, events).Get(r').sent[i'].envelope.ciphertext;
      c.Sealed? && c'.Sealed? && c.key != c'.key
  {
    RunsKeepInv(k, events);
    SealedIn(Run(k, events), HistoryOf(k, events), r, i);
    SealedIn(Run(k, events), HistoryOf(k, events), r', i');
  }

  /** The key `c` is sealed under names one chain and number, whose log index is `i`. */
  ghost predicate SealedAs(h: History, c: Ciphertext, parity: nat, i: nat) {
    && c.Sealed? && c.key.MessageKey?
    && StartLevel(c.key.chain) % 2 == parity
    && IsMessage(h, StartLevel(c.key.chain), ChainLevel(c.key.chain))
    && h.chains[StartLevel(c.key.chain)][ChainLevel(c.key.chain)] == i
  }

  lemma SealedIn(net: Net, h: History, r: Role, i: nat)
    requires Inv(net, h) && i < |net.Get(r).sent|
    ensures SealedAs(h, net.Get(r).sent[i].envelope.ciphertext, if r == Alice then 0 else 1, i)
  {
    assert net.bob.step % 2 == 0;
    if r == Alice {
      SealedAt(h, net.bob.step % 2, net.alice.sent, i);
    } else {
      SealedAt(h, net.alice.step % 2, net.bob.sent, i);
    }
  }

  lemma SealedAt(h: History, parity: nat, sent: seq<Sent>, i: nat)
    requires LogInv(h, parity, sent) && i < |sent|
    ensures SealedAs(h, sent[i].envelope.ciphertext, parity, i)
  {
    var c, n := sent[i].step - 1, Number(sent[i]);
    assert c >= 0 && IsMessage(h, c, n);
    assert Places(h, c, n, sent[h.chains[c][n]]);
    ChainsDiffer(h, c, n, Chain(h, c, n));
  }
}
