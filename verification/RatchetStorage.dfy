/** How many keys a session stores: exactly one for each message passed over and still awaited,
    and no bound on their number. */
module RatchetStorage {
  import opened Wrappers
  import opened SymbolicCrypto
  import opened Ratchet
  import opened DmSessions
  import opened RatchetRuns
  import opened RatchetInvariant
  import opened RatchetReceive
  import opened RatchetSafety
  import opened RatchetTheorems

  function AwaitedBy(me: Party, sent: seq<Sent>): set<nat> {
    set i | 0 <= i < |sent| && Awaited(me, sent, i)
  }

  ghost predicate KeyFrom(sent: seq<Sent>, from: set<nat>, x: SkippedKey) {
    exists i :: i in from && IsKeyOf(sent, i, x)
  }

  ghost predicate OneKeyEach(sent: seq<Sent>, from: set<nat>) {
    forall i, j, x :: i in from && j in from && IsKeyOf(sent, i, x) && IsKeyOf(sent, j, x) ==> i == j
  }

  /** Distinct keys, one for each index and no others, are as many as the indices. */
  lemma {:induction false} SameNumber(sent: seq<Sent>, from: set<nat>, stored: seq<SkippedKey>)
    requires OneKeyEach(sent, from)
    requires forall i :: i in from ==> KeyIsStored(sent, i, stored)
    requires forall x :: x in stored ==> KeyFrom(sent, from, x)
    requires forall j, j' :: 0 <= j < j' < |stored| ==> !SameName(stored[j], stored[j'])
    ensures |stored| == |from|
  {
    if stored == [] {
      assert forall i :: i in from ==> KeyIsStored(sent, i, stored);
      assert from == {};
    } else {
      var init, last := stored[..|stored| - 1], stored[|stored| - 1];
      assert KeyFrom(sent, from, last);
      var n :| n in from && IsKeyOf(sent, n, last);
      forall i | i in from - {n}
        ensures KeyIsStored(sent, i, init)
      {
        assert KeyIsStored(sent, i, stored);
        var x :| x in stored && IsKeyOf(sent, i, x);
        assert x in init;
      }
      forall x | x in init
        ensures KeyFrom(sent, from - {n}, x)
      {
        assert KeyFrom(sent, from, x);
        var i :| i in from && IsKeyOf(sent, i, x);
        var j :| 0 <= j < |init| && init[j] == x;
        assert !SameName(stored[j], stored[|stored| - 1]);
      }
      SameNumber(sent, from - {n}, init);
    }
  }

  lemma KeysTellMessages(h: History, me: Party, sent: seq<Sent>)
    requires LogInv(h, me.step % 2, sent)
    ensures OneKeyEach(sent, AwaitedBy(me, sent))
  {
    forall i, j, x | i in AwaitedBy(me, sent) && j in AwaitedBy(me, sent) && IsKeyOf(sent, i, x) && IsKeyOf(sent, j, x)
      ensures i == j
    {
      SealedAt(h, me.step % 2, sent, i);
      SealedAt(h, me.step % 2, sent, j);
    }
  }

  /** A session stores as many keys as there are messages passed over and not yet accepted. */
  lemma StoredKeysCounted(k: Setup, events: seq<Event>, to: Role)
    requires k.bobPrivate != k.alicePrivate
    ensures var me, sent := Run(k, events).Get(to), Run(k, events).Get(Other(to)).sent;
      |me.session.skipped| == |AwaitedBy(me, sent)|
  {
    var me, sent := Run(k, events).Get(to), Run(k, events).Get(Other(to)).sent;
    StoredKeysExact(k, events, to);
    FacingIn(k, events, to);
    KeysTellMessages(HistoryOf(k, events), me, sent);
    forall x | x in me.session.skipped
      ensures KeyFrom(sent, AwaitedBy(me, sent), x)
    {
      assert KeyIsAwaited(me, sent, x);
      var i: nat :| Awaited(me, sent, i) && IsKeyOf(sent, i, x);
      assert i in AwaitedBy(me, sent);
    }
    SameNumber(sent, AwaitedBy(me, sent), me.session.skipped);
  }

  // ---- No bound --------------------------------------------------------------------

  /** Alice sends two messages, and only the second arrives; `n` times. */
  function Burst(n: nat): seq<Event> {
    if n == 0 then []
    else Burst(n - 1) + [Send(Alice, Typing), Send(Alice, Typing), Deliver(Bob, 2 * n - 1)]
  }

  /** Alice has sent messages `0..m` on her first chain, and Bob has passed `recv` of them. */
  ghost predicate Bursting(net: Net, m: nat, recv: nat, stored: nat) {
    && net.alice.step == 1 && net.alice.session.chainSend.Some?
    && net.alice.session.sendCount == |net.alice.sent| == m
    && (forall i :: 0 <= i < m ==> net.alice.sent[i].step == 1 && Number(net.alice.sent[i]) == i)
    && net.bob.step == (if recv == 0 then 0 else 2)
    && net.bob.session.recvCount == recv && |net.bob.session.skipped| == stored
    && (forall i :: i in net.bob.accepted ==> i < recv)
  }

  lemma BurstSend(net: Net, m: nat, recv: nat, stored: nat)
    requires Bursting(net, m, recv, stored)
    ensures Bursting(Step(net, Send(Alice, Typing)), m + 1, recv, stored)
  {
  }

  lemma BurstArrives(h: History, p: Party, sent: seq<Sent>, m: nat, generated: nat)
    requires Facing(h, p, sent) && m + 1 < |sent|
    requires sent[m + 1].step == 1 && Number(sent[m + 1]) == m + 1
    requires p.session.recvCount == m && p.step == (if m == 0 then 0 else 2)
    ensures var p' := Arrived(p, sent, m + 1, generated);
      && p'.step == 2 && p'.session.recvCount == m + 2
      && |p'.session.skipped| == |p.session.skipped| + 1
      && p'.accepted <= p.accepted + {m + 1}
  {
    Locate(h, p, sent, m + 1);
    if m == 0 {
      DecryptNext(h, p, sent, m + 1, generated);
    } else {
      DecryptCurrent(h, p, sent, m + 1, generated);
    }
  }

  lemma BurstDeliver(net: Net, h: History, m: nat, stored: nat)
    requires Facing(h, net.bob, net.alice.sent) && Bursting(net, m + 2, m, stored)
    ensures Bursting(Step(net, Deliver(Bob, m + 1)), m + 2, m + 2, stored + 1)
  {
    BurstArrives(h, net.bob, net.alice.sent, m, net.nextKey);
    DeliverStep(net, Bob, m + 1);
  }

  lemma BurstRound(net: Net, h: History, m: nat, stored: nat)
    requires Bursting(net, m, m, stored)
    requires var net' := Step(Step(net, Send(Alice, Typing)), Send(Alice, Typing)); Facing(h, net'.bob, net'.alice.sent)
    ensures var net' := Step(Step(net, Send(Alice, Typing)), Send(Alice, Typing));
      Bursting(Step(net', Deliver(Bob, m + 1)), m + 2, m + 2, stored + 1)
  {
    BurstSend(net, m, m, stored);
    BurstSend(Step(net, Send(Alice, Typing)), m + 1, m, stored);
    BurstDeliver(Step(Step(net, Send(Alice, Typing)), Send(Alice, Typing)), h, m, stored);
  }

  lemma RunThree(k: Setup, events: seq<Event>, a: Event, b: Event, c: Event)
    ensures Run(k, events + [a, b, c]) == Step(Run(k, events + [a, b]), c)
    ensures Run(k, events + [a, b]) == Step(Step(Run(k, events), a), b)
  {
    RunSnoc(k, events, [a, b, c]);
    RunSnoc(k, events, [a, b]);
    RunSnoc(k, events, [a]);
    assert [a, b, c][..2] == [a, b] && [a, b][..1] == [a] && events + [a][..0] == events;
  }

  lemma BurstNext(k: Setup, before: seq<Event>, m: nat, stored: nat)
    requires k.bobPrivate != k.alicePrivate && Bursting(Run(k, before), m, m, stored)
    ensures var after := Run(k, before + [Send(Alice, Typing), Send(Alice, Typing), Deliver(Bob, m + 1)]);
      Bursting(after, m + 2, m + 2, stored + 1)
  {
    var send := Send(Alice, Typing);
    RunThree(k, before, send, send, Deliver(Bob, m + 1));
    FacingIn(k, before + [send, send], Bob);
    BurstRound(Run(k, before), HistoryOf(k, before + [send, send]), m, stored);
  }

  lemma {:induction false} BurstState(k: Setup, n: nat)
    requires k.bobPrivate != k.alicePrivate
    ensures Bursting(Run(k, Burst(n)), 2 * n, 2 * n, n)
  {
    if n > 0 {
      BurstState(k, n - 1);
      BurstNext(k, Burst(n - 1), 2 * n - 2, n - 1);
    }
  }

  /** Every number of stored keys is reached: the limit of 100 is per skip, not in total. */
  lemma StoredKeysUnbounded(k: Setup, n: nat)
    requires k.bobPrivate != k.alicePrivate
    ensures |Run(k, Burst(n)).bob.session.skipped| == n
  {
    BurstState(k, n);
  }
}
