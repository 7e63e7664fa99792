/** The inductive invariant of ratchet runs. The parties generate one shared sequence of
    private keys `k0, k1, k2, ...` (even ones Bob's, odd ones Alice's). A party at step `t`
    holds `k_t`, sends on chain `t - 1` and receives on chain `t - 2`; chain `c` is derived
    from root key `c` and the agreement between `k_c` and `k_{c+1}`. */
module RatchetInvariant {
  import opened Wrappers
  import opened SymbolicCrypto
  import opened Ratchet
  import opened DmSessions
  import opened RatchetRuns

  /** The shared key sequence, and for each chain the outbox index of each of its messages. */
  datatype History = History(shared: nat, keys: seq<nat>, chains: seq<seq<nat>>)

  function Root(h: History, c: nat): Key
    requires c < |h.keys|
  {
    if c == 0 then Handshake(h.shared)
    else RootOf(Root(h, c - 1), Shared({h.keys[c - 1], h.keys[c]}))
  }

  function Begin(h: History, c: nat): Key
    requires c + 1 < |h.keys|
  {
    ChainStart(Root(h, c), Shared({h.keys[c], h.keys[c + 1]}))
  }

  function Chain(h: History, c: nat, n: nat): Key
    requires c + 1 < |h.keys|
  {
    Advance(Begin(h, c), n)
  }

  lemma {:induction false} RootLevels(h: History, c: nat)
    requires c < |h.keys|
    ensures RootLevel(Root(h, c)) == c
  {
    if c > 0 { RootLevels(h, c - 1); }
  }

  /** No two positions of a run share a chain key. */
  lemma ChainsDiffer(h: History, c: nat, n: nat, k: Key)
    requires c + 1 < |h.keys|
    requires k == Chain(h, c, n)
    ensures StartLevel(k) == c && ChainLevel(k) == n
  {
    RootLevels(h, c);
    AdvanceLevels(Begin(h, c), n);
  }

  predicate Distinct(s: seq<nat>) {
    forall i, j :: 0 <= i < j < |s| ==> s[i] != s[j]
  }

  // ---- The log of one sender ----------------------------------------------

  predicate IsMessage(h: History, c: nat, n: nat) {
    c < |h.chains| && n < |h.chains[c]|
  }

  function ChainLength(h: History, c: int): nat {
    if 0 <= c < |h.chains| then |h.chains[c]| else 0
  }

  ghost predicate Places(h: History, c: nat, n: nat, e: Sent) {
    && c + 1 < |h.keys|
    && e.step == c + 1
    && e.envelope == Envelope(Header(PublicOf(h.keys[c + 1]), n, ChainLength(h, c - 2)),
                              Sealed(MessageKey(Chain(h, c, n)), Json(e.payload)))
  }

  /** The sender whose chains have the given parity has sent exactly the history's messages. */
  ghost predicate LogInv(h: History, parity: nat, sent: seq<Sent>) {
    && (forall c: nat, n: nat :: c % 2 == parity && IsMessage(h, c, n) ==>
          h.chains[c][n] < |sent| && Places(h, c, n, sent[h.chains[c][n]]))
    && (forall i :: 0 <= i < |sent| ==>
          var c, n := sent[i].step - 1, sent[i].envelope.header.number;
          c >= 0 && c % 2 == parity && IsMessage(h, c, n) && h.chains[c][n] == i)
  }

  // ---- The session of one party -------------------------------------------

  ghost predicate SessionInv(h: History, t: nat, s: Session) {
    && t < |h.keys|
    && s.selfPrivate == h.keys[t]
    && s.selfPublic == PublicOf(h.keys[t])
    && s.rootKey == Root(h, t)
    && s.sendCount == ChainLength(h, t - 1)
    && s.prevSendCount == ChainLength(h, t - 3)
    && s.remotePublic == (if t >= 1 then Some(PublicOf(h.keys[t - 1])) else None)
    && s.chainSend == (if t >= 1 then Some(Chain(h, t - 1, s.sendCount)) else None)
    && s.recvCount <= ChainLength(h, t - 2)
    && s.chainRecv == (if t >= 2 then Some(Chain(h, t - 2, s.recvCount)) else None)
  }

  /** Message `n` of chain `c` lies behind a receiver at step `t` with count `recv`. */
  predicate Passed(h: History, t: nat, recv: nat, c: nat, n: nat) {
    && c % 2 == t % 2 && c + 2 <= t
    && IsMessage(h, c, n)
    && (c + 2 == t ==> n < recv)
  }

  predicate Pending(h: History, t: nat, recv: nat, accepted: set<nat>, c: nat, n: nat) {
    Passed(h, t, recv, c, n) && h.chains[c][n] !in accepted
  }

  function Entry(h: History, c: nat, n: nat): SkippedKey
    requires c + 1 < |h.keys|
  {
    SkippedKey(PublicOf(h.keys[c + 1]), n, MessageKey(Chain(h, c, n)))
  }

  ghost predicate HasEntry(h: History, c: nat, n: nat, stored: seq<SkippedKey>) {
    c + 1 < |h.keys| && Entry(h, c, n) in stored
  }

  ghost predicate IsEntry(h: History, t: nat, recv: nat, accepted: set<nat>, c: nat, x: SkippedKey) {
    Pending(h, t, recv, accepted, c, x.number) && c + 1 < |h.keys| && x == Entry(h, c, x.number)
  }

  ghost predicate Owned(h: History, t: nat, recv: nat, accepted: set<nat>, x: SkippedKey) {
    exists c: nat :: IsEntry(h, t, recv, accepted, c, x)
  }

  predicate SameName(x: SkippedKey, y: SkippedKey) {
    x.ratchetPublic == y.ratchetPublic && x.number == y.number
  }

  /** The stored keys are those of the pending messages, one each; accepted messages are passed. */
  ghost predicate StoredInv(h: History, t: nat, recv: nat, accepted: set<nat>, stored: seq<SkippedKey>) {
    && (forall c: nat, n: nat :: Pending(h, t, recv, accepted, c, n) ==> HasEntry(h, c, n, stored))
    && (forall x :: x in stored ==> Owned(h, t, recv, accepted, x))
    && (forall i, j :: 0 <= i < j < |stored| ==> !SameName(stored[i], stored[j]))
    && (forall c: nat, n: nat :: c % 2 == t % 2 && IsMessage(h, c, n) && h.chains[c][n] in accepted
          ==> Passed(h, t, recv, c, n))
  }

  ghost predicate PartyInv(h: History, p: Party) {
    && SessionInv(h, p.step, p.session)
    && StoredInv(h, p.step, p.session.recvCount, p.accepted, p.session.skipped)
  }

  /** The shared history has one chain per step, and keys that were never generated twice. */
  ghost predicate HistoryInv(h: History, top: nat, nextKey: nat) {
    && |h.keys| == top + 1 && |h.chains| == top
    && Distinct(h.keys)
    && (forall i :: 0 <= i < |h.keys| ==> h.keys[i] < nextKey)
  }

  ghost predicate PairInv(h: History, a: Party, b: Party, nextKey: nat) {
    && HistoryInv(h, Max(a.step, b.step), nextKey)
    && (a.step == b.step + 1 || b.step == a.step + 1)
    && PartyInv(h, a) && PartyInv(h, b)
    && LogInv(h, b.step % 2, a.sent) && LogInv(h, a.step % 2, b.sent)
    && (forall i :: i in a.accepted ==> i < |b.sent|)
    && (forall i :: i in b.accepted ==> i < |a.sent|)
  }

  ghost predicate Inv(net: Net, h: History) {
    PairInv(h, net.alice, net.bob, net.nextKey) && net.alice.step % 2 == 1
  }

  // ---- Histories grow ------------------------------------------------------

  ghost predicate Grows(h: History, h': History) {
    && h.shared == h'.shared && h.keys <= h'.keys
    && |h.chains| <= |h'.chains|
    && (forall c :: 0 <= c < |h.chains| ==> h.chains[c] <= h'.chains[c])
  }

  lemma {:induction false} RootGrows(h: History, h': History, c: nat)
    requires h.shared == h'.shared && h.keys <= h'.keys && c < |h.keys|
    ensures Root(h, c) == Root(h', c)
  {
    if c > 0 { RootGrows(h, h', c - 1); }
  }

  lemma ChainGrows(h: History, h': History, c: nat, n: nat)
    requires h.shared == h'.shared && h.keys <= h'.keys && c + 1 < |h.keys|
    ensures Chain(h, c, n) == Chain(h', c, n)
  {
    RootGrows(h, h', c);
  }

  lemma SessionGrows(h: History, h': History, t: nat, s: Session)
    requires SessionInv(h, t, s) && Grows(h, h')
    requires ChainLength(h, t - 1) == ChainLength(h', t - 1) && ChainLength(h, t - 3) == ChainLength(h', t - 3)
    requires t <= |h.chains| + 1
    ensures SessionInv(h', t, s)
  {
    RootGrows(h, h', t);
    if t >= 1 { ChainGrows(h, h', t - 1, s.sendCount); }
    if t >= 2 { ChainGrows(h, h', t - 2, s.recvCount); }
  }

  /** A chain left behind no longer grows, and what is new is not accepted yet: the stored keys stay right. */
  lemma StoredGrows(h: History, h': History, t: nat, recv: nat, accepted: set<nat>, stored: seq<SkippedKey>)
    requires StoredInv(h, t, recv, accepted, stored) && Grows(h, h')
    requires t < |h.keys| && recv <= ChainLength(h, t - 2) && t <= |h.chains| + 1
    requires forall c :: 0 <= c < |h.chains| && c % 2 == t % 2 && c + 2 < t ==> h.chains[c] == h'.chains[c]
    requires forall c: nat, n: nat :: c % 2 == t % 2 && IsMessage(h', c, n) && !IsMessage(h, c, n)
               ==> h'.chains[c][n] !in accepted
    ensures StoredInv(h', t, recv, accepted, stored)
  {
    forall c: nat, n: nat
      ensures Passed(h, t, recv, c, n) <==> Passed(h', t, recv, c, n)
      ensures Passed(h, t, recv, c, n) ==> h.chains[c][n] == h'.chains[c][n]
    {
    }
    forall c: nat, n: nat | Pending(h', t, recv, accepted, c, n)
      ensures HasEntry(h', c, n, stored)
    {
      assert Pending(h, t, recv, accepted, c, n);
      assert HasEntry(h, c, n, stored);
      ChainGrows(h, h', c, n);
      assert Entry(h, c, n) == Entry(h', c, n);
    }
    forall x | x in stored
      ensures Owned(h', t, recv, accepted, x)
    {
      assert Owned(h, t, recv, accepted, x);
      var c: nat :| IsEntry(h, t, recv, accepted, c, x);
      ChainGrows(h, h', c, x.number);
      assert IsEntry(h', t, recv, accepted, c, x);
    }
    forall c: nat, n: nat | c % 2 == t % 2 && IsMessage(h', c, n) && h'.chains[c][n] in accepted
      ensures Passed(h', t, recv, c, n)
    {
      assert IsMessage(h, c, n);
      assert h.chains[c][n] == h'.chains[c][n];
    }
  }
}
