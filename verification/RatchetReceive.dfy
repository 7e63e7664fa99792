/** One delivery of an honest envelope: what `Decrypt` returns and how the invariant
    moves, for each place the message can be in. */
module RatchetReceive {
  import opened Wrappers
  import opened SymbolicCrypto
  import opened Ratchet
  import opened DmSessions
  import opened RatchetRuns
  import opened RatchetInvariant

  /** What a receiver needs to know: its own invariant, the peer's log, distinct keys, and
      that the peer is one step ahead or behind. */
  ghost predicate Facing(h: History, p: Party, sent: seq<Sent>) {
    && PartyInv(h, p)
    && LogInv(h, p.step % 2, sent)
    && Distinct(h.keys)
    && |h.chains| == |h.keys| - 1
    && p.step < |h.keys| <= p.step + 2
  }

  function Number(e: Sent): nat {
    e.envelope.header.number
  }

  ghost predicate At(h: History, sent: seq<Sent>, i: nat, c: nat, n: nat) {
    && i < |sent| && IsMessage(h, c, n) && h.chains[c][n] == i
    && sent[i].step == c + 1 && Number(sent[i]) == n && Places(h, c, n, sent[i])
  }

  /** Every message of the log is on an older chain, the current one or the next one. */
  lemma Locate(h: History, p: Party, sent: seq<Sent>, i: nat)
    requires Facing(h, p, sent) && i < |sent|
    ensures sent[i].step >= 1
    ensures var c := sent[i].step - 1; At(h, sent, i, c, Number(sent[i])) && c % 2 == p.step % 2 && c <= p.step
  {
    var c, n := sent[i].step - 1, sent[i].envelope.header.number;
    assert c >= 0 && c % 2 == p.step % 2 && IsMessage(h, c, n) && h.chains[c][n] == i;
  }

  lemma FindPending(h: History, p: Party, c: nat, n: nat, previous: nat)
    requires PartyInv(h, p) && Distinct(h.keys)
    requires c + 1 < |h.keys|
    ensures var found := FindSkipped(p.session.skipped, Header(PublicOf(h.keys[c + 1]), n, previous));
      if Pending(h, p.step, p.session.recvCount, p.accepted, c, n)
      then found.Some? && p.session.skipped[found.value] == Entry(h, c, n)
      else found.None?
  {
    var stored := p.session.skipped;
    var recv := p.session.recvCount;
    var found := FindSkipped(stored, Header(PublicOf(h.keys[c + 1]), n, previous));
    if Pending(h, p.step, recv, p.accepted, c, n) {
      assert HasEntry(h, c, n, stored);
      var j :| 0 <= j < |stored| && stored[j] == Entry(h, c, n);
      assert Names(stored[j], Header(PublicOf(h.keys[c + 1]), n, previous));
      assert SameName(stored[found.value], stored[j]);
      assert found.value == j;
    }
    forall x | x in stored && Names(x, Header(PublicOf(h.keys[c + 1]), n, previous))
      ensures Pending(h, p.step, recv, p.accepted, c, n)
    {
      assert Owned(h, p.step, recv, p.accepted, x);
      var c': nat :| IsEntry(h, p.step, recv, p.accepted, c', x);
    }
    assert found.Some? ==> stored[found.value] in stored;
  }

  // ---- Results -------------------------------------------------------------

  lemma DecryptStored(h: History, p: Party, sent: seq<Sent>, i: nat, generated: nat)
    requires Facing(h, p, sent) && i < |sent| && sent[i].step >= 1
    requires Pending(h, p.step, p.session.recvCount, p.accepted, sent[i].step - 1, Number(sent[i]))
    ensures var hd := sent[i].envelope.header; var found := FindSkipped(p.session.skipped, hd);
      && found.Some? && p.session.skipped[found.value] == Entry(h, sent[i].step - 1, hd.number)
      && Decrypt(p.session, hd, sent[i].envelope.ciphertext, generated)
         == (p.session.(skipped := Without(p.session.skipped, found.value)), Ok(Json(sent[i].payload)))
  {
    Locate(h, p, sent, i);
    FindPending(h, p, sent[i].step - 1, Number(sent[i]), sent[i].envelope.header.previousLength);
  }

  /** The session after accepting message `n` of chain `c` starting from count `recv`. */
  function Taken(h: History, s: Session, c: nat, n: nat): Session
    requires c + 1 < |h.keys|
  {
    if n < s.recvCount then s
    else s.(skipped := s.skipped + Passing(h, c, s.recvCount, n),
            recvCount := n + 1, chainRecv := Some(Chain(h, c, n + 1)))
  }

  function Passing(h: History, c: nat, from: nat, until: nat): (e: seq<SkippedKey>)
    requires c + 1 < |h.keys| && from <= until
  {
    Entries(PublicOf(h.keys[c + 1]), Chain(h, c, from), from, until - from)
  }

  lemma PassingAt(h: History, c: nat, from: nat, until: nat)
    requires c + 1 < |h.keys| && from <= until
    ensures |Passing(h, c, from, until)| == until - from
    ensures forall n :: from <= n < until ==> Passing(h, c, from, until)[n - from] == Entry(h, c, n)
  {
    forall n | from <= n < until
      ensures Passing(h, c, from, until)[n - from] == Entry(h, c, n)
    {
      AdvanceAdd(Begin(h, c), from, n - from);
    }
  }

  lemma SkipOnChain(h: History, s: Session, c: nat, until: nat)
    requires c + 1 < |h.keys|
    requires s.remotePublic == Some(PublicOf(h.keys[c + 1])) && s.chainRecv == Some(Chain(h, c, s.recvCount))
    requires s.recvCount <= until && !TooFar(s, until)
    ensures Skip(s, until) == s.(skipped := s.skipped + Passing(h, c, s.recvCount, until),
                                 recvCount := until, chainRecv := Some(Chain(h, c, until)))
  {
    SkipClosed(s, until);
    AdvanceAdd(Begin(h, c), s.recvCount, until - s.recvCount);
    if until == s.recvCount {
      assert s.skipped + Passing(h, c, s.recvCount, until) == s.skipped;
    }
  }

  /** Opening message `n` of the chain a session is on: exact outcome. */
  lemma OpenExactly(h: History, s: Session, c: nat, hd: Header, payload: Payload)
    requires c + 1 < |h.keys|
    requires s.remotePublic == Some(PublicOf(h.keys[c + 1])) && s.chainRecv == Some(Chain(h, c, s.recvCount))
    ensures var r := OpenOnChain(s, hd, Sealed(MessageKey(Chain(h, c, hd.number)), Json(payload)));
      if hd.number < s.recvCount then r.1 == Err(DecryptionFailed)
      else if TooFar(s, hd.number) then r.1 == Err(TooManySkipped)
      else r == (Taken(h, s, c, hd.number), Ok(Json(payload)))
  {
    if hd.number < s.recvCount {
      SkipClosed(s, hd.number);
      ChainsDiffer(h, c, hd.number, Chain(h, c, hd.number));
      ChainsDiffer(h, c, s.recvCount, Chain(h, c, s.recvCount));
    } else if !TooFar(s, hd.number) {
      SkipOnChain(h, s, c, hd.number);
    }
  }

  lemma DecryptCurrent(h: History, p: Party, sent: seq<Sent>, i: nat, generated: nat)
    requires Facing(h, p, sent) && i < |sent| && sent[i].step == p.step - 1
    requires !Pending(h, p.step, p.session.recvCount, p.accepted, p.step - 2, Number(sent[i]))
    ensures var n := Number(sent[i]);
      var r := Decrypt(p.session, sent[i].envelope.header, sent[i].envelope.ciphertext, generated);
      if n < p.session.recvCount then r.1 == Err(DecryptionFailed)
      else if TooFar(p.session, n) then r.1 == Err(TooManySkipped)
      else r == (Taken(h, p.session, p.step - 2, n), Ok(Json(sent[i].payload)))
  {
    Locate(h, p, sent, i);
    FindPending(h, p, p.step - 2, Number(sent[i]), sent[i].envelope.header.previousLength);
    OpenExactly(h, p.session, p.step - 2, sent[i].envelope.header, sent[i].payload);
  }

  /** The history once the receiver at step `|h.keys| - 2` has ratcheted with a new key. */
  function Ratcheted(h: History, generated: nat): History {
    h.(keys := h.keys + [generated], chains := h.chains + [[]])
  }

  /** The session right after the two skips' first half: current chain closed, new chain begun. */
  function Turned(h: History, p: Party, generated: nat): Session
    requires p.step + 2 == |h.keys|
  {
    DhStep(Closed(h, p), PublicOf(h.keys[p.step + 1]), generated)
  }

  function Closed(h: History, p: Party): Session
    requires p.step + 2 == |h.keys|
  {
    var total := ChainLength(h, p.step - 2);
    if p.step < 2 || total < p.session.recvCount then p.session
    else p.session.(skipped := p.session.skipped + Passing(h, p.step - 2, p.session.recvCount, total),
                    recvCount := total, chainRecv := Some(Chain(h, p.step - 2, total)))
  }

  lemma TurnedSession(h: History, p: Party, generated: nat)
    requires PartyInv(h, p) && |h.chains| == |h.keys| - 1 && p.step + 2 == |h.keys|
    ensures SessionInv(Ratcheted(h, generated), p.step + 2, Turned(h, p, generated))
  {
    var h' := Ratcheted(h, generated);
    var t := p.step;
    RootGrows(h, h', t);
    assert {generated, h.keys[t + 1]} == {h'.keys[t + 1], h'.keys[t + 2]};
    assert Root(h', t + 2) == RootOf(Root(h', t + 1), Shared({h'.keys[t + 1], h'.keys[t + 2]}));
    assert Root(h', t + 1) == RootOf(Root(h', t), Shared({h'.keys[t], h'.keys[t + 1]}));
  }

  lemma DecryptNext(h: History, p: Party, sent: seq<Sent>, i: nat, generated: nat)
    requires Facing(h, p, sent) && i < |sent| && sent[i].step == p.step + 1
    ensures p.step + 2 == |h.keys|
    ensures var n := Number(sent[i]);
      var r := Decrypt(p.session, sent[i].envelope.header, sent[i].envelope.ciphertext, generated);
      && sent[i].envelope.header.previousLength == ChainLength(h, p.step - 2)
      && if TooFar(p.session, ChainLength(h, p.step - 2)) || n > MAX_SKIP then r.1 == Err(TooManySkipped)
         else r == (Taken(Ratcheted(h, generated), Turned(h, p, generated), p.step, n), Ok(Json(sent[i].payload)))
  {
    Locate(h, p, sent, i);
    var t := p.step;
    var hd := sent[i].envelope.header;
    FindPending(h, p, t, hd.number, hd.previousLength);
    assert h.keys[t + 1] == hd.dhPublic.owner;
    if t >= 1 { assert h.keys[t - 1] != h.keys[t + 1]; }
    if !TooFar(p.session, hd.previousLength) {
      if t >= 2 { SkipOnChain(h, p.session, t - 2, hd.previousLength); }
      else { SkipClosed(p.session, hd.previousLength); }
      assert Skip(p.session, hd.previousLength) == Closed(h, p);
      TurnedSession(h, p, generated);
      var h' := Ratcheted(h, generated);
      ChainGrows(h, h', t, hd.number);
      OpenExactly(h', Turned(h, p, generated), t, hd, sent[i].payload);
    }
  }

  /** A message of a chain left behind, whose key is not stored, never opens. */
  lemma DecryptOld(h: History, p: Party, sent: seq<Sent>, i: nat, generated: nat)
    requires Facing(h, p, sent) && i < |sent| && sent[i].step + 1 < p.step
    requires sent[i].step >= 1
    requires !Pending(h, p.step, p.session.recvCount, p.accepted, sent[i].step - 1, Number(sent[i]))
    ensures Decrypt(p.session, sent[i].envelope.header, sent[i].envelope.ciphertext, generated).1.Err?
  {
    Locate(h, p, sent, i);
    var c := sent[i].step - 1;
    FindPending(h, p, c, Number(sent[i]), sent[i].envelope.header.previousLength);
    assert h.keys[c + 1] != h.keys[p.step - 1];
    OldRejects(h, p.session, p.step, c, sent[i].envelope.header, sent[i].envelope.ciphertext, generated);
  }

  lemma OldRejects(h: History, s: Session, t: nat, c: nat, hd: Header, ciphertext: Ciphertext, generated: nat)
    requires SessionInv(h, t, s) && c < t && c + 1 < |h.keys|
    requires FindSkipped(s.skipped, hd).None? && s.remotePublic != Some(hd.dhPublic)
    requires ciphertext.Sealed? && ciphertext.key == MessageKey(Chain(h, c, hd.number))
    ensures Decrypt(s, hd, ciphertext, generated).1.Err?
  {
    SkipClosed(s, hd.previousLength);
    RootLevels(h, t);
    ChainsDiffer(h, c, hd.number, Chain(h, c, hd.number));
    NewChainRejects(Skip(s, hd.previousLength), hd, ciphertext, generated);
  }

  /** A chain begun by a ratchet step opens nothing sealed from an earlier root key. */
  lemma NewChainRejects(s: Session, hd: Header, c: Ciphertext, generated: nat)
    requires c.Sealed? && c.key.MessageKey? && StartLevel(c.key.chain) != RootLevel(s.rootKey)
    ensures OpenOnChain(DhStep(s, hd.dhPublic, generated), hd, c).1.Err?
  {
    var turned := DhStep(s, hd.dhPublic, generated);
    SkipClosed(turned, hd.number);
    AdvanceLevels(turned.chainRecv.value, hd.number);
  }

  // ---- The stored keys after a delivery -------------------------------------

  lemma WithoutKeeps(stored: seq<SkippedKey>, j: nat, x: SkippedKey)
    requires j < |stored|
    ensures x in stored && x != stored[j] ==> x in Without(stored, j)
    ensures x in Without(stored, j) ==> x in stored
    ensures (forall a, b :: 0 <= a < b < |stored| ==> !SameName(stored[a], stored[b])) && x in Without(stored, j)
      ==> !SameName(x, stored[j])
  {
    assert stored == stored[..j] + [stored[j]] + stored[j + 1..];
  }

  lemma StoredAfterUse(h: History, p: Party, sent: seq<Sent>, i: nat, j: nat)
    requires Facing(h, p, sent) && i < |sent| && sent[i].step >= 1
    requires Pending(h, p.step, p.session.recvCount, p.accepted, sent[i].step - 1, Number(sent[i]))
    requires j < |p.session.skipped| && p.session.skipped[j] == Entry(h, sent[i].step - 1, Number(sent[i]))
    ensures StoredInv(h, p.step, p.session.recvCount, p.accepted + {i}, Without(p.session.skipped, j))
  {
    Locate(h, p, sent, i);
    var t, recv, stored := p.step, p.session.recvCount, p.session.skipped;
    var left := Without(stored, j);
    var c0, n0 := sent[i].step - 1, Number(sent[i]);
    forall c: nat, n: nat | Pending(h, t, recv, p.accepted + {i}, c, n)
      ensures HasEntry(h, c, n, left)
    {
      assert Pending(h, t, recv, p.accepted, c, n);
      assert HasEntry(h, c, n, stored);
      assert c != c0 ==> h.keys[c + 1] != h.keys[c0 + 1];
      WithoutKeeps(stored, j, Entry(h, c, n));
    }
    forall x | x in left
      ensures Owned(h, t, recv, p.accepted + {i}, x)
    {
      LeftIsOwned(h, p, sent, i, j, x);
    }
    forall c: nat, n: nat | c % 2 == t % 2 && IsMessage(h, c, n) && h.chains[c][n] in p.accepted + {i}
      ensures Passed(h, t, recv, c, n)
    {
      assert Places(h, c, n, sent[h.chains[c][n]]);
    }
  }

  lemma LeftIsOwned(h: History, p: Party, sent: seq<Sent>, i: nat, j: nat, x: SkippedKey)
    requires Facing(h, p, sent) && i < |sent| && sent[i].step >= 1
    requires At(h, sent, i, sent[i].step - 1, Number(sent[i]))
    requires j < |p.session.skipped| && p.session.skipped[j] == Entry(h, sent[i].step - 1, Number(sent[i]))
    requires x in Without(p.session.skipped, j)
    ensures Owned(h, p.step, p.session.recvCount, p.accepted + {i}, x)
  {
    WithoutKeeps(p.session.skipped, j, x);
    assert Owned(h, p.step, p.session.recvCount, p.accepted, x);
    var c: nat :| IsEntry(h, p.step, p.session.recvCount, p.accepted, c, x);
    assert Places(h, c, x.number, sent[h.chains[c][x.number]]);
    assert IsEntry(h, p.step, p.session.recvCount, p.accepted + {i}, c, x);
  }

  /** Moving the current chain's count from `recv` to `until` by storing the passed keys. */
  lemma StoredAfterPassing(h: History, t: nat, recv: nat, until: nat, accepted: set<nat>, stored: seq<SkippedKey>)
    requires StoredInv(h, t, recv, accepted, stored)
    requires Distinct(h.keys) && |h.chains| == |h.keys| - 1
    requires 2 <= t < |h.keys| && recv <= until <= ChainLength(h, t - 2)
    ensures StoredInv(h, t, until, accepted, stored + Passing(h, t - 2, recv, until))
  {
    var more := Passing(h, t - 2, recv, until);
    var all := stored + more;
    PassingAt(h, t - 2, recv, until);
    forall c: nat, n: nat | Pending(h, t, until, accepted, c, n)
      ensures HasEntry(h, c, n, all)
    {
      if c + 2 == t && recv <= n {
        assert all[|stored| + (n - recv)] == Entry(h, c, n);
      } else {
        assert Pending(h, t, recv, accepted, c, n);
        assert HasEntry(h, c, n, stored);
      }
    }
    forall x | x in all
      ensures Owned(h, t, until, accepted, x)
    {
      if x in stored {
        assert Owned(h, t, recv, accepted, x);
        var c: nat :| IsEntry(h, t, recv, accepted, c, x);
        assert IsEntry(h, t, until, accepted, c, x);
      } else {
        var m :| 0 <= m < |more| && more[m] == x;
        var n := recv + m;
        assert x == Entry(h, t - 2, n);
        assert IsMessage(h, t - 2, n);
        assert h.chains[t - 2][n] in accepted ==> Passed(h, t, recv, t - 2, n);
        assert IsEntry(h, t, until, accepted, t - 2, x);
      }
    }
    forall a, b | 0 <= a < b < |all|
      ensures !SameName(all[a], all[b])
    {
      if b >= |stored| {
        var nb := recv + (b - |stored|);
        assert all[b] == Entry(h, t - 2, nb);
        if a >= |stored| {
          assert all[a] == Entry(h, t - 2, recv + (a - |stored|));
        } else {
          assert stored[a] in stored;
          assert Owned(h, t, recv, accepted, stored[a]);
          var c: nat :| IsEntry(h, t, recv, accepted, c, stored[a]);
          assert c + 2 != t ==> h.keys[c + 1] != h.keys[t - 1];
        }
      }
    }
    forall c: nat, n: nat | c % 2 == t % 2 && IsMessage(h, c, n) && h.chains[c][n] in accepted
      ensures Passed(h, t, until, c, n)
    {
      assert Passed(h, t, recv, c, n);
    }
  }

  /** Accepting the message at the head of the current chain. */
  lemma StoredAfterHead(h: History, t: nat, recv: nat, accepted: set<nat>, stored: seq<SkippedKey>, i: nat,
                        sent: seq<Sent>)
    requires StoredInv(h, t, recv, accepted, stored)
    requires LogInv(h, t % 2, sent) && 2 <= t
    requires IsMessage(h, t - 2, recv) && h.chains[t - 2][recv] == i
    ensures StoredInv(h, t, recv + 1, accepted + {i}, stored)
  {
    assert Places(h, t - 2, recv, sent[i]);
    forall c: nat, n: nat | c % 2 == t % 2 && IsMessage(h, c, n)
      ensures h.chains[c][n] == i ==> c == t - 2 && n == recv
    {
      if h.chains[c][n] == i { assert Places(h, c, n, sent[i]); }
    }
    forall c: nat, n: nat | Pending(h, t, recv + 1, accepted + {i}, c, n)
      ensures HasEntry(h, c, n, stored)
    {
      assert Pending(h, t, recv, accepted, c, n);
    }
    forall x | x in stored
      ensures Owned(h, t, recv + 1, accepted + {i}, x)
    {
      assert Owned(h, t, recv, accepted, x);
      var c: nat :| IsEntry(h, t, recv, accepted, c, x);
      assert IsEntry(h, t, recv + 1, accepted + {i}, c, x);
    }
    forall c: nat, n: nat | c % 2 == t % 2 && IsMessage(h, c, n) && h.chains[c][n] in accepted + {i}
      ensures Passed(h, t, recv + 1, c, n)
    {
      if h.chains[c][n] != i { assert Passed(h, t, recv, c, n); }
    }
  }

  /** Once the current chain is fully passed, the receiver may move to the next one. */
  lemma StoredAfterTurn(h: History, t: nat, recv: nat, accepted: set<nat>, stored: seq<SkippedKey>, generated: nat)
    requires StoredInv(h, t, recv, accepted, stored)
    requires t + 2 == |h.keys| && |h.chains| == |h.keys| - 1
    requires recv == ChainLength(h, t - 2)
    ensures StoredInv(Ratcheted(h, generated), t + 2, 0, accepted, stored)
  {
    var h' := Ratcheted(h, generated);
    forall c: nat, n: nat
      ensures Passed(h', t + 2, 0, c, n) <==> Passed(h, t, recv, c, n)
      ensures c % 2 == t % 2 && IsMessage(h', c, n) ==> IsMessage(h, c, n) && h.chains[c][n] == h'.chains[c][n]
    {
    }
    forall c: nat, n: nat | Pending(h', t + 2, 0, accepted, c, n)
      ensures HasEntry(h', c, n, stored)
    {
      assert Pending(h, t, recv, accepted, c, n);
      assert HasEntry(h, c, n, stored);
      ChainGrows(h, h', c, n);
      assert Entry(h, c, n) == Entry(h', c, n);
    }
    forall x | x in stored
      ensures Owned(h', t + 2, 0, accepted, x)
    {
      assert Owned(h, t, recv, accepted, x);
      var c: nat :| IsEntry(h, t, recv, accepted, c, x);
      ChainGrows(h, h', c, x.number);
      assert IsEntry(h', t + 2, 0, accepted, c, x);
    }
    forall c: nat, n: nat | c % 2 == (t + 2) % 2 && IsMessage(h', c, n) && h'.chains[c][n] in accepted
      ensures Passed(h', t + 2, 0, c, n)
    {
      assert Passed(h, t, recv, c, n);
    }
  }
}
