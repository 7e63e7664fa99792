/** At most once, against any network: whatever headers, ciphertexts and keys arrive, a session
    opens at most one envelope under each message key. Nothing is assumed about the peer. */
module RatchetReplay {
  import opened Wrappers
  import opened SymbolicCrypto
  import opened Ratchet
  import opened DmSessions

  /** The key lies before the head of the receiving chain. */
  predicate Behind(s: Session, k: Key) {
    && k.MessageKey? && s.chainRecv.Some?
    && (StartLevel(k.chain) < StartLevel(s.chainRecv.value)
        || (StartLevel(k.chain) == StartLevel(s.chainRecv.value)
            && ChainLevel(k.chain) < ChainLevel(s.chainRecv.value)))
  }

  predicate Stores(s: Session, k: Key) {
    exists i :: 0 <= i < |s.skipped| && s.skipped[i].messageKey == k
  }

  /** The stored keys are distinct and lie behind the receiving chain, which lies behind the root. */
  ghost predicate Orderly(s: Session) {
    && (s.chainRecv.Some? ==> StartLevel(s.chainRecv.value) < RootLevel(s.rootKey))
    && (s.chainRecv.None? ==> s.skipped == [])
    && (forall i :: 0 <= i < |s.skipped| ==> Behind(s, s.skipped[i].messageKey))
    && (forall i, j :: 0 <= i < j < |s.skipped| ==> s.skipped[i].messageKey != s.skipped[j].messageKey)
  }

  /** The session can no longer derive the key: it has passed it and does not store it. */
  ghost predicate Spent(s: Session, k: Key) {
    Behind(s, k) && !Stores(s, k)
  }

  lemma {:induction false} AdvanceUp(chain: Key, n: nat)
    ensures ChainLevel(Advance(chain, n)) == ChainLevel(chain) + n
    ensures StartLevel(Advance(chain, n)) == StartLevel(chain)
  {
    if n > 0 { AdvanceUp(chain, n - 1); }
  }

  // ---- The parts of a decryption ---------------------------------------------------

  /** From `s` to `s'`, what was stored or spent stays so; the spent key `k` is the one watched. */
  ghost predicate Moves(s: Session, s': Session, k: Key) {
    Orderly(s') && (Spent(s, k) ==> Spent(s', k))
  }

  lemma SkipMoves(s: Session, until: nat, k: Key)
    requires Orderly(s)
    ensures Moves(s, Skip(s, until), k)
  {
    SkipClosed(s, until);
    if s.chainRecv.Some? && s.recvCount < until && !TooFar(s, until) {
      var n, s', chain := until - s.recvCount, Skip(s, until), s.chainRecv.value;
      var more := Entries(RemoteOrZero(s), chain, s.recvCount, n);
      AdvanceUp(chain, n);
      forall i | 0 <= i < |s'.skipped|
        ensures i < |s.skipped| ==> s'.skipped[i] == s.skipped[i]
        ensures i >= |s.skipped| ==> s'.skipped[i].messageKey == MessageKey(Advance(chain, i - |s.skipped|))
        ensures i >= |s.skipped| ==> ChainLevel(s'.skipped[i].messageKey.chain) == ChainLevel(chain) + (i - |s.skipped|)
        ensures i >= |s.skipped| ==> StartLevel(s'.skipped[i].messageKey.chain) == StartLevel(chain)
      {
        if i >= |s.skipped| { AdvanceUp(chain, i - |s.skipped|); }
      }
    }
  }

  lemma DhStepMoves(s: Session, remote: Public, generated: nat, k: Key)
    requires Orderly(s)
    ensures Moves(s, DhStep(s, remote, generated), k)
  {
  }

  /** The next key of the chain becomes spent. */
  lemma TakeMoves(s: Session, k: Key)
    requires Orderly(s) && s.chainRecv.Some?
    ensures var (next, taken) := KdfCk(s.chainRecv.value);
      var s' := s.(chainRecv := Some(next), recvCount := s.recvCount + 1);
      && Moves(s, s', k) && Spent(s', taken)
      && (Spent(s, k) ==> k != taken)
  {
  }

  lemma UseMoves(s: Session, i: nat, k: Key)
    requires Orderly(s) && i < |s.skipped|
    ensures var s' := s.(skipped := Without(s.skipped, i));
      && Moves(s, s', k) && Spent(s', s.skipped[i].messageKey)
      && (Spent(s, k) ==> k != s.skipped[i].messageKey)
  {
    var s' := s.(skipped := Without(s.skipped, i));
    forall j | 0 <= j < |s'.skipped|
      ensures s'.skipped[j] == s.skipped[if j < i then j else j + 1]
    {
    }
  }

  /** What a decryption does to a watched key. */
  ghost predicate DecryptMoves(s: Session, s': Session, c: Ciphertext, success: bool, k: Key) {
    && Moves(s, s', k)
    && (success ==> c.Sealed? && Spent(s', c.key))
    && (success && Spent(s, k) ==> c.key != k)
  }

  lemma OpenMoves(s: Session, hd: Header, c: Ciphertext, k: Key)
    requires Orderly(s)
    ensures var (s', r) := OpenOnChain(s, hd, c); DecryptMoves(s, s', c, r.Ok?, k)
  {
    SkipMoves(s, hd.number, k);
    var s1 := Skip(s, hd.number);
    if s1.chainRecv.Some? { TakeMoves(s1, k); }
  }

  lemma AnyDecryption(s: Session, hd: Header, c: Ciphertext, generated: nat, k: Key)
    requires Orderly(s)
    ensures var (s', r) := Decrypt(s, hd, c, generated); DecryptMoves(s, s', c, r.Ok?, k)
  {
    var found := FindSkipped(s.skipped, hd);
    if found.Some? {
      UseMoves(s, found.value, k);
    } else if s.remotePublic == Some(hd.dhPublic) {
      OpenMoves(s, hd, c, k);
    } else if !TooFar(s, hd.previousLength) {
      var s1 := Skip(s, hd.previousLength);
      SkipMoves(s, hd.previousLength, k);
      DhStepMoves(s1, hd.dhPublic, generated, k);
      OpenMoves(DhStep(s1, hd.dhPublic, generated), hd, c, k);
    }
  }

  // ---- Whole lives of a session ------------------------------------------------------

  /** What can happen to a stored session: sealing, or any envelope arriving. */
  datatype Action = Seals(payload: Payload) | Receives(envelope: Envelope, masterKnown: bool, generated: nat)

  /** The stored session afterwards; failures save nothing. */
  function Act(s: Session, a: Action): Session {
    match a
    case Seals(p) => (match Seal(s, p) case Err(_) => s case Ok((s', _)) => s')
    case Receives(e, known, g) => (match Receive(s, known, e, g) case Err(_) => s case Ok((s', _)) => s')
  }

  function Acts(s: Session, actions: seq<Action>): Session {
    if actions == [] then s else Act(Acts(s, actions[..|actions| - 1]), actions[|actions| - 1])
  }

  predicate Initial(s: Session) {
    s.chainRecv.None? && s.skipped == []
  }

  lemma InitialSessions(shared: Key, bobPublic: Public, generated: nat, private: nat)
    ensures Initial(InitAlice(shared, bobPublic, generated)) && Initial(InitBob(shared, private))
  {
  }

  lemma ActMoves(s: Session, a: Action, k: Key)
    requires Orderly(s)
    ensures Moves(s, Act(s, a), k)
  {
    match a
    case Seals(_) =>
    case Receives(e, _, g) => AnyDecryption(s, e.header, e.ciphertext, g, k);
  }

  lemma {:induction false} ActsMove(s: Session, actions: seq<Action>, k: Key)
    requires Orderly(s)
    ensures Moves(s, Acts(s, actions), k)
  {
    if actions != [] {
      ActsMove(s, actions[..|actions| - 1], k);
      ActMoves(Acts(s, actions[..|actions| - 1]), actions[|actions| - 1], k);
    }
  }

  /** A key once spent stays useless, whatever happens to the session. */
  lemma SpentForever(s: Session, actions: seq<Action>, e: Envelope, masterKnown: bool, generated: nat)
    requires Orderly(s) && e.ciphertext.Sealed? && Spent(s, e.ciphertext.key)
    ensures Receive(Acts(s, actions), masterKnown, e, generated).Err?
  {
    ActsMove(s, actions, e.ciphertext.key);
    AnyDecryption(Acts(s, actions), e.header, e.ciphertext, generated, e.ciphertext.key);
  }

  /** After an envelope has been accepted, no envelope sealed under the same key ever is, under
      any header, after anything that may have happened before or between. */
  lemma AtMostOncePerKey(start: Session, before: seq<Action>, e: Envelope, known: bool, generated: nat,
                         between: seq<Action>, e': Envelope, known': bool, generated': nat)
    requires Initial(start)
    requires Receive(Acts(start, before), known, e, generated).Ok?
    requires e'.ciphertext.Sealed? && e.ciphertext.Sealed? ==> e'.ciphertext.key == e.ciphertext.key
    ensures var s := Receive(Acts(start, before), known, e, generated).value.0;
      Receive(Acts(s, between), known', e', generated').Err?
  {
    ActsMove(start, before, MessageKey(start.rootKey));
    var s0 := Acts(start, before);
    AnyDecryption(s0, e.header, e.ciphertext, generated, MessageKey(start.rootKey));
    var s := Receive(s0, known, e, generated).value.0;
    if e'.ciphertext.Sealed? {
      SpentForever(s, between, e', known', generated');
    }
  }
}
