/** The Double Ratchet session of src-tauri/src/crypto/ratchet.rs: its operations as
    functions on session values, and as methods that update a `RatchetState` in place. */
module Ratchet {
  import opened Wrappers
  import opened SymbolicCrypto

  const MAX_SKIP: nat := 100

  datatype SkippedKey = SkippedKey(ratchetPublic: Public, number: nat, messageKey: Key)

  datatype Header = Header(dhPublic: Public, number: nat, previousLength: nat)

  /** The persistent state of one conversation, as it is serialised. */
  datatype Session = Session(
    selfPrivate: nat,
    selfPublic: Public,
    remotePublic: Option<Public>,
    rootKey: Key,
    chainSend: Option<Key>,
    chainRecv: Option<Key>,
    sendCount: nat,
    recvCount: nat,
    prevSendCount: nat,
    skipped: seq<SkippedKey>)

  /** The initiator's session; `generated` is the new private key. */
  function InitAlice(shared: Key, bobPublic: Public, generated: nat): Session {
    var (root, chain) := KdfRk(shared, Dh(generated, bobPublic));
    Session(generated, PublicOf(generated), Some(bobPublic), root, Some(chain), None, 0, 0, 0, [])
  }

  /** The responder's session over its long-lived key pair. */
  function InitBob(shared: Key, private: nat): Session {
    Session(private, PublicOf(private), None, shared, None, None, 0, 0, 0, [])
  }

  function EncryptStep(s: Session): Session
    requires s.chainSend.Some?
  {
    s.(chainSend := Some(KdfCk(s.chainSend.value).0), sendCount := s.sendCount + 1)
  }

  function HeaderOf(s: Session): Header {
    Header(s.selfPublic, s.sendCount, s.prevSendCount)
  }

  /** The index of the first stored key for the header's chain and number. */
  function FindSkipped(keys: seq<SkippedKey>, h: Header): (i: Option<nat>)
    ensures i.Some? ==> i.value < |keys| && Names(keys[i.value], h)
    ensures i.Some? ==> forall j :: 0 <= j < i.value ==> !Names(keys[j], h)
    ensures i.None? ==> forall j :: 0 <= j < |keys| ==> !Names(keys[j], h)
  {
    if keys == [] then None
    else if Names(keys[0], h) then Some(0)
    else
      match FindSkipped(keys[1..], h)
      case None => None
      case Some(i) => Some(i + 1)
  }

  predicate Names(k: SkippedKey, h: Header) {
    k.ratchetPublic == h.dhPublic && k.number == h.number
  }

  function Without(keys: seq<SkippedKey>, i: nat): seq<SkippedKey>
    requires i < |keys|
  {
    keys[..i] + keys[i + 1..]
  }

  function RemoteOrZero(s: Session): Public {
    if s.remotePublic.Some? then s.remotePublic.value else ZeroPublic
  }

  /** What the fast-forward loop leaves: the session and the chain key it reached. */
  function SkipLoop(s: Session, chain: Key, until: nat): (Session, Key)
    decreases until - s.recvCount
  {
    if s.recvCount < until then
      var (newChain, messageKey) := KdfCk(chain);
      var entry := SkippedKey(RemoteOrZero(s), s.recvCount, messageKey);
      SkipLoop(s.(skipped := s.skipped + [entry], recvCount := s.recvCount + 1), newChain, until)
    else
      (s, chain)
  }

  predicate TooFar(s: Session, until: nat) {
    s.recvCount + MAX_SKIP < until
  }

  /** The session after skipping up to `until`; unchanged when that is too far. */
  function Skip(s: Session, until: nat): Session {
    if TooFar(s, until) || s.chainRecv.None? then s
    else
      var (s', chain) := SkipLoop(s, s.chainRecv.value, until);
      s'.(chainRecv := Some(chain))
  }

  function DhStep(s: Session, remote: Public, generated: nat): Session {
    var (rootRecv, chainRecv) := KdfRk(s.rootKey, Dh(s.selfPrivate, remote));
    var (rootSend, chainSend) := KdfRk(rootRecv, Dh(generated, remote));
    s.(prevSendCount := s.sendCount, sendCount := 0, recvCount := 0,
       remotePublic := Some(remote), rootKey := rootSend,
       selfPrivate := generated, selfPublic := PublicOf(generated),
       chainRecv := Some(chainRecv), chainSend := Some(chainSend))
  }

  /** The last part of a decryption: skip within the chain, then take its next key. */
  function OpenOnChain(s: Session, h: Header, c: Ciphertext): (Session, Result<Plaintext, CryptoError>) {
    if TooFar(s, h.number) then (s, Err(TooManySkipped))
    else
      var s1 := Skip(s, h.number);
      if s1.chainRecv.None? then (s1, Err(DecryptionFailed))
      else
        var (newChain, messageKey) := KdfCk(s1.chainRecv.value);
        (s1.(chainRecv := Some(newChain), recvCount := s1.recvCount + 1), DecryptMessage(messageKey, c))
  }

  /** The session `decrypt` leaves behind, successful or not, and its result. */
  function Decrypt(s: Session, h: Header, c: Ciphertext, generated: nat): (Session, Result<Plaintext, CryptoError>) {
    var found := FindSkipped(s.skipped, h);
    if found.Some? then
      (s.(skipped := Without(s.skipped, found.value)), DecryptMessage(s.skipped[found.value].messageKey, c))
    else if s.remotePublic == Some(h.dhPublic) then OpenOnChain(s, h, c)
    else if TooFar(s, h.previousLength) then (s, Err(TooManySkipped))
    else OpenOnChain(DhStep(Skip(s, h.previousLength), h.dhPublic, generated), h, c)
  }

  // ---- The same operations in place ----------------------------------------

  class RatchetState {
    var dhSelfPrivate: nat
    var dhSelfPublic: Public
    var dhRemotePublic: Option<Public>
    var rootKey: Key
    var chainKeySend: Option<Key>
    var chainKeyRecv: Option<Key>
    var sendCount: nat
    var recvCount: nat
    var prevSendCount: nat
    var skippedKeys: seq<SkippedKey>

    /** The value this object serialises to. */
    function View(): Session
      reads this
    {
      Session(dhSelfPrivate, dhSelfPublic, dhRemotePublic, rootKey, chainKeySend, chainKeyRecv,
              sendCount, recvCount, prevSendCount, skippedKeys)
    }

    constructor Alice(shared: Key, bobPublic: Public, generated: nat)
      ensures View() == InitAlice(shared, bobPublic, generated)
    {
      var (root, chain) := KdfRk(shared, Dh(generated, bobPublic));
      dhSelfPrivate, dhSelfPublic, dhRemotePublic := generated, PublicOf(generated), Some(bobPublic);
      rootKey, chainKeySend, chainKeyRecv := root, Some(chain), None;
      sendCount, recvCount, prevSendCount, skippedKeys := 0, 0, 0, [];
    }

    constructor Bob(shared: Key, private: nat)
      ensures View() == InitBob(shared, private)
    {
      dhSelfPrivate, dhSelfPublic, dhRemotePublic := private, PublicOf(private), None;
      rootKey, chainKeySend, chainKeyRecv := shared, None, None;
      sendCount, recvCount, prevSendCount, skippedKeys := 0, 0, 0, [];
    }

    /** Rebuilds the object from its stored value. */
    constructor Load(s: Session)
      ensures View() == s
    {
      dhSelfPrivate, dhSelfPublic, dhRemotePublic := s.selfPrivate, s.selfPublic, s.remotePublic;
      rootKey, chainKeySend, chainKeyRecv := s.rootKey, s.chainSend, s.chainRecv;
      sendCount, recvCount, prevSendCount := s.sendCount, s.recvCount, s.prevSendCount;
      skippedKeys := s.skipped;
    }

    /** Encrypting without a sending chain is a caller error: the source panics. */
    method Encrypt(plaintext: Plaintext) returns (h: Header, c: Ciphertext)
      requires chainKeySend.Some?
      modifies this
      ensures View() == EncryptStep(old(View()))
      ensures h == HeaderOf(old(View()))
      ensures c == Sealed(MessageKey(old(chainKeySend).value), plaintext)
    {
      var (newChain, messageKey) := KdfCk(chainKeySend.value);
      chainKeySend := Some(newChain);
      h := Header(dhSelfPublic, sendCount, prevSendCount);
      sendCount := sendCount + 1;
      c := EncryptMessage(messageKey, plaintext);
    }

    method DecryptInPlace(h: Header, c: Ciphertext, generated: nat) returns (r: Result<Plaintext, CryptoError>)
      modifies this
      ensures (View(), r) == Decrypt(old(View()), h, c, generated)
    {
      var stored := TrySkippedKeys(h, c);
      if stored.Some? {
        return stored.value;
      }
      if dhRemotePublic != Some(h.dhPublic) {
        var reached := SkipMessages(h.previousLength);
        if !reached {
          return Err(TooManySkipped);
        }
        DhRatchet(h.dhPublic, generated);
      }
      var reached := SkipMessages(h.number);
      if !reached {
        return Err(TooManySkipped);
      }
      if chainKeyRecv.None? {
        return Err(DecryptionFailed);
      }
      var (newChain, messageKey) := KdfCk(chainKeyRecv.value);
      chainKeyRecv := Some(newChain);
      recvCount := recvCount + 1;
      r := DecryptMessage(messageKey, c);
    }

    /** `None` when no stored key matches; otherwise the key is removed whether or not it opens. */
    method TrySkippedKeys(h: Header, c: Ciphertext) returns (r: Option<Result<Plaintext, CryptoError>>)
      modifies this`skippedKeys
      ensures r.Some? <==> FindSkipped(old(skippedKeys), h).Some?
      ensures r.None? ==> skippedKeys == old(skippedKeys)
      ensures r.Some? ==>
        var i := FindSkipped(old(skippedKeys), h).value;
        && skippedKeys == Without(old(skippedKeys), i)
        && r.value == DecryptMessage(old(skippedKeys)[i].messageKey, c)
    {
      var found := FindSkipped(skippedKeys, h);
      if found.None? {
        return None;
      }
      var entry := skippedKeys[found.value];
      skippedKeys := Without(skippedKeys, found.value);
      r := Some(DecryptMessage(entry.messageKey, c));
    }

    /** Stores the keys of the messages up to `until`; false when they are too many. */
    method SkipMessages(until: nat) returns (reached: bool)
      modifies this`chainKeyRecv, this`recvCount, this`skippedKeys
      ensures reached == !TooFar(old(View()), until)
      ensures View() == Skip(old(View()), until)
    {
      if recvCount + MAX_SKIP < until {
        return false;
      }
      if chainKeyRecv.Some? {
        var chainKey := chainKeyRecv.value;
        while recvCount < until
          invariant chainKeyRecv == old(chainKeyRecv)
          invariant SkipLoop(View(), chainKey, until) == SkipLoop(old(View()), old(chainKeyRecv).value, until)
        {
          var (newChain, messageKey) := KdfCk(chainKey);
          var public := if dhRemotePublic.Some? then dhRemotePublic.value else ZeroPublic;
          skippedKeys := skippedKeys + [SkippedKey(public, recvCount, messageKey)];
          chainKey := newChain;
          recvCount := recvCount + 1;
        }
        chainKeyRecv := Some(chainKey);
      }
      reached := true;
    }

    method DhRatchet(remote: Public, generated: nat)
      modifies this
      ensures View() == DhStep(old(View()), remote, generated)
    {
      prevSendCount := sendCount;
      sendCount := 0;
      recvCount := 0;
      dhRemotePublic := Some(remote);
      var (rootRecv, chainRecv) := KdfRk(rootKey, Dh(dhSelfPrivate, remote));
      rootKey := rootRecv;
      chainKeyRecv := Some(chainRecv);
      dhSelfPrivate := generated;
      dhSelfPublic := PublicOf(generated);
      var (rootSend, chainSend) := KdfRk(rootKey, Dh(dhSelfPrivate, remote));
      rootKey := rootSend;
      chainKeySend := Some(chainSend);
    }
  }

  // ---- What skipping and decrypting do to any session -----------------------

  /** The keys stored for messages `from .. from + n` of a chain. */
  function Entries(public: Public, chain: Key, from: nat, n: nat): (e: seq<SkippedKey>)
    ensures |e| == n
  {
    seq(n, i requires 0 <= i < n => SkippedKey(public, from + i, MessageKey(Advance(chain, i))))
  }

  lemma {:induction false} SkipLoopClosed(s: Session, chain: Key, until: nat)
    requires s.recvCount <= until
    ensures SkipLoop(s, chain, until) ==
      (s.(skipped := s.skipped + Entries(RemoteOrZero(s), chain, s.recvCount, until - s.recvCount),
          recvCount := until),
       Advance(chain, until - s.recvCount))
    decreases until - s.recvCount
  {
    var n := until - s.recvCount;
    if n == 0 {
      assert s.skipped + Entries(RemoteOrZero(s), chain, s.recvCount, n) == s.skipped;
    } else {
      var entry := SkippedKey(RemoteOrZero(s), s.recvCount, MessageKey(chain));
      var s1 := s.(skipped := s.skipped + [entry], recvCount := s.recvCount + 1);
      SkipLoopClosed(s1, ChainNext(chain), until);
      assert ChainNext(chain) == Advance(chain, 1);
      forall i | 0 <= i < n
        ensures Advance(chain, i) == if i == 0 then chain else Advance(ChainNext(chain), i - 1)
      {
        if i > 0 { AdvanceAdd(chain, 1, i - 1); }
      }
      AdvanceAdd(chain, 1, n - 1);
      assert Entries(RemoteOrZero(s), chain, s.recvCount, n)
          == [entry] + Entries(RemoteOrZero(s), ChainNext(chain), s.recvCount + 1, n - 1);
      assert s.skipped + Entries(RemoteOrZero(s), chain, s.recvCount, n)
          == s1.skipped + Entries(RemoteOrZero(s1), ChainNext(chain), s1.recvCount, n - 1);
    }
  }

  /** Skipping fast-forwards the receiving chain and stores exactly the passed keys. */
  lemma SkipClosed(s: Session, until: nat)
    ensures Skip(s, until) ==
      if s.chainRecv.None? || until <= s.recvCount || TooFar(s, until) then s
      else s.(skipped := s.skipped + Entries(RemoteOrZero(s), s.chainRecv.value, s.recvCount, until - s.recvCount),
              recvCount := until,
              chainRecv := Some(Advance(s.chainRecv.value, until - s.recvCount)))
  {
    if s.recvCount <= until && s.chainRecv.Some? {
      SkipLoopClosed(s, s.chainRecv.value, until);
    }
  }

  lemma SkipBounded(s: Session, until: nat)
    ensures |Skip(s, until).skipped| <= |s.skipped| + 100 && s.skipped <= Skip(s, until).skipped
  {
    SkipClosed(s, until);
  }

  /** One decryption stores at most 200 keys, and stored keys survive except the one it uses. */
  lemma StoredKeysBounded(s: Session, h: Header, c: Ciphertext, generated: nat)
    ensures var after := Decrypt(s, h, c, generated).0.skipped;
      if FindSkipped(s.skipped, h).Some? then |after| == |s.skipped| - 1
      else s.skipped <= after && |after| <= |s.skipped| + 200
  {
    SkipBounded(s, h.previousLength);
    SkipBounded(s, h.number);
    SkipBounded(DhStep(Skip(s, h.previousLength), h.dhPublic, generated), h.number);
  }

  // ---- Decryption without loops -----------------------------------------------

  /** The session moved on to a number: the keys passed are stored under the peer's public key. */
  function Forwarded(s: Session, until: nat): Session {
    if s.chainRecv.None? || until <= s.recvCount then s
    else
      var peer := if s.remotePublic.Some? then s.remotePublic.value else ZeroPublic;
      s.(skipped := s.skipped + Entries(peer, s.chainRecv.value, s.recvCount, until - s.recvCount),
         recvCount := until,
         chainRecv := Some(Advance(s.chainRecv.value, until - s.recvCount)))
  }

  /** The session after a ratchet step, field by field. */
  function Turn(s: Session, peer: Public, generated: nat): Session {
    var received, sends := Dh(s.selfPrivate, peer), Dh(generated, peer);
    Session(generated, PublicOf(generated), Some(peer), RootOf(RootOf(s.rootKey, received), sends),
            Some(ChainStart(RootOf(s.rootKey, received), sends)), Some(ChainStart(s.rootKey, received)),
            0, 0, s.sendCount, s.skipped)
  }

  function Unseal(key: Key, c: Ciphertext): Result<Plaintext, CryptoError> {
    match c
    case Sealed(k, plaintext) => if k == key then Ok(plaintext) else Err(DecryptionFailed)
    case Junk(_) => Err(DecryptionFailed)
  }

  /** Opening on the receiving chain: too far ahead changes nothing; otherwise the chain moves past
      the number, or by one if it is already past, whether or not the key opens. */
  function Opened(s: Session, number: nat, c: Ciphertext): (Session, Result<Plaintext, CryptoError>) {
    if number > s.recvCount + 100 then (s, Err(TooManySkipped))
    else
      var f := Forwarded(s, number);
      match f.chainRecv
      case None => (s, Err(DecryptionFailed))
      case Some(k) => (f.(chainRecv := Some(ChainNext(k)), recvCount := f.recvCount + 1), Unseal(MessageKey(k), c))
  }

  /** Result and remaining session of every decryption, successful or not, in closed form. A turn
      that is too far ahead on the new chain leaves the session turned; only the caller's rollback
      undoes that. */
  lemma DecryptExactly(s: Session, h: Header, c: Ciphertext, generated: nat)
    ensures var found := FindSkipped(s.skipped, h);
      Decrypt(s, h, c, generated) ==
      if found.Some? then
        (s.(skipped := s.skipped[..found.value] + s.skipped[found.value + 1..]),
         Unseal(s.skipped[found.value].messageKey, c))
      else if s.remotePublic == Some(h.dhPublic) then Opened(s, h.number, c)
      else if h.previousLength > s.recvCount + 100 then (s, Err(TooManySkipped))
      else Opened(Turn(Forwarded(s, h.previousLength), h.dhPublic, generated), h.number, c)
  {
    SkipClosed(s, h.previousLength);
    SkipClosed(s, h.number);
    SkipClosed(DhStep(Skip(s, h.previousLength), h.dhPublic, generated), h.number);
  }
}
