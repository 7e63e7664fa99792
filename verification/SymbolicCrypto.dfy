/** Symbolic cryptography for the direct-message ratchet: key derivation is free and
    injective, Diffie-Hellman commutes, and a ciphertext opens only under the key that
    sealed it. Private keys are names; a freshly generated key is a name not used before. */
module SymbolicCrypto {
  import opened Wrappers

  /** An X25519 public key. `ZeroPublic` is the all-zero array the source falls back to. */
  datatype Public = ZeroPublic | PublicOf(owner: nat)

  datatype DhOutput = ZeroShared | Shared(owners: set<nat>)

  function Dh(mine: nat, theirs: Public): DhOutput {
    match theirs
    case ZeroPublic => ZeroShared
    case PublicOf(other) => Shared({mine, other})
  }

  /** Every 32-byte secret of a session, as the term that derived it. */
  datatype Key =
    | Handshake(id: nat)
    | RootOf(root: Key, dh: DhOutput)
    | ChainStart(root: Key, dh: DhOutput)
    | ChainNext(chain: Key)
    | MessageKey(chain: Key)

  /** `kdf_rk`: the next root key and the first key of a new chain. */
  function KdfRk(root: Key, dh: DhOutput): (Key, Key) {
    (RootOf(root, dh), ChainStart(root, dh))
  }

  /** `kdf_ck`: the next chain key and the message key. */
  function KdfCk(chain: Key): (Key, Key) {
    (ChainNext(chain), MessageKey(chain))
  }

  /** Diffie-Hellman commutes, and tells the other party's public key. */
  lemma DhLaws(mine: nat, theirs: nat, p: Public, q: Public)
    ensures Dh(mine, PublicOf(theirs)) == Dh(theirs, PublicOf(mine))
    ensures Dh(mine, p) == Dh(mine, q) ==> p == q
  {
    if p.PublicOf? && q.PublicOf? && Dh(mine, p) == Dh(mine, q) {
      assert p.owner in {mine, q.owner} && q.owner in {mine, p.owner};
    }
  }

  /** A ciphertext opens under the key that sealed it and no other. */
  lemma OpensOnlyUnderItsKey(key: Key, plaintext: Plaintext, other: Key)
    ensures DecryptMessage(key, EncryptMessage(key, plaintext)) == Ok(plaintext)
    ensures other != key ==> DecryptMessage(other, EncryptMessage(key, plaintext)) == Err(DecryptionFailed)
  {
  }

  /** What a direct message carries once parsed. */
  datatype Payload =
    | Message(id: string, content: string)
    | Delivered(messageId: string)
    | Read(messageId: string)
    | Typing
    | CallSignal(callId: string)

  /** The bytes sealed in an envelope: a serialised payload, or bytes that do not parse. */
  datatype Plaintext = Json(payload: Payload) | Unparsable(bytes: seq<bv8>)

  datatype Ciphertext = Sealed(key: Key, plaintext: Plaintext) | Junk(bytes: seq<bv8>)

  datatype CryptoError = DecryptionFailed | TooManySkipped

  function EncryptMessage(key: Key, plaintext: Plaintext): Ciphertext {
    Sealed(key, plaintext)
  }

  function DecryptMessage(key: Key, c: Ciphertext): Result<Plaintext, CryptoError> {
    if c.Sealed? && c.key == key then Ok(c.plaintext) else Err(DecryptionFailed)
  }

  /** The chain key `n` steps after `chain`. */
  function Advance(chain: Key, n: nat): Key {
    if n == 0 then chain else ChainNext(Advance(chain, n - 1))
  }

  lemma {:induction false} AdvanceAdd(chain: Key, i: nat, j: nat)
    ensures Advance(Advance(chain, i), j) == Advance(chain, i + j)
  {
    if j > 0 { AdvanceAdd(chain, i, j - 1); }
  }

  /** How many root steps lie below a root key. */
  function RootLevel(k: Key): nat {
    match k
    case RootOf(r, _) => 1 + RootLevel(r)
    case _ => 0
  }

  /** How many chain steps lie below a chain key. */
  function ChainLevel(k: Key): nat {
    match k
    case ChainNext(c) => 1 + ChainLevel(c)
    case _ => 0
  }

  /** The root level of the root key a chain was started from. */
  function StartLevel(k: Key): nat {
    match k
    case ChainNext(c) => StartLevel(c)
    case ChainStart(r, _) => RootLevel(r)
    case _ => 0
  }

  lemma {:induction false} AdvanceLevels(start: Key, n: nat)
    requires start.ChainStart?
    ensures ChainLevel(Advance(start, n)) == n
    ensures StartLevel(Advance(start, n)) == RootLevel(start.root)
  {
    if n > 0 { AdvanceLevels(start, n - 1); }
  }
}
