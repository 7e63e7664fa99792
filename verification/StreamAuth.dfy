/** Authentication of the mixed stage stream (src-tauri/src/stage/auth.rs): the host chains a
    hash over its frames and signs it every 50 frames; a listener adopts the first verified
    checkpoint and checks the chain from there. Bytes are symbolic where they come from the
    hash or a signature, so that both are injective. */
module StreamAuth {
  import opened Wrappers

  datatype Byte =
    | Raw(value: nat)
    | HashByte(input: seq<Byte>, position: nat)
    | SigByte(key: nat, message: seq<Byte>, position: nat)

  type Bytes = seq<Byte>

  const HASH_SIZE: nat := 32
  const SIGNATURE_SIZE: nat := 64
  const CHECKPOINT_EXTRA: nat := 96
  const CHECKPOINT_INTERVAL: nat := 50
  const TAG_NORMAL: nat := 0
  const TAG_CHECKPOINT: nat := 1

  /** The first `n` bytes of a hash, a signature, and zeros. */
  function HashBytes(input: Bytes, n: nat): (h: Bytes)
    ensures |h| == n && forall i :: 0 <= i < n ==> h[i] == HashByte(input, i)
  {
    if n == 0 then [] else HashBytes(input, n - 1) + [HashByte(input, n - 1)]
  }

  function SignatureBytes(key: nat, message: Bytes, n: nat): (s: Bytes)
    ensures |s| == n && forall i :: 0 <= i < n ==> s[i] == SigByte(key, message, i)
  {
    if n == 0 then [] else SignatureBytes(key, message, n - 1) + [SigByte(key, message, n - 1)]
  }

  function Zeros(n: nat): (z: Bytes)
    ensures |z| == n && forall i :: 0 <= i < n ==> z[i] == Raw(0)
  {
    if n == 0 then [] else Zeros(n - 1) + [Raw(0)]
  }

  function Sha256(input: Bytes): (h: Bytes)
    ensures |h| == 32
  {
    HashBytes(input, HASH_SIZE)
  }

  function Sign(key: nat, message: Bytes): (s: Bytes)
    ensures |s| == 64
  {
    SignatureBytes(key, message, SIGNATURE_SIZE)
  }

  predicate Verifies(key: nat, message: Bytes, signature: Bytes) {
    signature == Sign(key, message)
  }

  /** A signature is good for one key and one message. */
  lemma SignatureBinds(key: nat, message: Bytes, key': nat, message': Bytes)
    ensures Verifies(key, message, Sign(key, message))
    ensures Verifies(key', message', Sign(key, message)) ==> key' == key && message' == message
  {
    assert Sign(key, message)[0] == SigByte(key, message, 0);
    assert Sign(key', message')[0] == SigByte(key', message', 0);
  }

  lemma HashBinds(input: Bytes, input': Bytes)
    ensures Sha256(input) == Sha256(input') ==> input == input'
  {
    assert Sha256(input)[0] == HashByte(input, 0) && Sha256(input')[0] == HashByte(input', 0);
  }

  function ZeroHash(): (h: Bytes)
    ensures |h| == 32 && forall i :: 0 <= i < 32 ==> h[i] == Raw(0)
  {
    Zeros(HASH_SIZE)
  }

  function Extend(hash: Bytes, opus: Bytes): (h: Bytes)
    ensures |h| == HASH_SIZE
  {
    Sha256(hash + opus)
  }

  datatype Checkpoint = Checkpoint(hash: Bytes, signature: Bytes)

  /** A frame on the wire: its tag byte and its payload. */
  datatype Wire = Wire(tag: nat, payload: Bytes)

  datatype AuthResult = Accepted | Unverified | Verified | TamperDetected | InvalidSignature

  datatype HostState = HostState(chainHash: Bytes, sequence: nat, key: nat)

  function HostNext(s: HostState, opus: Bytes): (HostState, Wire) {
    var hash := Extend(s.chainHash, opus);
    var s' := HostState(hash, s.sequence + 1, s.key);
    if s'.sequence % CHECKPOINT_INTERVAL == 0 then (s', Wire(TAG_CHECKPOINT, hash + Sign(s.key, hash) + opus))
    else (s', Wire(TAG_NORMAL, opus))
  }

  datatype ListenerState = ListenerState(chainHash: Bytes, verified: bool, compromised: bool, hostKey: nat)

  function VerifyFrame(s: ListenerState, opus: Bytes, tag: nat, checkpoint: Option<Checkpoint>)
    : (ListenerState, AuthResult)
  {
    if s.compromised then (s, TamperDetected)
    else if !s.verified then
      match checkpoint
      case None => (s, Unverified)
      case Some(c) =>
        if Verifies(s.hostKey, c.hash, c.signature) then (s.(chainHash := c.hash, verified := true), Verified)
        else (s.(compromised := true), InvalidSignature)
    else
      var s' := s.(chainHash := Extend(s.chainHash, opus));
      if tag == TAG_NORMAL || checkpoint.None? then (s', Accepted)
      else if s'.chainHash != checkpoint.value.hash then (s'.(compromised := true), TamperDetected)
      else if Verifies(s.hostKey, checkpoint.value.hash, checkpoint.value.signature) then (s', Verified)
      else (s'.(compromised := true), InvalidSignature)
  }

  /** `decode_checkpoint_payload`: too short is an error. */
  function DecodeCheckpoint(payload: Bytes): Option<(Checkpoint, Bytes)> {
    if |payload| < CHECKPOINT_EXTRA then None
    else Some((Checkpoint(payload[..HASH_SIZE], payload[HASH_SIZE..CHECKPOINT_EXTRA]), payload[CHECKPOINT_EXTRA..]))
  }

  /** The listener's split of a wire frame; a malformed checkpoint is dropped. */
  function Split(w: Wire): Option<(Option<Checkpoint>, Bytes)> {
    if w.tag == TAG_CHECKPOINT then
      match DecodeCheckpoint(w.payload)
      case None => None
      case Some((c, opus)) => Some((Some(c), opus))
    else Some((None, w.payload))
  }

  /** One received wire frame: `None` when it is dropped unseen. */
  function Hear(s: ListenerState, w: Wire): (ListenerState, Option<AuthResult>) {
    match Split(w)
    case None => (s, None)
    case Some((checkpoint, opus)) =>
      var (s', r) := VerifyFrame(s, opus, w.tag, checkpoint);
      (s', Some(r))
  }

  // ---- In place ------------------------------------------------------------------

  class HostAuthState {
    var chainHash: Bytes
    var sequence: nat
    const signingKey: nat

    function View(): HostState
      reads this
    {
      HostState(chainHash, sequence, signingKey)
    }

    constructor (signingKey: nat)
      ensures View() == HostState(ZeroHash(), 0, signingKey)
    {
      chainHash, sequence := ZeroHash(), 0;
      this.signingKey := signingKey;
    }

    method Process(opus: Bytes) returns (w: Wire)
      modifies this
      ensures (View(), w) == HostNext(old(View()), opus)
    {
      chainHash := Extend(chainHash, opus);
      sequence := sequence + 1;
      if sequence % CHECKPOINT_INTERVAL == 0 {
        var signature := Sign(signingKey, chainHash);
        w := Wire(TAG_CHECKPOINT, chainHash + signature + opus);
      } else {
        w := Wire(TAG_NORMAL, opus);
      }
    }
  }

  class ListenerAuthState {
    var chainHash: Bytes
    var verified: bool
    var compromised: bool
    const hostKey: nat

    function View(): ListenerState
      reads this
    {
      ListenerState(chainHash, verified, compromised, hostKey)
    }

    constructor (hostKey: nat)
      ensures View() == NewListener(hostKey)
    {
      chainHash, verified, compromised := ZeroHash(), false, false;
      this.hostKey := hostKey;
    }

    method Check(opus: Bytes, tag: nat, checkpoint: Option<Checkpoint>) returns (r: AuthResult)
      modifies this
      ensures (View(), r) == VerifyFrame(old(View()), opus, tag, checkpoint)
    {
      if compromised {
        return TamperDetected;
      }
      if !verified {
        if checkpoint.None? {
          return Unverified;
        }
        if Verifies(hostKey, checkpoint.value.hash, checkpoint.value.signature) {
          chainHash := checkpoint.value.hash;
          verified := true;
          return Verified;
        }
        compromised := true;
        return InvalidSignature;
      }
      chainHash := Extend(chainHash, opus);
      if tag == TAG_NORMAL || checkpoint.None? {
        return Accepted;
      }
      if chainHash != checkpoint.value.hash {
        compromised := true;
        return TamperDetected;
      }
      if Verifies(hostKey, checkpoint.value.hash, checkpoint.value.signature) {
        return Verified;
      }
      compromised := true;
      r := InvalidSignature;
    }
  }

  function NewListener(hostKey: nat): ListenerState {
    ListenerState(ZeroHash(), false, false, hostKey)
  }

  /** The listener's receive loop over one connection: it stops at the first fatal result. */
  method Listen(auth: ListenerAuthState, wires: seq<Wire>) returns (results: seq<AuthResult>, played: seq<Bytes>)
    modifies auth
    ensures (auth.View(), results, played) == Heard(old(auth.View()), wires)
  {
    results, played := [], [];
    var i := 0;
    assert wires[0..] == wires;
    ghost var all := Heard(auth.View(), wires);
    assert [] + all.1 == all.1 && [] + all.2 == all.2;
    while i < |wires|
      invariant i <= |wires|
      invariant Joined(results, played, Heard(auth.View(), wires[i..])) == Heard(old(auth.View()), wires)
    {
      var w := wires[i];
      assert wires[i..][0] == w && wires[i..][1..] == wires[i + 1..];
      ghost var before := (results, played);
      ghost var rest := Heard(auth.View(), wires[i..]);
      i := i + 1;
      var split := Split(w);
      if split.Some? {
        var r := auth.Check(split.value.1, w.tag, split.value.0);
        results := results + [r];
        if r.TamperDetected? || r.InvalidSignature? {
          assert played + [] == played;
          return;
        }
        played := played + [split.value.1];
        ghost var after := Heard(auth.View(), wires[i..]);
        assert before.0 + ([r] + after.1) == results + after.1;
        assert before.1 + ([split.value.1] + after.2) == played + after.2;
      }
    }
    assert results + [] == results && played + [] == played;
  }

  function Joined(results: seq<AuthResult>, played: seq<Bytes>, rest: (ListenerState, seq<AuthResult>, seq<Bytes>))
    : (ListenerState, seq<AuthResult>, seq<Bytes>)
  {
    (rest.0, results + rest.1, played + rest.2)
  }

  /** Final state, results and played audio of a connection that receives `wires`. */
  function Heard(s: ListenerState, wires: seq<Wire>): (ListenerState, seq<AuthResult>, seq<Bytes>)
    decreases |wires|
  {
    if wires == [] then (s, [], [])
    else
      match Split(wires[0])
      case None => Heard(s, wires[1..])
      case Some((checkpoint, opus)) =>
        var (s', r) := VerifyFrame(s, opus, wires[0].tag, checkpoint);
        if r.TamperDetected? || r.InvalidSignature? then (s', [r], [])
        else Joined([r], [opus], Heard(s', wires[1..]))
  }
}
