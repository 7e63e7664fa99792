/** The direct-message handler around the ratchet: load the stored session, work on a
    copy, and save the copy only on success (src-tauri/src/dm/incoming.rs, dm/crypto.rs). */
module DmSessions {
  import opened Wrappers
  import opened SymbolicCrypto
  import opened Ratchet

  datatype DmError =
    | NoSession
    | Crypto(error: CryptoError)
    | BadPayload
    | NoMasterKey
    | NoSendingChain

  datatype Envelope = Envelope(header: Header, ciphertext: Ciphertext)

  datatype StoredMessage = StoredMessage(from: string, content: string)

  /** The session to save and the payload to deliver, or the error that saves nothing. */
  function Receive(s: Session, masterKnown: bool, e: Envelope, generated: nat): Result<(Session, Payload), DmError> {
    var (s', r) := Decrypt(s, e.header, e.ciphertext, generated);
    match r
    case Err(error) => Err(Crypto(error))
    case Ok(Unparsable(_)) => Err(BadPayload)
    case Ok(Json(p)) => if p.Message? && !masterKnown then Err(NoMasterKey) else Ok((s', p))
  }

  /** The envelope a session seals; the source panics, saving nothing, without a sending chain. */
  function Seal(s: Session, p: Payload): Result<(Session, Envelope), DmError> {
    if s.chainSend.None? then Err(NoSendingChain)
    else Ok((EncryptStep(s), Envelope(HeaderOf(s), Sealed(MessageKey(s.chainSend.value), Json(p)))))
  }

  /** What a delivery comes to, in terms of the decryption alone: it succeeds exactly if the
      plaintext is a payload, and one that is not a message or comes from a known sender; then the
      session the decryption left is saved. Every other case has its own error. */
  lemma ReceiveExactly(s: Session, masterKnown: bool, e: Envelope, generated: nat)
    ensures var (left, plaintext) := Decrypt(s, e.header, e.ciphertext, generated);
      var r := Receive(s, masterKnown, e, generated);
      && (r.Ok? <==> plaintext.Ok? && plaintext.value.Json? && (!plaintext.value.payload.Message? || masterKnown))
      && (r.Ok? ==> r.value == (left, plaintext.value.payload))
      && (plaintext.Err? ==> r == Err(Crypto(plaintext.error)))
      && (plaintext.Ok? && plaintext.value.Unparsable? ==> r == Err(BadPayload))
      && (plaintext.Ok? && plaintext.value.Json? && plaintext.value.payload.Message? && !masterKnown
          ==> r == Err(NoMasterKey))
  {
  }

  /** Only messages need a known sender: for any other payload the outcome is the same without. */
  lemma SenderMattersForMessages(s: Session, e: Envelope, generated: nat)
    ensures Receive(s, true, e, generated) == Receive(s, false, e, generated) <==>
      !(Receive(s, true, e, generated).Ok? && Receive(s, true, e, generated).value.1.Message?)
  {
  }

  /** Sealing fails exactly without a sending chain. */
  lemma SealExactly(s: Session, p: Payload)
    ensures s.chainSend.None? ==> Seal(s, p) == Err(NoSendingChain)
    ensures s.chainSend.Some? ==> Seal(s, p).Ok?
    ensures Seal(s, p).Ok? ==> var (s', e) := Seal(s, p).value;
      && e.header == Header(s.selfPublic, s.sendCount, s.prevSendCount)
      && e.ciphertext == Sealed(KdfCk(s.chainSend.value).1, Json(p))
      && s' == s.(chainSend := Some(KdfCk(s.chainSend.value).0), sendCount := s.sendCount + 1)
  {
  }

  class DmHandler {
    /** Stored ratchet sessions, by the peer's DM key. */
    var sessions: map<string, Session>
    /** Known master keys, by DM key. */
    var masterOf: map<string, string>
    /** Stored messages, by id. */
    var messages: map<string, StoredMessage>

    constructor (masterOf: map<string, string>)
      ensures sessions == map[] && messages == map[] && this.masterOf == masterOf
    {
      sessions, messages := map[], map[];
      this.masterOf := masterOf;
    }

    method HandleEncryptedMessage(sender: string, e: Envelope, generated: nat) returns (r: Result<Payload, DmError>)
      modifies this`sessions, this`messages
      ensures sender !in old(sessions) ==> r == Err(NoSession)
      ensures sender in old(sessions) ==>
        var received := Receive(old(sessions)[sender], sender in masterOf, e, generated);
        r == match received case Err(error) => Err(error) case Ok((_, p)) => Ok(p)
      ensures r.Err? ==> sessions == old(sessions) && messages == old(messages)
      ensures r.Ok? ==>
        && sessions == old(sessions)[sender := Receive(old(sessions)[sender], sender in masterOf, e, generated).value.0]
        && messages == if r.value.Message? && r.value.id !in old(messages)
                       then old(messages)[r.value.id := StoredMessage(masterOf[sender], r.value.content)]
                       else old(messages)
    {
      if sender !in sessions {
        return Err(NoSession);
      }
      var ratchet := new RatchetState.Load(sessions[sender]);
      var plaintext := ratchet.DecryptInPlace(e.header, e.ciphertext, generated);
      if plaintext.Err? {
        return Err(Crypto(plaintext.error));
      }
      if plaintext.value.Unparsable? {
        return Err(BadPayload);
      }
      var payload := plaintext.value.payload;
      if payload.Message? {
        if sender !in masterOf {
          return Err(NoMasterKey);
        }
        sessions := sessions[sender := ratchet.View()];
        if payload.id !in messages {
          messages := messages[payload.id := StoredMessage(masterOf[sender], payload.content)];
        }
      } else {
        sessions := sessions[sender := ratchet.View()];
      }
      r := Ok(payload);
    }

    method EncryptAndSave(peer: string, p: Payload) returns (r: Result<Envelope, DmError>)
      modifies this`sessions
      ensures peer !in old(sessions) ==> r == Err(NoSession)
      ensures peer in old(sessions) ==>
        r == match Seal(old(sessions)[peer], p) case Err(error) => Err(error) case Ok((_, e)) => Ok(e)
      ensures r.Err? ==> sessions == old(sessions)
      ensures r.Ok? ==> sessions == old(sessions)[peer := Seal(old(sessions)[peer], p).value.0]
    {
      if peer !in sessions {
        return Err(NoSession);
      }
      var ratchet := new RatchetState.Load(sessions[peer]);
      if ratchet.chainKeySend.None? {
        return Err(NoSendingChain);
      }
      var h, c := ratchet.Encrypt(Json(p));
      sessions := sessions[peer := ratchet.View()];
      r := Ok(Envelope(h, c));
    }
  }
}
