/** Runs of one conversation: two parties, any interleaving of sends, and a network that
    may lose, reorder, repeat and corrupt envelopes. */
module RatchetRuns {
  import opened Wrappers
  import opened SymbolicCrypto
  import opened Ratchet
  import opened DmSessions

  datatype Role = Alice | Bob

  function Other(r: Role): Role {
    if r.Alice? then Bob else Alice
  }

  /** An envelope as it was sent, with its payload and the sender's ratchet step. */
  datatype Sent = Sent(envelope: Envelope, payload: Payload, step: nat)

  /** A party: its stored session, its ratchet step (Alice's are odd, Bob's even), what it
      has sent, and which of the peer's envelopes it has accepted, by index. */
  datatype Party = Party(session: Session, step: nat, sent: seq<Sent>, accepted: set<nat>)

  /** `nextKey` is the name of the next generated private key. */
  datatype Net = Net(alice: Party, bob: Party, nextKey: nat) {
    function Get(r: Role): Party {
      if r.Alice? then alice else bob
    }

    function Put(r: Role, p: Party): Net {
      if r.Alice? then this.(alice := p) else this.(bob := p)
    }
  }

  datatype Event =
    | Send(from: Role, payload: Payload)
    | Deliver(to: Role, index: nat)
    | Corrupt(to: Role, header: Header, bytes: seq<bv8>)

  /** The keys the two parties start from after the handshake. */
  datatype Setup = Setup(shared: nat, bobPrivate: nat, alicePrivate: nat)

  function Max(a: nat, b: nat): nat {
    if a < b then b else a
  }

  function Start(k: Setup): Net {
    Net(Party(InitAlice(Handshake(k.shared), PublicOf(k.bobPrivate), k.alicePrivate), 1, [], {}),
        Party(InitBob(Handshake(k.shared), k.bobPrivate), 0, [], {}),
        Max(k.bobPrivate, k.alicePrivate) + 1)
  }

  function SendFrom(p: Party, payload: Payload): Party {
    match Seal(p.session, payload)
    case Err(_) => p
    case Ok((s, e)) => p.(session := s, sent := p.sent + [Sent(e, payload, p.step)])
  }

  /** The receiver after an envelope arrives: unchanged unless it is received. */
  function ReceiveAt(p: Party, e: Envelope, generated: nat): Party {
    match Receive(p.session, true, e, generated)
    case Err(_) => p
    case Ok((s, _)) =>
      p.(session := s, step := if s.remotePublic == p.session.remotePublic then p.step else p.step + 2)
  }

  function Step(net: Net, ev: Event): Net {
    match ev
    case Send(from, payload) => net.Put(from, SendFrom(net.Get(from), payload))
    case Deliver(to, i) =>
      var me, peer := net.Get(to), net.Get(Other(to));
      if i < |peer.sent| then
        var e := peer.sent[i].envelope;
        var me' := ReceiveAt(me, e, net.nextKey);
        var accepted := if Receive(me.session, true, e, net.nextKey).Ok? then me.accepted + {i} else me.accepted;
        net.Put(to, me'.(accepted := accepted)).(nextKey := net.nextKey + 1)
      else net
    case Corrupt(to, header, bytes) =>
      net.Put(to, ReceiveAt(net.Get(to), Envelope(header, Junk(bytes)), net.nextKey)).(nextKey := net.nextKey + 1)
  }

  function Run(k: Setup, events: seq<Event>): Net {
    if events == [] then Start(k)
    else Step(Run(k, events[..|events| - 1]), events[|events| - 1])
  }
}
