/** Altered headers. The source seals without associated data, so the network can deliver an
    honest ciphertext under another header. Such a delivery is rejected, or does what the honest
    one would, unless it opens the first message of a new chain and names another length for
    the previous chain. */
module RatchetHeaders {
  import opened Wrappers
  import opened SymbolicCrypto
  import opened Ratchet
  import opened DmSessions
  import opened RatchetRuns
  import opened RatchetInvariant
  import opened RatchetReceive
  import opened RatchetSafety
  import opened RatchetTheorems
  import opened RatchetReplay

  lemma {:induction false} AdvanceInjective(a: Key, b: Key, n: nat)
    requires Advance(a, n) == Advance(b, n)
    ensures a == b
  {
    if n > 0 { AdvanceInjective(a, b, n - 1); }
  }

  /** A stored key opens only its own message, whose header it names. */
  lemma StoredOpens(h: History, p: Party, sent: seq<Sent>, i: nat, hd: Header)
    requires Facing(h, p, sent) && i < |sent|
    requires FindSkipped(p.session.skipped, hd).Some?
    requires sent[i].envelope.ciphertext.Sealed?
    requires p.session.skipped[FindSkipped(p.session.skipped, hd).value].messageKey == sent[i].envelope.ciphertext.key
    ensures FindSkipped(p.session.skipped, sent[i].envelope.header) == FindSkipped(p.session.skipped, hd)
  {
    var x := p.session.skipped[FindSkipped(p.session.skipped, hd).value];
    var cc, n := sent[i].step - 1, Number(sent[i]);
    Locate(h, p, sent, i);
    assert Owned(h, p.step, p.session.recvCount, p.accepted, x);
    var c: nat :| IsEntry(h, p.step, p.session.recvCount, p.accepted, c, x);
    ChainsDiffer(h, c, x.number, Chain(h, c, x.number));
    ChainsDiffer(h, cc, n, Chain(h, cc, n));
    SameNames(p.session.skipped, hd, sent[i].envelope.header);
  }

  lemma {:induction false} SameNames(keys: seq<SkippedKey>, a: Header, b: Header)
    requires a.dhPublic == b.dhPublic && a.number == b.number
    ensures FindSkipped(keys, a) == FindSkipped(keys, b)
  {
    if keys != [] { SameNames(keys[1..], a, b); }
  }

  /** On the current chain a ciphertext opens under a header for its own number, or when it is the
      next one; either way the honest header would have done the same. */
  lemma CurrentOpens(h: History, p: Party, sent: seq<Sent>, i: nat, hd: Header)
    requires Facing(h, p, sent) && i < |sent|
    requires FindSkipped(p.session.skipped, hd).None? && p.session.remotePublic == Some(hd.dhPublic)
    requires OpenOnChain(p.session, hd, sent[i].envelope.ciphertext).1.Ok?
    ensures sent[i].step + 1 == p.step && Number(sent[i]) >= p.session.recvCount
    ensures OpenOnChain(p.session, hd, sent[i].envelope.ciphertext)
         == OpenOnChain(p.session, sent[i].envelope.header, sent[i].envelope.ciphertext)
  {
    Locate(h, p, sent, i);
    OpensOnly(h, p.session, p.step, sent[i].step - 1, Number(sent[i]), hd, sent[i].envelope.header, sent[i].payload);
  }

  lemma OpensOnly(h: History, s: Session, t: nat, c: nat, n: nat, hd: Header, honest: Header, payload: Payload)
    requires SessionInv(h, t, s) && c + 1 < |h.keys| && honest.number == n
    requires OpenOnChain(s, hd, Sealed(MessageKey(Chain(h, c, n)), Json(payload))).1.Ok?
    ensures c + 2 == t && n >= s.recvCount
    ensures OpenOnChain(s, hd, Sealed(MessageKey(Chain(h, c, n)), Json(payload)))
         == OpenOnChain(s, honest, Sealed(MessageKey(Chain(h, c, n)), Json(payload)))
  {
    var m := Max(hd.number, s.recvCount);
    SkipClosed(s, hd.number);
    SkipClosed(s, n);
    if t >= 2 {
      AdvanceAdd(Begin(h, t - 2), s.recvCount, m - s.recvCount);
      ChainsDiffer(h, t - 2, m, Chain(h, t - 2, m));
      ChainsDiffer(h, c, n, Chain(h, c, n));
    }
  }

  /** After a ratchet step a ciphertext opens only as a message of the peer's next chain, under
      the peer's new public key and its own number. */
  lemma NextOpens(h: History, p: Party, sent: seq<Sent>, i: nat, s: Session, hd: Header, generated: nat)
    requires Facing(h, p, sent) && i < |sent|
    requires s.rootKey == p.session.rootKey && s.selfPrivate == p.session.selfPrivate
    requires OpenOnChain(DhStep(s, hd.dhPublic, generated), hd, sent[i].envelope.ciphertext).1.Ok?
    ensures sent[i].step == p.step + 1
    ensures hd.dhPublic == sent[i].envelope.header.dhPublic && hd.number == Number(sent[i])
  {
    Locate(h, p, sent, i);
    var t, cc, n := p.step, sent[i].step - 1, Number(sent[i]);
    var turned := DhStep(s, hd.dhPublic, generated);
    var start := turned.chainRecv.value;
    SkipClosed(turned, hd.number);
    RootLevels(h, t);
    AdvanceLevels(start, hd.number);
    ChainsDiffer(h, cc, n, Chain(h, cc, n));
    assert Advance(start, hd.number) == Chain(h, cc, n);
    AdvanceInjective(start, Begin(h, cc), n);
    assert Dh(h.keys[t], hd.dhPublic) == Shared({h.keys[t], h.keys[t + 1]});
    OwnerOf(h.keys[t], hd.dhPublic, h.keys[t + 1]);
  }

  lemma OwnerOf(mine: nat, theirs: Public, other: nat)
    requires Dh(mine, theirs) == Shared({mine, other}) && mine != other
    ensures theirs == PublicOf(other)
  {
    assert theirs.PublicOf?;
    assert other in {mine, theirs.owner};
  }

  /** A delivery under another header that opens does what the honest delivery does, unless it is
      the first of a new chain and only the length of the previous chain was changed. */
  lemma AlteredHeader(h: History, p: Party, sent: seq<Sent>, i: nat, hd: Header, generated: nat)
    requires Facing(h, p, sent) && i < |sent|
    requires Decrypt(p.session, hd, sent[i].envelope.ciphertext, generated).1.Ok?
    ensures var honest := sent[i].envelope.header;
      || Decrypt(p.session, hd, sent[i].envelope.ciphertext, generated)
         == Decrypt(p.session, honest, sent[i].envelope.ciphertext, generated)
      || (sent[i].step == p.step + 1 && hd == honest.(previousLength := hd.previousLength))
  {
    Locate(h, p, sent, i);
    var s, c := p.session, sent[i].envelope.ciphertext;
    if FindSkipped(s.skipped, hd).Some? {
      StoredOpens(h, p, sent, i, hd);
    } else if s.remotePublic == Some(hd.dhPublic) {
      CurrentOpens(h, p, sent, i, hd);
      FindPending(h, p, sent[i].step - 1, Number(sent[i]), sent[i].envelope.header.previousLength);
    } else {
      SkipClosed(s, hd.previousLength);
      NextOpens(h, p, sent, i, Skip(s, hd.previousLength), hd, generated);
    }
  }

  // ---- Runs with altered headers -----------------------------------------------------

  /** A step of the network: an event, or an honest ciphertext under another header. */
  datatype Move = Plain(event: Event) | Altered(to: Role, index: nat, header: Header)

  function MoveStep(net: Net, m: Move): Net {
    match m
    case Plain(ev) => Step(net, ev)
    case Altered(to, i, hd) =>
      var me, sent := net.Get(to), net.Get(Other(to)).sent;
      if i < |sent| then
        var e := Envelope(hd, sent[i].envelope.ciphertext);
        var accepted := if Receive(me.session, true, e, net.nextKey).Ok? then me.accepted + {i} else me.accepted;
        net.Put(to, ReceiveAt(me, e, net.nextKey).(accepted := accepted)).(nextKey := net.nextKey + 1)
      else net
  }

  function MoveRun(k: Setup, moves: seq<Move>): Net {
    if moves == [] then Start(k)
    else MoveStep(MoveRun(k, moves[..|moves| - 1]), moves[|moves| - 1])
  }

  /** The message begins a new chain for its receiver. */
  predicate Turning(net: Net, to: Role, i: nat) {
    i < |net.Get(Other(to)).sent| && net.Get(Other(to)).sent[i].step == net.Get(to).step + 1
  }

  /** Whatever else a header says, it keeps the previous length of a message that begins a chain. */
  predicate KeepsLength(net: Net, m: Move) {
    m.Altered? && Turning(net, m.to, m.index) ==>
      m.header.previousLength == net.Get(Other(m.to)).sent[m.index].envelope.header.previousLength
  }

  predicate KeepLengths(k: Setup, moves: seq<Move>) {
    forall n :: 0 <= n < |moves| ==> KeepsLength(MoveRun(k, moves[..n]), moves[n])
  }

  /** The honest event with the same effect. */
  function HonestEvent(net: Net, m: Move): Event {
    match m
    case Plain(ev) => ev
    case Altered(to, i, hd) =>
      var sent := net.Get(Other(to)).sent;
      if i < |sent| && Receive(net.Get(to).session, true, Envelope(hd, sent[i].envelope.ciphertext), net.nextKey).Err?
      then Corrupt(to, hd, [])
      else Deliver(to, i)
  }

  function HonestEvents(k: Setup, moves: seq<Move>): seq<Event> {
    if moves == [] then []
    else
      var before := moves[..|moves| - 1];
      HonestEvents(k, before) + [HonestEvent(MoveRun(k, before), moves[|moves| - 1])]
  }

  lemma AlteredReceive(h: History, p: Party, sent: seq<Sent>, i: nat, hd: Header, generated: nat)
    requires Facing(h, p, sent) && i < |sent|
    requires sent[i].step == p.step + 1 ==> hd.previousLength == sent[i].envelope.header.previousLength
    ensures var altered := Receive(p.session, true, Envelope(hd, sent[i].envelope.ciphertext), generated);
      altered.Ok? ==> altered == Receive(p.session, true, sent[i].envelope, generated)
  {
    if Decrypt(p.session, hd, sent[i].envelope.ciphertext, generated).1.Ok? {
      AlteredHeader(h, p, sent, i, hd, generated);
    }
  }

  lemma HonestStep(net: Net, h: History, m: Move)
    requires Inv(net, h) && KeepsLength(net, m)
    ensures MoveStep(net, m) == Step(net, HonestEvent(net, m))
  {
    if m.Altered? && m.index < |net.Get(Other(m.to)).sent| {
      FacingAt(net, h, m.to);
      AlteredReceive(h, net.Get(m.to), net.Get(Other(m.to)).sent, m.index, m.header, net.nextKey);
      JunkRejected(net.Get(m.to).session, m.header, [], net.nextKey);
    }
  }

  /** Every run with altered headers that keep the lengths is an honest run, so that everything
      proved of honest runs holds of it. */
  lemma {:induction false} AlteredRunsAreHonest(k: Setup, moves: seq<Move>)
    requires k.bobPrivate != k.alicePrivate && KeepLengths(k, moves)
    ensures MoveRun(k, moves) == Run(k, HonestEvents(k, moves))
  {
    if moves != [] {
      var before := moves[..|moves| - 1];
      forall n | 0 <= n < |before|
        ensures KeepsLength(MoveRun(k, before[..n]), before[n])
      {
        assert before[..n] == moves[..n];
      }
      AlteredRunsAreHonest(k, before);
      RunsKeepInv(k, HonestEvents(k, before));
      HonestStep(MoveRun(k, before), HistoryOf(k, HonestEvents(k, before)), moves[|moves| - 1]);
    }
  }

  lemma {:induction false} HonestAppend(k: Setup, moves: seq<Move>, more: seq<Move>)
    ensures HonestEvents(k, moves) <= HonestEvents(k, moves + more)
    decreases |more|
  {
    if more == [] {
      assert moves + more == moves;
    } else {
      HonestAppend(k, moves, more[..|more| - 1]);
      assert (moves + more)[..|moves + more| - 1] == moves + more[..|more| - 1];
    }
  }

  lemma KeepLengthsPrefix(k: Setup, moves: seq<Move>, more: seq<Move>)
    requires KeepLengths(k, moves + more)
    ensures KeepLengths(k, moves)
  {
    forall n | 0 <= n < |moves|
      ensures KeepsLength(MoveRun(k, moves[..n]), moves[n])
    {
      assert (moves + more)[..n] == moves[..n] && (moves + more)[n] == moves[n];
    }
  }

  ghost predicate NetStillDue(net: Net, net': Net, to: Role, i: nat) {
    && i < |net.Get(Other(to)).sent|
    && StillDue(net.Get(to), net.Get(Other(to)).sent, net'.Get(to), net'.Get(Other(to)).sent, i)
  }

  lemma DueLater(k: Setup, events: seq<Event>, later: seq<Event>, to: Role, i: nat)
    requires k.bobPrivate != k.alicePrivate && events <= later
    requires i < |Run(k, events).Get(Other(to)).sent|
    ensures NetStillDue(Run(k, events), Run(k, later), to, i)
  {
    DeliverableStays(k, events, later[|events|..], to, i);
    assert events + later[|events|..] == later;
  }

  /** Deliverability survives such headers. */
  lemma DeliverableUnderAltered(k: Setup, moves: seq<Move>, more: seq<Move>, to: Role, i: nat)
    requires k.bobPrivate != k.alicePrivate && KeepLengths(k, moves + more)
    requires i < |MoveRun(k, moves).Get(Other(to)).sent|
    ensures NetStillDue(MoveRun(k, moves), MoveRun(k, moves + more), to, i)
  {
    KeepLengthsPrefix(k, moves, more);
    AlteredRunsAreHonest(k, moves);
    AlteredRunsAreHonest(k, moves + more);
    HonestAppend(k, moves, more);
    DueLater(k, HonestEvents(k, moves), HonestEvents(k, moves + more), to, i);
  }

  // ---- What a wrong length does ---------------------------------------------------------

  /** The receiver opens the peer's first message of a new chain, under a header that gives
      `length` for the previous chain. */
  ghost predicate OpensTurn(h: History, p: Party, sent: seq<Sent>, i: nat, length: nat) {
    && Facing(h, p, sent) && i < |sent| && sent[i].step == p.step + 1
    && !TooFar(p.session, length) && Number(sent[i]) <= MAX_SKIP
  }

  /** The envelope with another length for the previous chain. */
  function Relabelled(e: Envelope, length: nat): Envelope {
    e.(header := e.header.(previousLength := length))
  }

  function DecryptUnder(p: Party, e: Sent, length: nat, generated: nat): (Session, Result<Plaintext, CryptoError>) {
    Decrypt(p.session, Relabelled(e.envelope, length).header, e.envelope.ciphertext, generated)
  }

  /** Its session afterwards. */
  function TurnedAt(p: Party, sent: seq<Sent>, i: nat, length: nat, generated: nat): Session
    requires i < |sent|
  {
    DecryptUnder(p, sent[i], length, generated).0
  }

  /** Where the closing skip stops, and the keys it stores. */
  function ClosedAt(p: Party, length: nat): nat {
    Max(p.session.recvCount, length)
  }

  function ClosingKeys(h: History, p: Party, length: nat): seq<SkippedKey>
    requires p.step < |h.keys|
  {
    if p.step < 2 then [] else Passing(h, p.step - 2, p.session.recvCount, ClosedAt(p, length))
  }

  lemma ClosingSkip(h: History, p: Party, length: nat)
    requires PartyInv(h, p) && !TooFar(p.session, length)
    ensures Skip(p.session, length).skipped == p.session.skipped + ClosingKeys(h, p, length)
    ensures var s := Skip(p.session, length); s.rootKey == p.session.rootKey && s.selfPrivate == p.session.selfPrivate
  {
    SkipClosed(p.session, length);
    if p.step >= 2 && length >= p.session.recvCount { SkipOnChain(h, p.session, p.step - 2, length); }
  }

  /** The session after the turn: the closing keys and those of the new chain are added, and the
      new chain stands right after the message. */
  lemma TurnExactly(h: History, p: Party, sent: seq<Sent>, i: nat, length: nat, generated: nat)
    requires OpensTurn(h, p, sent, i, length)
    ensures p.step + 2 == |h.keys|
    ensures DecryptUnder(p, sent[i], length, generated).1 == Ok(Json(sent[i].payload))
    ensures var s := TurnedAt(p, sent, i, length, generated);
      && s.skipped == p.session.skipped + ClosingKeys(h, p, length) + Passing(h, p.step, 0, Number(sent[i]))
      && s.recvCount == Number(sent[i]) + 1
      && s.chainRecv == Some(Chain(h, p.step, Number(sent[i]) + 1))
      && s.remotePublic == Some(PublicOf(h.keys[p.step + 1]))
  {
    Locate(h, p, sent, i);
    var t, hd := p.step, sent[i].envelope.header.(previousLength := length);
    FindPending(h, p, t, hd.number, hd.previousLength);
    if t >= 1 { assert h.keys[t - 1] != h.keys[t + 1]; }
    ClosingSkip(h, p, length);
    var turned := DhStep(Skip(p.session, length), hd.dhPublic, generated);
    OpenExactly(h, turned, t, hd, sent[i].payload);
  }

  /** The first stored key for a header is `x` if `x` is stored and no other is named so. */
  lemma FindOnly(keys: seq<SkippedKey>, hd: Header, x: SkippedKey)
    requires x in keys && Names(x, hd) && forall y :: y in keys && Names(y, hd) ==> y == x
    ensures FindSkipped(keys, hd).Some? && keys[FindSkipped(keys, hd).value] == x
  {
    var j :| 0 <= j < |keys| && keys[j] == x;
    assert Names(keys[j], hd);
  }

  predicate NamedFor(h: History, y: SkippedKey, c: nat, n: nat)
    requires c + 1 < |h.keys|
  {
    y.ratchetPublic == PublicOf(h.keys[c + 1]) && y.number == n
  }

  /** The keys named like message `n` of chain `c` among the keys passed on chain `d`. */
  lemma PassingNames(h: History, d: nat, from: nat, until: nat, c: nat, n: nat)
    requires Distinct(h.keys) && d + 1 < |h.keys| && c + 1 < |h.keys| && from <= until
    ensures forall y :: y in Passing(h, d, from, until) && NamedFor(h, y, c, n) ==>
      c == d && from <= n < until && y == Entry(h, c, n)
    ensures c == d && from <= n < until ==> Entry(h, c, n) in Passing(h, d, from, until)
  {
    PassingAt(h, d, from, until);
    forall y | y in Passing(h, d, from, until)
      ensures exists m :: from <= m < until && y == Entry(h, d, m)
    {
      var j :| 0 <= j < |Passing(h, d, from, until)| && Passing(h, d, from, until)[j] == y;
      assert y == Entry(h, d, from + j);
    }
    if c == d && from <= n < until { assert Passing(h, d, from, until)[n - from] == Entry(h, c, n); }
  }

  lemma StoredNames(h: History, p: Party, c: nat, n: nat)
    requires PartyInv(h, p) && Distinct(h.keys) && c + 1 < |h.keys|
    ensures forall y :: y in p.session.skipped && NamedFor(h, y, c, n) ==>
      Pending(h, p.step, p.session.recvCount, p.accepted, c, n) && y == Entry(h, c, n)
    ensures Pending(h, p.step, p.session.recvCount, p.accepted, c, n) ==> Entry(h, c, n) in p.session.skipped
  {
    forall y | y in p.session.skipped && NamedFor(h, y, c, n)
      ensures Pending(h, p.step, p.session.recvCount, p.accepted, c, n) && y == Entry(h, c, n)
    {
      assert Owned(h, p.step, p.session.recvCount, p.accepted, y);
      var c': nat :| IsEntry(h, p.step, p.session.recvCount, p.accepted, c', y);
    }
    if Pending(h, p.step, p.session.recvCount, p.accepted, c, n) {
      assert HasEntry(h, c, n, p.session.skipped);
    }
  }

  /** Whether the receiver holds the key of message `n` of chain `c` after the turn. */
  predicate HeldAfter(h: History, p: Party, length: nat, first: nat, c: nat, n: nat) {
    || Pending(h, p.step, p.session.recvCount, p.accepted, c, n)
    || (c + 2 == p.step && p.session.recvCount <= n < ClosedAt(p, length))
    || (c == p.step && n < first)
  }

  lemma InEither(a: seq<SkippedKey>, b: seq<SkippedKey>, c: seq<SkippedKey>)
    ensures forall y :: y in a + b + c <==> y in a || y in b || y in c
  {
  }

  lemma KeysAfterTurn(h: History, p: Party, sent: seq<Sent>, i: nat, length: nat, generated: nat, c: nat, n: nat)
    requires OpensTurn(h, p, sent, i, length) && c + 1 < |h.keys|
    ensures var stored := TurnedAt(p, sent, i, length, generated).skipped;
      && (forall y :: y in stored && NamedFor(h, y, c, n) ==>
            HeldAfter(h, p, length, Number(sent[i]), c, n) && y == Entry(h, c, n))
      && (HeldAfter(h, p, length, Number(sent[i]), c, n) ==> Entry(h, c, n) in stored)
  {
    TurnExactly(h, p, sent, i, length, generated);
    InEither(p.session.skipped, ClosingKeys(h, p, length), Passing(h, p.step, 0, Number(sent[i])));
    StoredNames(h, p, c, n);
    PassingNames(h, p.step, 0, Number(sent[i]), c, n);
    if p.step >= 2 { PassingNames(h, p.step - 2, p.session.recvCount, ClosedAt(p, length), c, n); }
  }

  lemma FoundAfterTurn(h: History, p: Party, sent: seq<Sent>, i: nat, length: nat, generated: nat, c: nat, n: nat,
                       previous: nat)
    requires OpensTurn(h, p, sent, i, length) && c + 1 < |h.keys|
    ensures var stored := TurnedAt(p, sent, i, length, generated).skipped;
      var found := FindSkipped(stored, Header(PublicOf(h.keys[c + 1]), n, previous));
      if HeldAfter(h, p, length, Number(sent[i]), c, n) then found.Some? && stored[found.value] == Entry(h, c, n)
      else found.None?
  {
    var stored, hd := TurnedAt(p, sent, i, length, generated).skipped, Header(PublicOf(h.keys[c + 1]), n, previous);
    KeysAfterTurn(h, p, sent, i, length, generated, c, n);
    if HeldAfter(h, p, length, Number(sent[i]), c, n) {
      FindOnly(stored, hd, Entry(h, c, n));
    }
    var found := FindSkipped(stored, hd);
    assert found.Some? ==> NamedFor(h, stored[found.value], c, n);
  }

  predicate IsEntryOf(h: History, c: nat, y: SkippedKey) {
    c + 1 < |h.keys| && y == Entry(h, c, y.number)
  }

  ghost predicate IsSomeEntry(h: History, y: SkippedKey) {
    exists c: nat :: IsEntryOf(h, c, y)
  }

  lemma PassingAreEntries(h: History, c: nat, from: nat, until: nat, y: SkippedKey)
    requires c + 1 < |h.keys| && from <= until && y in Passing(h, c, from, until)
    ensures IsSomeEntry(h, y)
  {
    PassingAt(h, c, from, until);
    var j :| 0 <= j < |Passing(h, c, from, until)| && Passing(h, c, from, until)[j] == y;
    assert y == Entry(h, c, from + j);
    assert IsEntryOf(h, c, y);
  }

  lemma StoredAreEntries(h: History, p: Party, sent: seq<Sent>, i: nat, length: nat, generated: nat, y: SkippedKey)
    requires OpensTurn(h, p, sent, i, length) && y in TurnedAt(p, sent, i, length, generated).skipped
    ensures IsSomeEntry(h, y)
  {
    TurnExactly(h, p, sent, i, length, generated);
    if y in p.session.skipped {
      assert Owned(h, p.step, p.session.recvCount, p.accepted, y);
      var c: nat :| IsEntry(h, p.step, p.session.recvCount, p.accepted, c, y);
      assert IsEntryOf(h, c, y);
    } else if y in ClosingKeys(h, p, length) {
      PassingAreEntries(h, p.step - 2, p.session.recvCount, ClosedAt(p, length), y);
    } else {
      PassingAreEntries(h, p.step, 0, Number(sent[i]), y);
    }
  }

  /** A message of an older chain whose key is not held is lost for good. */
  lemma LostForGood(h: History, p: Party, sent: seq<Sent>, i: nat, length: nat, generated: nat, c: nat, n: nat)
    requires OpensTurn(h, p, sent, i, length) && c < p.step && c + 1 < |h.keys|
    requires !HeldAfter(h, p, length, Number(sent[i]), c, n)
    ensures Spent(TurnedAt(p, sent, i, length, generated), MessageKey(Chain(h, c, n)))
  {
    var s, k := TurnedAt(p, sent, i, length, generated), MessageKey(Chain(h, c, n));
    TurnExactly(h, p, sent, i, length, generated);
    ChainsDiffer(h, c, n, Chain(h, c, n));
    ChainsDiffer(h, p.step, Number(sent[i]) + 1, Chain(h, p.step, Number(sent[i]) + 1));
    KeysAfterTurn(h, p, sent, i, length, generated, c, n);
    forall j | 0 <= j < |s.skipped|
      ensures s.skipped[j].messageKey != k
    {
      var y := s.skipped[j];
      StoredAreEntries(h, p, sent, i, length, generated, y);
      var d: nat :| IsEntryOf(h, d, y);
      ChainsDiffer(h, d, y.number, Chain(h, d, y.number));
    }
  }

  // ---- Which messages survive ------------------------------------------------------------

  predicate CanOpen(s: Session, e: Sent, generated: nat) {
    Receive(s, true, e.envelope, generated).Ok?
  }

  /** Where a message that opens can be. */
  lemma OpenPlace(h: History, p: Party, sent: seq<Sent>, j: nat, g: nat)
    requires Facing(h, p, sent) && j < |sent| && CanOpen(p.session, sent[j], g)
    ensures var c, n, recv := sent[j].step - 1, Number(sent[j]), p.session.recvCount;
      || Pending(h, p.step, recv, p.accepted, c, n)
      || (c + 2 == p.step && recv <= n)
      || (c == p.step && n <= MAX_SKIP)
  {
    Locate(h, p, sent, j);
    if j in p.accepted {
      ReplayFails(h, p, sent, j, g);
    } else {
      DeliveredOnce(h, p, sent, j, g);
      OpensExactly(h, p, sent, j);
    }
  }

  /** The turn loses the messages of the chain it closes that lie at or beyond where it stops. */
  predicate LostBy(p: Party, e: Sent, length: nat) {
    e.step + 1 == p.step && Number(e) >= ClosedAt(p, length)
  }

  lemma HeldSurvives(h: History, p: Party, sent: seq<Sent>, i: nat, length: nat, generated: nat, j: nat, g: nat)
    requires OpensTurn(h, p, sent, i, length) && j < |sent| && sent[j].step >= 1
    requires HeldAfter(h, p, length, Number(sent[i]), sent[j].step - 1, Number(sent[j]))
    ensures CanOpen(TurnedAt(p, sent, i, length, generated), sent[j], g)
  {
    Locate(h, p, sent, j);
    FoundAfterTurn(h, p, sent, i, length, generated, sent[j].step - 1, Number(sent[j]),
                   sent[j].envelope.header.previousLength);
  }

  lemma LaterSurvives(h: History, p: Party, sent: seq<Sent>, i: nat, length: nat, generated: nat, j: nat, g: nat)
    requires OpensTurn(h, p, sent, i, length) && j < |sent| && j != i && sent[j].step == p.step + 1
    requires Number(sent[i]) <= Number(sent[j]) <= MAX_SKIP
    ensures CanOpen(TurnedAt(p, sent, i, length, generated), sent[j], g)
  {
    Locate(h, p, sent, i);
    Locate(h, p, sent, j);
    FoundAfterTurn(h, p, sent, i, length, generated, p.step, Number(sent[j]), sent[j].envelope.header.previousLength);
    TurnExactly(h, p, sent, i, length, generated);
    OpenExactly(h, TurnedAt(p, sent, i, length, generated), p.step, sent[j].envelope.header, sent[j].payload);
  }

  /** Of the messages the receiver could open before the turn, exactly those become useless. */
  lemma SurvivesTurn(h: History, p: Party, sent: seq<Sent>, i: nat, length: nat, generated: nat, j: nat, g: nat)
    requires OpensTurn(h, p, sent, i, length)
    requires j < |sent| && j != i && CanOpen(p.session, sent[j], g)
    ensures !LostBy(p, sent[j], length) ==> CanOpen(TurnedAt(p, sent, i, length, generated), sent[j], g)
    ensures LostBy(p, sent[j], length) ==>
      && sent[j].envelope.ciphertext.Sealed?
      && Spent(TurnedAt(p, sent, i, length, generated), sent[j].envelope.ciphertext.key)
  {
    Locate(h, p, sent, j);
    OpenPlace(h, p, sent, j, g);
    if LostBy(p, sent[j], length) {
      LostForGood(h, p, sent, i, length, generated, sent[j].step - 1, Number(sent[j]));
    } else if sent[j].step == p.step + 1 && Number(sent[j]) >= Number(sent[i]) {
      LaterSurvives(h, p, sent, i, length, generated, j, g);
    } else {
      HeldSurvives(h, p, sent, i, length, generated, j, g);
    }
  }

  lemma TurnOpens(h: History, p: Party, sent: seq<Sent>, i: nat, length: nat, generated: nat)
    requires Facing(h, p, sent) && i < |sent| && sent[i].step == p.step + 1
    requires DecryptUnder(p, sent[i], length, generated).1.Ok?
    ensures OpensTurn(h, p, sent, i, length)
  {
    Locate(h, p, sent, i);
    FindPending(h, p, p.step, Number(sent[i]), length);
    if p.step >= 1 { assert h.keys[p.step - 1] != h.keys[p.step + 1]; }
  }

  // ---- In every reachable state ---------------------------------------------------------

  lemma {:induction false} RunsOrderly(k: Setup, events: seq<Event>, r: Role)
    ensures Orderly(Run(k, events).Get(r).session)
  {
    if events != [] {
      var net, ev := Run(k, events[..|events| - 1]), events[|events| - 1];
      RunsOrderly(k, events[..|events| - 1], r);
      var s, any := net.Get(r).session, MessageKey(Handshake(k.shared));
      match ev
      case Send(_, payload) => ActMoves(s, Seals(payload), any);
      case Deliver(_, i) =>
        if i < |net.Get(Other(r)).sent| {
          ActMoves(s, Receives(net.Get(Other(r)).sent[i].envelope, true, net.nextKey), any);
        }
      case Corrupt(_, hd, bytes) => JunkRejected(s, hd, bytes, net.nextKey);
    }
  }

  /** In a reachable state, the first message of a new chain arrives under a header with another
      length for the previous chain, and opens. */
  ghost predicate TurnsUnder(k: Setup, events: seq<Event>, to: Role, i: nat, length: nat, generated: nat) {
    var net := Run(k, events); var me, sent := net.Get(to), net.Get(Other(to)).sent;
    && k.bobPrivate != k.alicePrivate && Turning(net, to, i)
    && Receive(me.session, true, Relabelled(sent[i].envelope, length), generated).Ok?
  }

  /** Then each other message that could be opened still can, or never can again whatever happens:
      it is lost exactly if it is on the chain being closed, at or beyond both the receiver's count
      and the claimed length. */
  lemma WrongLength(k: Setup, events: seq<Event>, to: Role, i: nat, length: nat, generated: nat, j: nat, g: nat,
                    actions: seq<Action>, known: bool, g': nat)
    requires TurnsUnder(k, events, to, i, length, generated)
    requires var me, sent := Run(k, events).Get(to), Run(k, events).Get(Other(to)).sent;
      j < |sent| && j != i && CanOpen(me.session, sent[j], g)
    ensures var me, sent := Run(k, events).Get(to), Run(k, events).Get(Other(to)).sent;
      var s := TurnedAt(me, sent, i, length, generated);
      if LostBy(me, sent[j], length) then Receive(Acts(s, actions), known, sent[j].envelope, g').Err?
      else CanOpen(s, sent[j], g)
  {
    FacingIn(k, events, to);
    RunsOrderly(k, events, to);
    var me, sent := Run(k, events).Get(to), Run(k, events).Get(Other(to)).sent;
    LengthAt(HistoryOf(k, events), me, sent, i, length, generated, j, g, actions, known, g');
  }

  lemma LengthAt(h: History, p: Party, sent: seq<Sent>, i: nat, length: nat, generated: nat, j: nat, g: nat,
                 actions: seq<Action>, known: bool, g': nat)
    requires Facing(h, p, sent) && i < |sent| && sent[i].step == p.step + 1 && Orderly(p.session)
    requires DecryptUnder(p, sent[i], length, generated).1.Ok?
    requires j < |sent| && j != i && CanOpen(p.session, sent[j], g)
    ensures var s := TurnedAt(p, sent, i, length, generated);
      if LostBy(p, sent[j], length) then Receive(Acts(s, actions), known, sent[j].envelope, g').Err?
      else CanOpen(s, sent[j], g)
  {
    TurnOpens(h, p, sent, i, length, generated);
    SurvivesTurn(h, p, sent, i, length, generated, j, g);
    AnyDecryption(p.session, Relabelled(sent[i].envelope, length).header, sent[i].envelope.ciphertext, generated,
                  MessageKey(p.session.rootKey));
    if LostBy(p, sent[j], length) {
      SpentForever(TurnedAt(p, sent, i, length, generated), actions, sent[j].envelope, known, g');
    }
  }

  /** So nothing is lost if and only if the claimed length, or the receiver's count, reaches the
      length the sender gave. */
  lemma LengthDecides(k: Setup, events: seq<Event>, to: Role, i: nat, length: nat, generated: nat, g: nat)
    requires TurnsUnder(k, events, to, i, length, generated)
    ensures var me, sent := Run(k, events).Get(to), Run(k, events).Get(Other(to)).sent;
      var s := TurnedAt(me, sent, i, length, generated);
      (forall j :: 0 <= j < |sent| && j != i && CanOpen(me.session, sent[j], g) ==> CanOpen(s, sent[j], g))
      <==> sent[i].envelope.header.previousLength <= ClosedAt(me, length)
  {
    FacingIn(k, events, to);
    RunsOrderly(k, events, to);
    var me, sent := Run(k, events).Get(to), Run(k, events).Get(Other(to)).sent;
    LosesNothing(HistoryOf(k, events), me, sent, i, length, generated, g);
  }

  lemma LosesNothing(h: History, p: Party, sent: seq<Sent>, i: nat, length: nat, generated: nat, g: nat)
    requires Facing(h, p, sent) && i < |sent| && sent[i].step == p.step + 1 && Orderly(p.session)
    requires DecryptUnder(p, sent[i], length, generated).1.Ok?
    ensures var s := TurnedAt(p, sent, i, length, generated);
      (forall j :: 0 <= j < |sent| && j != i && CanOpen(p.session, sent[j], g) ==> CanOpen(s, sent[j], g))
      <==> sent[i].envelope.header.previousLength <= ClosedAt(p, length)
  {
    var s, n := TurnedAt(p, sent, i, length, generated), ClosedAt(p, length);
    Locate(h, p, sent, i);
    TurnOpens(h, p, sent, i, length, generated);
    if n < sent[i].envelope.header.previousLength {
      var j := FirstLost(h, p, sent, i, length, g);
      LengthAt(h, p, sent, i, length, generated, j, g, [], true, g);
    } else {
      forall j | 0 <= j < |sent| && j != i && CanOpen(p.session, sent[j], g)
        ensures CanOpen(s, sent[j], g)
      {
        Locate(h, p, sent, j);
        LengthAt(h, p, sent, i, length, generated, j, g, [], true, g);
      }
    }
  }

  lemma FirstLost(h: History, p: Party, sent: seq<Sent>, i: nat, length: nat, g: nat) returns (j: nat)
    requires OpensTurn(h, p, sent, i, length) && ClosedAt(p, length) < sent[i].envelope.header.previousLength
    ensures j < |sent| && j != i && CanOpen(p.session, sent[j], g) && LostBy(p, sent[j], length)
  {
    Locate(h, p, sent, i);
    var c, n := p.step - 2, ClosedAt(p, length);
    j := h.chains[c][n];
    assert IsMessage(h, c, n) && Places(h, c, n, sent[j]);
    DecryptCurrent(h, p, sent, j, g);
  }
}
