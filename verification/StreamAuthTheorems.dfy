/** What `Verified` means: soundness against any relay, and completeness on an honest,
    lossless stream. */
module StreamAuthTheorems {
  import opened Wrappers
  import opened StreamAuth

  // ---- The host's chain --------------------------------------------------------------

  /** The chain hash after the given frames, from a starting hash. */
  function ExtendAll(hash: Bytes, frames: seq<Bytes>): (h: Bytes)
    ensures frames != [] ==> |h| == HASH_SIZE
  {
    if frames == [] then hash else Extend(ExtendAll(hash, frames[..|frames| - 1]), frames[|frames| - 1])
  }

  function HostHash(frames: seq<Bytes>): (h: Bytes)
    ensures |h| == HASH_SIZE
  {
    ExtendAll(ZeroHash(), frames)
  }

  lemma {:induction false} ExtendAppend(hash: Bytes, a: seq<Bytes>, b: seq<Bytes>)
    ensures ExtendAll(ExtendAll(hash, a), b) == ExtendAll(hash, a + b)
  {
    if b == [] {
      assert a + b == a;
    } else {
      ExtendAppend(hash, a, b[..|b| - 1]);
      assert (a + b)[..|a + b| - 1] == a + b[..|b| - 1];
    }
  }

  /** The chain hash of one more frame is the hash of the old chain hash followed by the frame. */
  lemma ChainInput(host: seq<Bytes>, g: nat)
    requires g < |host|
    ensures HostHash(host[..g + 1]) == Sha256(HostHash(host[..g]) + host[g])
    ensures HostHash([]) == ZeroHash()
  {
    assert host[..g + 1][..g] == host[..g];
  }

  lemma ExtendInjective(h: Bytes, o: Bytes, h': Bytes, o': Bytes)
    requires |h| == HASH_SIZE == |h'|
    requires Extend(h, o) == Extend(h', o')
    ensures h == h' && o == o'
  {
    assert Extend(h, o)[0] == HashByte(h + o, 0);
    assert Extend(h', o')[0] == HashByte(h' + o', 0);
    assert (h + o)[..HASH_SIZE] == h && (h + o)[HASH_SIZE..] == o;
    assert (h' + o')[..HASH_SIZE] == h' && (h' + o')[HASH_SIZE..] == o';
  }

  /** Equal chain hashes come from equal frames. */
  lemma {:induction false} HostHashInjective(a: seq<Bytes>, b: seq<Bytes>)
    requires HostHash(a) == HostHash(b)
    ensures a == b
    decreases |a|
  {
    if a != [] && b != [] {
      var a0, b0 := a[..|a| - 1], b[..|b| - 1];
      ExtendInjective(HostHash(a0), a[|a| - 1], HostHash(b0), b[|b| - 1]);
      HostHashInjective(a0, b0);
      assert a == a0 + [a[|a| - 1]] && b == b0 + [b[|b| - 1]];
    } else {
      HashTells(a);
      HashTells(b);
    }
  }

  /** The initial hash is not the hash of anything. */
  lemma HashTells(frames: seq<Bytes>)
    ensures HostHash(frames)[0].HashByte? <==> frames != []
  {
  }

  // ---- What a listener sees ------------------------------------------------------------

  /** A frame as it reaches verification. */
  datatype Frame = Frame(opus: Bytes, tag: nat, checkpoint: Option<Checkpoint>)

  function Opuses(frames: seq<Frame>): (r: seq<Bytes>)
    ensures |r| == |frames|
  {
    seq(|frames|, i requires 0 <= i < |frames| => frames[i].opus)
  }

  function After(s: ListenerState, frames: seq<Frame>): ListenerState {
    if frames == [] then s
    else
      var f := frames[|frames| - 1];
      VerifyFrame(After(s, frames[..|frames| - 1]), f.opus, f.tag, f.checkpoint).0
  }

  function ResultAt(s: ListenerState, frames: seq<Frame>, i: nat): AuthResult
    requires i < |frames|
  {
    VerifyFrame(After(s, frames[..i]), frames[i].opus, frames[i].tag, frames[i].checkpoint).1
  }

  predicate Fatal(r: AuthResult) {
    r.TamperDetected? || r.InvalidSignature?
  }

  /** The hash is one the host has signed: after a positive multiple of 50 frames. */
  predicate SignedBy(host: seq<Bytes>, hash: Bytes, m: nat) {
    0 < m <= |host| && m % 50 == 0 && hash == HostHash(host[..m])
  }

  /** Signatures cannot be forged: a checkpoint that verifies carries a hash the host signed. */
  ghost predicate Unforged(host: seq<Bytes>, key: nat, frames: seq<Frame>) {
    forall i :: 0 <= i < |frames| && frames[i].checkpoint.Some?
                && Verifies(key, frames[i].checkpoint.value.hash, frames[i].checkpoint.value.signature)
      ==> Signed(host, frames[i].checkpoint.value.hash)
  }

  ghost predicate Signed(host: seq<Bytes>, hash: Bytes) {
    exists m: nat :: SignedBy(host, hash, m)
  }

  /** `first` is the frame of the first verified checkpoint. */
  ghost predicate FirstVerified(key: nat, frames: seq<Frame>, first: nat) {
    && first < |frames|
    && ResultAt(NewListener(key), frames, first) == Verified
    && forall j :: 0 <= j < first ==> ResultAt(NewListener(key), frames, j) != Verified
  }

  lemma AfterSnoc(s: ListenerState, frames: seq<Frame>, i: nat)
    requires i < |frames|
    ensures After(s, frames[..i + 1])
         == VerifyFrame(After(s, frames[..i]), frames[i].opus, frames[i].tag, frames[i].checkpoint).0
  {
    assert frames[..i + 1][..i] == frames[..i];
  }

  /** Before the first verified checkpoint the listener has adopted nothing. */
  lemma {:induction false} BeforeFirst(key: nat, frames: seq<Frame>, i: nat)
    requires i <= |frames|
    requires forall j :: 0 <= j < i ==> ResultAt(NewListener(key), frames, j) != Verified
    ensures !After(NewListener(key), frames[..i]).verified
    ensures After(NewListener(key), frames[..i]).hostKey == key
  {
    if i > 0 {
      BeforeFirst(key, frames, i - 1);
      AfterSnoc(NewListener(key), frames, i - 1);
      assert ResultAt(NewListener(key), frames, i - 1) != Verified;
    }
  }

  lemma OpusesSnoc(frames: seq<Frame>, from: nat, i: nat)
    requires from < i <= |frames|
    ensures Opuses(frames[from..i]) == Opuses(frames[from..i - 1]) + [frames[i - 1].opus]
    ensures Opuses(frames[from..i])[..i - from - 1] == Opuses(frames[from..i - 1])
  {
  }

  /** After it, the chain hash covers the checkpoint's hash and every frame since. */
  lemma {:induction false} SinceFirst(key: nat, frames: seq<Frame>, first: nat, i: nat)
    requires FirstVerified(key, frames, first) && first < i <= |frames|
    ensures frames[first].checkpoint.Some?
    ensures Verifies(key, frames[first].checkpoint.value.hash, frames[first].checkpoint.value.signature)
    ensures var s := After(NewListener(key), frames[..i]);
      s.verified && s.hostKey == key &&
      (!s.compromised ==> s.chainHash == ExtendAll(frames[first].checkpoint.value.hash, Opuses(frames[first + 1..i])))
  {
    AfterSnoc(NewListener(key), frames, i - 1);
    if i == first + 1 {
      BeforeFirst(key, frames, first);
      assert Opuses(frames[first + 1..i]) == [];
    } else {
      SinceFirst(key, frames, first, i - 1);
      OpusesSnoc(frames, first + 1, i);
      OneSince(After(NewListener(key), frames[..i - 1]), frames[i - 1], frames[first].checkpoint.value.hash,
               Opuses(frames[first + 1..i - 1]));
    }
  }

  lemma OneSince(s: ListenerState, f: Frame, hash: Bytes, since: seq<Bytes>)
    requires s.verified && (!s.compromised ==> s.chainHash == ExtendAll(hash, since))
    ensures var s' := VerifyFrame(s, f.opus, f.tag, f.checkpoint).0;
      && s'.verified && s'.hostKey == s.hostKey
      && (!s'.compromised ==> s'.chainHash == ExtendAll(hash, since + [f.opus]))
  {
    assert (since + [f.opus])[..|since|] == since;
  }

  lemma {:induction false} CompromisedStays(s: ListenerState, frames: seq<Frame>, i: nat, j: nat)
    requires i <= j <= |frames| && After(s, frames[..i]).compromised
    ensures After(s, frames[..j]).compromised
  {
    if i < j {
      CompromisedStays(s, frames, i, j - 1);
      AfterSnoc(s, frames, j - 1);
    }
  }

  /** Once a frame is rejected, every later frame is reported as tampered with. */
  lemma RejectionIsPermanent(s: ListenerState, frames: seq<Frame>, i: nat, j: nat)
    requires i < j < |frames| && Fatal(ResultAt(s, frames, i))
    ensures ResultAt(s, frames, j) == TamperDetected
  {
    AfterSnoc(s, frames, i);
    CompromisedStays(s, frames, i + 1, j);
  }

  /** Every `Verified` after the first means that the frames since then are exactly the host's
      consecutive frames after the first checkpoint, up to another checkpoint of the host. */
  lemma CheckpointSoundness(key: nat, host: seq<Bytes>, frames: seq<Frame>, first: nat, i: nat)
    requires Unforged(host, key, frames) && FirstVerified(key, frames, first)
    requires first < i < |frames| && ResultAt(NewListener(key), frames, i) == Verified
    ensures (i - first) % 50 == 0
    ensures HostSent(host, frames[first].checkpoint.value.hash, Opuses(frames[first + 1..i + 1]))
  {
    VerifiedAt(key, frames, first, i);
    assert Signed(host, frames[first].checkpoint.value.hash) && Signed(host, frames[i].checkpoint.value.hash);
    var m: nat :| SignedBy(host, frames[first].checkpoint.value.hash, m);
    var last: nat :| SignedBy(host, frames[i].checkpoint.value.hash, last);
    BetweenCheckpoints(host, frames[first].checkpoint.value.hash, m, frames[i].checkpoint.value.hash, last,
                       Opuses(frames[first + 1..i + 1]));
  }

  /** `since` is what the host sent right after the checkpoint it signed over `hash`. */
  predicate Continues(host: seq<Bytes>, hash: Bytes, m: nat, since: seq<Bytes>) {
    SignedBy(host, hash, m) && m + |since| <= |host| && since == host[m..m + |since|]
  }

  ghost predicate HostSent(host: seq<Bytes>, hash: Bytes, since: seq<Bytes>) {
    exists m: nat :: Continues(host, hash, m, since)
  }

  lemma BetweenCheckpoints(host: seq<Bytes>, hash: Bytes, m: nat, hash': Bytes, last: nat, since: seq<Bytes>)
    requires SignedBy(host, hash, m) && SignedBy(host, hash', last)
    requires hash' == ExtendAll(hash, since)
    ensures Continues(host, hash, m, since) && |since| % CHECKPOINT_INTERVAL == 0
  {
    SameChain(host, m, last, since);
    PrefixRest(host, m, last, since);
    MultiplesApart(m, last);
  }

  lemma SameChain(host: seq<Bytes>, m: nat, last: nat, since: seq<Bytes>)
    requires m <= |host| && last <= |host| && ExtendAll(HostHash(host[..m]), since) == HostHash(host[..last])
    ensures host[..m] + since == host[..last]
  {
    ExtendAppend(ZeroHash(), host[..m], since);
    HostHashInjective(host[..m] + since, host[..last]);
  }

  lemma MultiplesApart(m: nat, last: nat)
    requires m % CHECKPOINT_INTERVAL == 0 == last % CHECKPOINT_INTERVAL && m <= last
    ensures (last - m) % CHECKPOINT_INTERVAL == 0
  {
  }

  lemma PrefixRest(host: seq<Bytes>, m: nat, last: nat, since: seq<Bytes>)
    requires m <= |host| && last <= |host| && host[..m] + since == host[..last]
    ensures m + |since| == last && since == host[m..last]
  {
    assert |host[..m] + since| == last;
    assert since == (host[..m] + since)[m..];
  }

  lemma VerifiedAt(key: nat, frames: seq<Frame>, first: nat, i: nat)
    requires FirstVerified(key, frames, first) && first < i < |frames|
    requires ResultAt(NewListener(key), frames, i) == Verified
    ensures frames[first].checkpoint.Some? && frames[i].checkpoint.Some?
    ensures Verifies(key, frames[first].checkpoint.value.hash, frames[first].checkpoint.value.signature)
    ensures Verifies(key, frames[i].checkpoint.value.hash, frames[i].checkpoint.value.signature)
    ensures frames[i].checkpoint.value.hash
         == ExtendAll(frames[first].checkpoint.value.hash, Opuses(frames[first + 1..i + 1]))
  {
    SinceFirst(key, frames, first, i);
    AfterSnoc(NewListener(key), frames, i);
    SinceFirst(key, frames, first, i + 1);
  }

  /** At a checkpoint the host really signed, an uncompromised listener answers `Verified` if and
      only if it has received exactly the host's frames since its first; otherwise it reports
      tampering. */
  lemma CheckpointExact(key: nat, host: seq<Bytes>, frames: seq<Frame>, first: nat, m: nat, i: nat, last: nat)
    requires FirstVerified(key, frames, first) && first < i < |frames|
    requires SignedBy(host, frames[first].checkpoint.value.hash, m)
    requires frames[i].tag != TAG_NORMAL && frames[i].checkpoint.Some?
    requires Verifies(key, frames[i].checkpoint.value.hash, frames[i].checkpoint.value.signature)
    requires SignedBy(host, frames[i].checkpoint.value.hash, last)
    requires forall j :: first < j < i ==> !Fatal(ResultAt(NewListener(key), frames, j))
    ensures ResultAt(NewListener(key), frames, i) ==
      if host[..m] + Opuses(frames[first + 1..i + 1]) == host[..last] then Verified else TamperDetected
  {
    NotCompromised(key, frames, first, i);
    SinceFirst(key, frames, first, i);
    OpusesSnoc(frames, first + 1, i + 1);
    AnswerOf(After(NewListener(key), frames[..i]), frames[i], frames[first].checkpoint.value.hash,
             Opuses(frames[first + 1..i]));
    SameAsHost(host, m, Opuses(frames[first + 1..i + 1]), last);
  }

  lemma SameAsHost(host: seq<Bytes>, m: nat, since: seq<Bytes>, last: nat)
    requires m <= |host| && last <= |host|
    ensures ExtendAll(HostHash(host[..m]), since) == HostHash(host[..last]) <==> host[..m] + since == host[..last]
  {
    ExtendAppend(ZeroHash(), host[..m], since);
    if HostHash(host[..m] + since) == HostHash(host[..last]) { HostHashInjective(host[..m] + since, host[..last]); }
  }

  lemma {:induction false} NotCompromised(key: nat, frames: seq<Frame>, first: nat, i: nat)
    requires FirstVerified(key, frames, first) && first < i <= |frames|
    requires forall j :: first < j < i ==> !Fatal(ResultAt(NewListener(key), frames, j))
    ensures !After(NewListener(key), frames[..i]).compromised
  {
    AfterSnoc(NewListener(key), frames, i - 1);
    if i == first + 1 {
      BeforeFirst(key, frames, first);
    } else {
      NotCompromised(key, frames, first, i - 1);
      assert !Fatal(ResultAt(NewListener(key), frames, i - 1));
    }
  }

  // ---- Every answer, in every run ------------------------------------------------------

  /** `first` is the first frame with a checkpoint, if there is one. */
  predicate FirstCheckpoint(frames: seq<Frame>, first: nat) {
    && first <= |frames|
    && (forall j :: 0 <= j < first ==> frames[j].checkpoint.None?)
    && (first < |frames| ==> frames[first].checkpoint.Some?)
  }

  predicate GoodSignature(key: nat, c: Checkpoint) {
    c.signature == Sign(key, c.hash)
  }

  lemma {:induction false} NothingAdopted(key: nat, frames: seq<Frame>, i: nat)
    requires i <= |frames| && forall j :: 0 <= j < i ==> frames[j].checkpoint.None?
    ensures After(NewListener(key), frames[..i]) == NewListener(key)
  {
    if i > 0 {
      NothingAdopted(key, frames, i - 1);
      AfterSnoc(NewListener(key), frames, i - 1);
    }
  }

  /** Before the first checkpoint nothing is verified; the first one is adopted if its signature
      is good and is fatal otherwise. */
  lemma AnswersUpToFirst(key: nat, frames: seq<Frame>, first: nat, i: nat)
    requires FirstCheckpoint(frames, first) && i < |frames| && i <= first
    ensures ResultAt(NewListener(key), frames, i) ==
      if i < first then Unverified
      else if GoodSignature(key, frames[first].checkpoint.value) then Verified
      else InvalidSignature
  {
    NothingAdopted(key, frames, i);
  }

  /** After an adopted checkpoint: a frame without a checkpoint is accepted; a checkpoint whose
      hash is not that of the frames since is tampering; a bad signature over the right hash is
      fatal too; and only the rest is verified. */
  lemma AnswersAfterFirst(key: nat, frames: seq<Frame>, first: nat, i: nat)
    requires FirstCheckpoint(frames, first) && first < i < |frames|
    requires forall j :: first <= j < i ==> !Fatal(ResultAt(NewListener(key), frames, j))
    ensures ResultAt(NewListener(key), frames, i) ==
      if frames[i].tag == 0 || frames[i].checkpoint.None? then Accepted
      else if frames[i].checkpoint.value.hash
              != ExtendAll(frames[first].checkpoint.value.hash, Opuses(frames[first + 1..i + 1])) then TamperDetected
      else if GoodSignature(key, frames[i].checkpoint.value) then Verified
      else InvalidSignature
  {
    FirstIsAdopted(key, frames, first, i);
    NotCompromised(key, frames, first, i);
    SinceFirst(key, frames, first, i);
    OpusesSnoc(frames, first + 1, i + 1);
    AnswerOf(After(NewListener(key), frames[..i]), frames[i], frames[first].checkpoint.value.hash,
             Opuses(frames[first + 1..i]));
  }

  lemma FirstIsAdopted(key: nat, frames: seq<Frame>, first: nat, i: nat)
    requires FirstCheckpoint(frames, first) && first < i < |frames|
    requires !Fatal(ResultAt(NewListener(key), frames, first))
    ensures FirstVerified(key, frames, first)
  {
    AnswersUpToFirst(key, frames, first, first);
    forall j | 0 <= j < first
      ensures ResultAt(NewListener(key), frames, j) != Verified
    {
      AnswersUpToFirst(key, frames, first, j);
    }
  }

  /** The answer of a listener whose chain covers some frames since an adopted hash. */
  lemma AnswerOf(s: ListenerState, f: Frame, hash: Bytes, since: seq<Bytes>)
    requires s.verified && !s.compromised && s.chainHash == ExtendAll(hash, since)
    ensures VerifyFrame(s, f.opus, f.tag, f.checkpoint).1 ==
      if f.tag == 0 || f.checkpoint.None? then Accepted
      else if f.checkpoint.value.hash != ExtendAll(hash, since + [f.opus]) then TamperDetected
      else if GoodSignature(s.hostKey, f.checkpoint.value) then Verified
      else InvalidSignature
  {
    assert (since + [f.opus])[..|since|] == since;
  }

  /** In any run, a checkpoint whose signature is not the host's is answered fatally. */
  lemma ForgeryIsFatal(key: nat, frames: seq<Frame>, i: nat)
    requires i < |frames| && frames[i].tag != 0 && frames[i].checkpoint.Some?
    requires !GoodSignature(key, frames[i].checkpoint.value)
    ensures Fatal(ResultAt(NewListener(key), frames, i))
  {
    var first := FindFirst(frames, i);
    if i <= first {
      AnswersUpToFirst(key, frames, first, i);
    } else if j :| first <= j < i && Fatal(ResultAt(NewListener(key), frames, j)) {
      RejectionIsPermanent(NewListener(key), frames, j, i);
    } else {
      AnswersAfterFirst(key, frames, first, i);
    }
  }

  lemma {:induction false} FindFirst(frames: seq<Frame>, i: nat) returns (first: nat)
    requires i < |frames| && frames[i].checkpoint.Some?
    ensures first <= i && FirstCheckpoint(frames, first)
    decreases i
  {
    if j :| 0 <= j < i && frames[j].checkpoint.Some? {
      first := FindFirst(frames, j);
    } else {
      first := i;
    }
  }

  // ---- The receive loop ------------------------------------------------------------------

  /** The frames of the wire stream that reach verification. */
  function Reaching(wires: seq<Wire>): seq<Frame> {
    if wires == [] then []
    else
      match Split(wires[0])
      case None => Reaching(wires[1..])
      case Some((checkpoint, opus)) => [Frame(opus, wires[0].tag, checkpoint)] + Reaching(wires[1..])
  }

  lemma {:induction false} AfterCons(s: ListenerState, f: Frame, rest: seq<Frame>)
    ensures After(s, [f] + rest) == After(VerifyFrame(s, f.opus, f.tag, f.checkpoint).0, rest)
    decreases |rest|
  {
    if rest == [] {
      assert [f] + rest == [f] && [f][..0] == [];
    } else {
      AfterCons(s, f, rest[..|rest| - 1]);
      assert ([f] + rest)[..|rest|] == [f] + rest[..|rest| - 1];
    }
  }

  /** The results are those of the frames in order, the only fatal one is the last, and what is
      played is exactly the audio of the frames before it. */
  predicate InOrder(s: ListenerState, frames: seq<Frame>, results: seq<AuthResult>, played: seq<Bytes>) {
    && |played| <= |results| <= |frames| && |results| <= |played| + 1
    && (forall i :: 0 <= i < |results| ==> results[i] == ResultAt(s, frames, i))
    && (forall i :: 0 <= i < |results| ==> (Fatal(results[i]) <==> i == |played|))
    && (|results| == |played| ==> |results| == |frames|)
    && (forall i :: 0 <= i < |played| ==> played[i] == frames[i].opus)
  }

  lemma InOrderCons(s: ListenerState, f: Frame, frames: seq<Frame>, results: seq<AuthResult>, played: seq<Bytes>)
    requires var (s', r) := VerifyFrame(s, f.opus, f.tag, f.checkpoint);
      !Fatal(r) && InOrder(s', frames, results, played)
    ensures InOrder(s, [f] + frames, [VerifyFrame(s, f.opus, f.tag, f.checkpoint).1] + results, [f.opus] + played)
  {
    var (s', r) := VerifyFrame(s, f.opus, f.tag, f.checkpoint);
    var all, outcomes := [f] + frames, [r] + results;
    assert all[..0] == [];
    forall i | 0 <= i < |outcomes|
      ensures outcomes[i] == ResultAt(s, all, i)
    {
      if i > 0 {
        AfterCons(s, f, frames[..i - 1]);
        assert all[..i] == [f] + frames[..i - 1];
        assert outcomes[i] == results[i - 1] == ResultAt(s', frames, i - 1);
      }
    }
  }

  /** The receive loop, over any wire stream. */
  lemma {:induction false} HeardInOrder(s: ListenerState, wires: seq<Wire>)
    ensures InOrder(s, Reaching(wires), Heard(s, wires).1, Heard(s, wires).2)
    decreases |wires|
  {
    if wires != [] {
      match Split(wires[0])
      case None => HeardInOrder(s, wires[1..]);
      case Some((checkpoint, opus)) =>
        var f := Frame(opus, wires[0].tag, checkpoint);
        var (s', r) := VerifyFrame(s, opus, wires[0].tag, checkpoint);
        var rest := Reaching(wires[1..]);
        assert ([f] + rest)[..0] == [];
        if !Fatal(r) {
          HeardInOrder(s', wires[1..]);
          var (_, results, played) := Heard(s', wires[1..]);
          InOrderCons(s, f, rest, results, played);
        }
    }
  }

  /** The split of a wire frame, in bytes: a tag of 1 announces 32 bytes of hash and 64 of
      signature before the audio, and is dropped if they are not there. */
  lemma SplitExactly(w: Wire)
    ensures w.tag != 1 ==> Split(w) == Some((None, w.payload))
    ensures w.tag == 1 && |w.payload| < 96 ==> Split(w) == None
    ensures w.tag == 1 && |w.payload| >= 96 ==>
      Split(w) == Some((Some(Checkpoint(w.payload[..32], w.payload[32..96])), w.payload[96..]))
  {
  }

  /** A checkpoint too short to hold hash and signature changes nothing, is not answered, and is
      not played. */
  lemma {:induction false} MalformedIsDropped(s: ListenerState, before: seq<Wire>, w: Wire, later: seq<Wire>)
    requires w.tag == 1 && |w.payload| < 96
    ensures Heard(s, before + [w] + later) == Heard(s, before + later)
    decreases |before|
  {
    if before == [] {
      assert [] + [w] + later == [w] + later && ([w] + later)[1..] == later && [] + later == later;
    } else {
      assert (before + [w] + later)[1..] == before[1..] + [w] + later;
      assert (before + later)[1..] == before[1..] + later;
      MalformedIsDropped(s, before[1..], w, later);
      if Split(before[0]).Some? {
        var (checkpoint, opus) := Split(before[0]).value;
        MalformedIsDropped(VerifyFrame(s, opus, before[0].tag, checkpoint).0, before[1..], w, later);
      }
    }
  }

  /** From a forged checkpoint on nothing is played, and nothing after it is even answered. */
  lemma ForgeryEndsPlayback(key: nat, wires: seq<Wire>, i: nat)
    requires i < |Reaching(wires)| && Reaching(wires)[i].tag == 1 && Reaching(wires)[i].checkpoint.Some?
    requires !GoodSignature(key, Reaching(wires)[i].checkpoint.value)
    ensures var (_, results, played) := Heard(NewListener(key), wires); |played| <= i && |results| <= i + 1
  {
    HeardInOrder(NewListener(key), wires);
    ForgeryIsFatal(key, Reaching(wires), i);
  }

  /** What is played between two verified checkpoints is the host's audio. */
  lemma PlayedIsAuthentic(key: nat, host: seq<Bytes>, wires: seq<Wire>, first: nat, i: nat)
    requires Unforged(host, key, Reaching(wires))
    requires var results := Heard(NewListener(key), wires).1;
      && first < i < |results| && results[first] == Verified && results[i] == Verified
      && forall j :: 0 <= j < first ==> results[j] != Verified
    ensures var played := Heard(NewListener(key), wires).2;
      && i < |played|
      && Authentic(host, played[first + 1..i + 1])
  {
    var frames := Reaching(wires);
    HeardInOrder(NewListener(key), wires);
    CheckpointSoundness(key, host, frames, first, i);
    var since := Opuses(frames[first + 1..i + 1]);
    var m: nat :| Continues(host, frames[first].checkpoint.value.hash, m, since);
    var played := Heard(NewListener(key), wires).2;
    assert i < |played|;
    assert played[first + 1..i + 1] == since;
    assert Follows(host, m, since);
  }

  /** The audio is what the host sent from frame `m` on, right after a checkpoint. */
  predicate Follows(host: seq<Bytes>, m: nat, audio: seq<Bytes>) {
    m % 50 == 0 && m + |audio| <= |host| && audio == host[m..m + |audio|]
  }

  ghost predicate Authentic(host: seq<Bytes>, audio: seq<Bytes>) {
    exists m: nat :: Follows(host, m, audio)
  }

  // ---- Completeness -----------------------------------------------------------------------

  /** The host's state and wire frames after processing the given audio frames. */
  function HostRun(key: nat, host: seq<Bytes>): (HostState, seq<Wire>) {
    if host == [] then (HostState(ZeroHash(), 0, key), [])
    else
      var (s, wires) := HostRun(key, host[..|host| - 1]);
      var (s', w) := HostNext(s, host[|host| - 1]);
      (s', wires + [w])
  }

  lemma {:induction false} HostEmits(key: nat, host: seq<Bytes>, g: nat)
    requires g < |host|
    ensures |HostRun(key, host).1| == |host|
    ensures var hash := HostHash(host[..g + 1]);
      HostRun(key, host).1[g]
      == if (g + 1) % 50 == 0 then Wire(1, hash + Sign(key, hash) + host[g]) else Wire(0, host[g])
  {
    HostRuns(key, host);
    HostRuns(key, host[..|host| - 1]);
    if g < |host| - 1 {
      HostEmits(key, host[..|host| - 1], g);
      assert host[..|host| - 1][..g + 1] == host[..g + 1];
    } else {
      assert host[..g + 1] == host;
    }
  }

  lemma {:induction false} HostRuns(key: nat, host: seq<Bytes>)
    ensures HostRun(key, host).0 == HostState(HostHash(host), |host|, key)
    ensures |HostRun(key, host).1| == |host|
  {
    if host != [] { HostRuns(key, host[..|host| - 1]); }
  }

  /** The checkpoint encoding splits back into its parts. */
  lemma CheckpointSplits(hash: Bytes, key: nat, opus: Bytes)
    requires |hash| == 32
    ensures Split(Wire(1, hash + Sign(key, hash) + opus))
         == Some((Some(Checkpoint(hash, Sign(key, hash))), opus))
  {
    var payload := hash + Sign(key, hash) + opus;
    assert payload[..HASH_SIZE] == hash;
    assert payload[HASH_SIZE..CHECKPOINT_EXTRA] == Sign(key, hash);
    assert payload[CHECKPOINT_EXTRA..] == opus;
  }

  /** What a listener that joined before frame `joined` should report for frame `g` (from 0). */
  function Expected(joined: nat, g: nat): AuthResult {
    if (g + 1) / 50 == joined / 50 then Unverified
    else if (g + 1) % 50 == 0 then Verified
    else Accepted
  }

  /** A listener's state on an honest stream: joined before frame `joined`, at frame `g`. */
  ghost predicate Following(s: ListenerState, key: nat, host: seq<Bytes>, joined: nat, g: nat) {
    && joined <= g <= |host| && s.hostKey == key && !s.compromised
    && (s.verified <==> g / CHECKPOINT_INTERVAL != joined / CHECKPOINT_INTERVAL)
    && (s.verified ==> s.chainHash == HostHash(host[..g]))
  }

  lemma FollowOne(s: ListenerState, key: nat, host: seq<Bytes>, joined: nat, g: nat)
    requires Following(s, key, host, joined, g) && g < |host|
    ensures |HostRun(key, host).1| == |host|
    ensures var (s', r) := Hear(s, HostRun(key, host).1[g]);
      Following(s', key, host, joined, g + 1) && r == Some(Expected(joined, g))
    ensures Split(HostRun(key, host).1[g]).Some? && Split(HostRun(key, host).1[g]).value.1 == host[g]
  {
    HostEmits(key, host, g);
    CheckpointSplits(HostHash(host[..g + 1]), key, host[g]);
    assert host[..g + 1][..g] == host[..g];
    StepOver(joined, g);
  }

  /** Between frames `g` and `g + 1` the checkpoint count changes exactly at a multiple of 50. */
  lemma StepOver(joined: nat, g: nat)
    requires joined <= g
    ensures (g + 1) % CHECKPOINT_INTERVAL == 0 ==> (g + 1) / CHECKPOINT_INTERVAL == g / CHECKPOINT_INTERVAL + 1
    ensures (g + 1) % CHECKPOINT_INTERVAL != 0 ==> (g + 1) / CHECKPOINT_INTERVAL == g / CHECKPOINT_INTERVAL
    ensures joined / CHECKPOINT_INTERVAL <= g / CHECKPOINT_INTERVAL
  {
  }

  lemma HeardStep(s: ListenerState, wires: seq<Wire>)
    requires wires != [] && Split(wires[0]).Some? && !Fatal(Hear(s, wires[0]).1.value)
    ensures Heard(s, wires)
         == Joined([Hear(s, wires[0]).1.value], [Split(wires[0]).value.1], Heard(Hear(s, wires[0]).0, wires[1..]))
  {
  }

  /** What the listener should report for the frames from `g` up to `end`. */
  function Expectations(joined: nat, g: nat, end: nat): seq<AuthResult>
    requires g <= end
  {
    seq(end - g, i requires 0 <= i < end - g => Expected(joined, g + i))
  }

  lemma ExpectationsCons(joined: nat, g: nat, end: nat)
    requires g < end
    ensures Expectations(joined, g, end) == [Expected(joined, g)] + Expectations(joined, g + 1, end)
  {
  }

  /** A listener that joins an honest, lossless stream anywhere gets `Unverified` up to the first
      checkpoint, then `Verified` at every multiple of 50 and `Accepted` elsewhere, and plays
      every frame. */
  lemma {:induction false} HonestStreamVerifies(s: ListenerState, key: nat, host: seq<Bytes>, joined: nat, g: nat)
    requires Following(s, key, host, joined, g)
    ensures |HostRun(key, host).1| == |host|
    ensures var (s', results, played) := Heard(s, HostRun(key, host).1[g..]);
      && results == Expectations(joined, g, |host|)
      && played == host[g..]
      && Following(s', key, host, joined, |host|)
    decreases |host| - g
  {
    if g == |host| {
      HostRuns(key, host);
    } else {
      FollowOne(s, key, host, joined, g);
      var wires := HostRun(key, host).1;
      assert wires[g..][0] == wires[g] && wires[g..][1..] == wires[g + 1..];
      HeardStep(s, wires[g..]);
      HonestStreamVerifies(Hear(s, wires[g]).0, key, host, joined, g + 1);
      assert host[g..] == [host[g]] + host[g + 1..];
      ExpectationsCons(joined, g, |host|);
    }
  }

  lemma JoinersVerify(key: nat, host: seq<Bytes>, joined: nat)
    requires joined <= |host|
    ensures |HostRun(key, host).1| == |host|
    ensures var (_, results, played) := Heard(NewListener(key), HostRun(key, host).1[joined..]);
      && played == host[joined..]
      && |results| == |host| - joined
      && forall i :: 0 <= i < |results| ==> results[i] == Expected(joined, joined + i)
  {
    HonestStreamVerifies(NewListener(key), key, host, joined, joined);
  }
}
