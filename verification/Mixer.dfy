/** The host's mixer tick (src-tauri/src/stage/mixer.rs): drain each speaker's channel into a
    bounded buffer, sum one frame of each, send the mix to listeners and the mix without the host
    to the host. Samples are exact numbers. */
module Mixer {
  import opened Wrappers
  import opened Codec

  const MAX_SPEAKER_BUFFER: nat := 4800
  const U32: nat := 0x1_0000_0000

  /** What a tick finds in a speaker's channel. */
  datatype Arrival = Arrival(chunks: seq<seq<real>>, closed: bool)

  /** A frame sent on a fanout. */
  datatype Sent = Sent(number: nat, timestamp: nat, packet: Packet)

  function Clamp(x: real): (r: real)
    ensures -1.0 <= r <= 1.0
    ensures -1.0 <= x <= 1.0 ==> r == x
    ensures x < -1.0 ==> r == -1.0
    ensures x > 1.0 ==> r == 1.0
  {
    if x < -1.0 then -1.0 else if x > 1.0 then 1.0 else x
  }

  function Min(a: nat, b: nat): nat {
    if a < b then a else b
  }

  /** The buffer after a chunk: the newest 5 frames. */
  function Absorb(buffer: seq<real>, chunk: seq<real>): seq<real> {
    Newest(buffer + chunk, MAX_SPEAKER_BUFFER)
  }

  function AbsorbAll(buffer: seq<real>, chunks: seq<seq<real>>): seq<real> {
    if chunks == [] then buffer else Absorb(AbsorbAll(buffer, chunks[..|chunks| - 1]), chunks[|chunks| - 1])
  }

  function Take(buffer: seq<real>): (r: seq<real>)
    ensures |r| <= FRAME_SIZE
  {
    buffer[..Min(|buffer|, FRAME_SIZE)]
  }

  function Rest(buffer: seq<real>): seq<real> {
    buffer[Min(|buffer|, FRAME_SIZE)..]
  }

  /** Sample `i`, silent past the end. */
  function SampleAt(samples: seq<real>, i: nat): real {
    if i < |samples| then samples[i] else 0.0
  }

  /** A frame filled up with silence. */
  function Padded(samples: seq<real>): (r: Frame)
    requires |samples| <= FRAME_SIZE
    ensures |r| == FRAME_SIZE
    ensures forall i :: 0 <= i < FRAME_SIZE ==> r[i] == SampleAt(samples, i)
  {
    samples + seq(FRAME_SIZE - |samples|, i => 0.0)
  }

  function Silence(): (r: Frame)
    ensures |r| == FRAME_SIZE && forall i :: 0 <= i < FRAME_SIZE ==> r[i] == 0.0
  {
    seq(FRAME_SIZE, i => 0.0)
  }

  // ---- The account of one speaker --------------------------------------------------------------

  /** Everything received from a speaker, the fate of the oldest samples (mixed, or dropped), the
      samples still buffered, and the samples mixed so far. */
  datatype Account = Account(received: seq<real>, mixedOrDropped: seq<bool>, buffer: seq<real>, mixed: seq<real>)

  function Chosen(samples: seq<real>, flags: seq<bool>): seq<real>
    requires |flags| <= |samples|
  {
    if flags == [] then []
    else
      var rest := Chosen(samples, flags[..|flags| - 1]);
      if flags[|flags| - 1] then rest + [samples[|flags| - 1]] else rest
  }

  /** In order, each received sample is mixed once, dropped, or still buffered. */
  ghost predicate Balanced(a: Account) {
    && |a.mixedOrDropped| <= |a.received|
    && a.buffer == a.received[|a.mixedOrDropped|..]
    && a.mixed == Chosen(a.received, a.mixedOrDropped)
  }

  function Flags(b: bool, n: nat): (r: seq<bool>)
    ensures |r| == n
  {
    seq(n, i => b)
  }

  function AbsorbedBy(a: Account, chunk: seq<real>): Account {
    var all := a.buffer + chunk;
    var excess := if |all| > MAX_SPEAKER_BUFFER then |all| - MAX_SPEAKER_BUFFER else 0;
    a.(received := a.received + chunk, mixedOrDropped := a.mixedOrDropped + Flags(false, excess),
       buffer := Absorb(a.buffer, chunk))
  }

  function AbsorbedAllBy(a: Account, chunks: seq<seq<real>>): Account {
    if chunks == [] then a else AbsorbedBy(AbsorbedAllBy(a, chunks[..|chunks| - 1]), chunks[|chunks| - 1])
  }

  function MixedBy(a: Account): Account {
    a.(mixedOrDropped := a.mixedOrDropped + Flags(true, |Take(a.buffer)|), buffer := Rest(a.buffer),
       mixed := a.mixed + Take(a.buffer))
  }

  lemma {:induction false} ChosenPrefix(samples: seq<real>, more: seq<real>, flags: seq<bool>)
    requires |flags| <= |samples|
    ensures Chosen(samples + more, flags) == Chosen(samples, flags)
  {
    if flags != [] { ChosenPrefix(samples, more, flags[..|flags| - 1]); }
  }

  lemma {:induction false} ChosenFlags(samples: seq<real>, flags: seq<bool>, b: bool, n: nat)
    requires |flags| + n <= |samples|
    ensures Chosen(samples, flags + Flags(b, n))
         == Chosen(samples, flags) + if b then samples[|flags|..|flags| + n] else []
  {
    if n == 0 {
      assert flags + Flags(b, 0) == flags;
    } else {
      ChosenFlags(samples, flags, b, n - 1);
      assert (flags + Flags(b, n))[..|flags| + n - 1] == flags + Flags(b, n - 1);
      if b {
        assert samples[|flags|..|flags| + n] == samples[|flags|..|flags| + n - 1] + [samples[|flags| + n - 1]];
      }
    }
  }

  lemma AbsorbBalances(a: Account, chunk: seq<real>)
    requires Balanced(a)
    ensures Balanced(AbsorbedBy(a, chunk))
  {
    var a' := AbsorbedBy(a, chunk);
    var excess := |a'.mixedOrDropped| - |a.mixedOrDropped|;
    assert a.buffer + chunk == (a.received + chunk)[|a.mixedOrDropped|..];
    ChosenPrefix(a.received, chunk, a.mixedOrDropped);
    ChosenFlags(a.received + chunk, a.mixedOrDropped, false, excess);
    assert a'.buffer == (a.buffer + chunk)[excess..];
    assert a'.buffer == a'.received[|a'.mixedOrDropped|..];
    assert a.mixed + [] == a.mixed;
  }

  /** Draining a whole channel keeps the account balanced and the buffer as the tick computes it. */
  lemma {:induction false} AbsorbAllBalances(a: Account, chunks: seq<seq<real>>)
    requires Balanced(a)
    ensures Balanced(AbsorbedAllBy(a, chunks))
    ensures AbsorbedAllBy(a, chunks).buffer == AbsorbAll(a.buffer, chunks)
    ensures AbsorbedAllBy(a, chunks).received == a.received + Concat(chunks)
    ensures AbsorbedAllBy(a, chunks).mixed == a.mixed
  {
    if chunks == [] {
      assert a.received + Concat(chunks) == a.received;
    } else {
      var init, last := chunks[..|chunks| - 1], chunks[|chunks| - 1];
      AbsorbAllBalances(a, init);
      AbsorbBalances(AbsorbedAllBy(a, init), last);
      ConcatSnoc(init, last);
      assert init + [last] == chunks;
      assert a.received + Concat(init) + last == a.received + (Concat(init) + last);
    }
  }

  lemma {:induction false} ConcatSnoc(chunks: seq<seq<real>>, last: seq<real>)
    ensures Concat(chunks + [last]) == Concat(chunks) + last
  {
    if chunks == [] {
      assert Concat([last]) == last + Concat([]);
    } else {
      ConcatSnoc(chunks[1..], last);
      assert (chunks + [last])[1..] == chunks[1..] + [last];
      assert chunks[0] + (Concat(chunks[1..]) + last) == chunks[0] + Concat(chunks[1..]) + last;
    }
  }

  lemma MixBalances(a: Account)
    requires Balanced(a)
    ensures Balanced(MixedBy(a))
  {
    var n := |Take(a.buffer)|;
    ChosenFlags(a.received, a.mixedOrDropped, true, n);
    assert a.received[|a.mixedOrDropped|..|a.mixedOrDropped| + n] == Take(a.buffer);
    assert Rest(a.buffer) == a.received[|a.mixedOrDropped| + n..];
  }

  lemma {:induction false} AbsorbAllBounded(buffer: seq<real>, chunks: seq<seq<real>>)
    requires |buffer| <= MAX_SPEAKER_BUFFER
    ensures |AbsorbAll(buffer, chunks)| <= MAX_SPEAKER_BUFFER
  {
    if chunks != [] { AbsorbAllBounded(buffer, chunks[..|chunks| - 1]); }
  }

  /** Draining a channel, whatever its chunks, leaves the newest 4800 of all samples. */
  lemma {:induction false} DrainExactly(buffer: seq<real>, chunks: seq<seq<real>>)
    requires |buffer| <= 4800
    ensures AbsorbAll(buffer, chunks) == Newest(buffer + Concat(chunks), 4800)
  {
    if chunks == [] {
      assert buffer + Concat(chunks) == buffer;
    } else {
      var init, last := chunks[..|chunks| - 1], chunks[|chunks| - 1];
      DrainExactly(buffer, init);
      ConcatSnoc(init, last);
      assert init + [last] == chunks;
      assert buffer + Concat(init) + last == buffer + (Concat(init) + last);
      NewestTwice(buffer + Concat(init), last);
    }
  }

  lemma NewestTwice(s: seq<real>, more: seq<real>)
    ensures Newest(Newest(s, 4800) + more, 4800) == Newest(s + more, 4800)
  {
  }

  // ---- Summing over speakers -----------------------------------------------------------------------

  /** The sum of all contributions at one position. */
  ghost function SumAt(contributions: map<string, Frame>, i: nat): (r: real)
    requires i < FRAME_SIZE && forall k :: k in contributions ==> |contributions[k]| == FRAME_SIZE
    ensures contributions == map[] ==> r == 0.0
    decreases |contributions|
  {
    if contributions == map[] then 0.0
    else
      var k :| k in contributions;
      contributions[k][i] + SumAt(contributions - {k}, i)
  }

  /** The order of summation does not matter. */
  lemma {:induction false} SumAtAny(contributions: map<string, Frame>, k: string, i: nat)
    requires i < FRAME_SIZE && forall k :: k in contributions ==> |contributions[k]| == FRAME_SIZE
    requires k in contributions
    ensures SumAt(contributions, i) == contributions[k][i] + SumAt(contributions - {k}, i)
    decreases |contributions|
  {
    var k' :| k' in contributions && SumAt(contributions, i) == contributions[k'][i] + SumAt(contributions - {k'}, i);
    if k != k' {
      SumAtAny(contributions - {k'}, k, i);
      SumAtAny(contributions - {k}, k', i);
      assert contributions - {k'} - {k} == contributions - {k} - {k'};
    }
  }

  // ---- Sequence numbers and timestamps ----------------------------------------------------------------

  /** After `n` frames the wrapped timestamp is 960 times the wrapped sequence number. */
  lemma TimestampFollows(n: nat)
    ensures (FRAME_SIZE * n) % U32 == (FRAME_SIZE * (n % U32)) % U32
  {
    var q, r := n / U32, n % U32;
    assert FRAME_SIZE * n == FRAME_SIZE * r + (FRAME_SIZE * q) * U32;
    ModAdd(FRAME_SIZE * r, FRAME_SIZE * q);
  }

  lemma {:induction false} ModAdd(a: nat, q: nat)
    ensures (a + q * U32) % U32 == a % U32
    decreases q
  {
    if q > 0 { ModAdd(a + U32, q - 1); }
  }

  lemma ModPlus(a: nat, b: nat)
    ensures (a % U32 + b) % U32 == (a + b) % U32
  {
    ModAdd(a % U32 + b, a / U32);
    assert a % U32 + b + a / U32 * U32 == a + b;
  }

  // ---- The tick --------------------------------------------------------------------------------------

  /** The speakers that stay, with their buffers after draining. */
  function Drained(buffers: map<string, seq<real>>, arrivals: string -> Arrival): map<string, seq<real>> {
    map k | k in buffers && !arrivals(k).closed :: AbsorbAll(buffers[k], arrivals(k).chunks)
  }

  /** Each speaker's frame of this tick. */
  function Contributions(buffers: map<string, seq<real>>): (r: map<string, Frame>)
    ensures forall k :: k in r ==> |r[k]| == FRAME_SIZE
  {
    map k | k in buffers :: Padded(Take(buffers[k]))
  }

  /** The clamped sum of all contributions. */
  ghost function MixOf(contributions: map<string, Frame>): (r: Frame)
    requires forall k :: k in contributions ==> |contributions[k]| == FRAME_SIZE
    ensures |r| == FRAME_SIZE
  {
    seq(FRAME_SIZE, i requires 0 <= i < FRAME_SIZE => Clamp(SumAt(contributions, i)))
  }

  function ClampAll(f: Frame): (r: Frame)
    ensures |r| == |f| && forall i :: 0 <= i < |f| ==> r[i] == Clamp(f[i])
  {
    seq(|f|, i requires 0 <= i < |f| => Clamp(f[i]))
  }

  ghost function SetOf(s: seq<string>): set<string> {
    set x | x in s
  }

  /** The host's own frame, silent when it does not speak. */
  function HostFrame(contributions: map<string, Frame>, host: Option<string>): Frame {
    if host.Some? && host.value in contributions then contributions[host.value] else Silence()
  }

  /** The packet was sent as frame `n` of its stream: number and timestamp wrap at 32 bits, and the
      timestamp is 960 times the number, wrapped. */
  predicate Numbered(s: Sent, p: Packet, n: nat) {
    s.packet == p && s.number == n % 0x1_0000_0000 && s.timestamp == (960 * s.number) % 0x1_0000_0000
  }

  class SequenceCounter {
    var number: nat
    var timestamp: nat
    /** How many frames have been sent, unwrapped. */
    ghost var frames: nat

    ghost predicate Valid()
      reads this
    {
      number == frames % U32 && timestamp == (FRAME_SIZE * frames) % U32
    }

    constructor ()
      ensures Valid() && frames == 0
    {
      number, timestamp, frames := 0, 0, 0;
    }

    /** Sends packets with consecutive 32-bit numbers, and timestamps a frame apart. */
    method Send(packets: seq<Packet>) returns (sent: seq<Sent>)
      requires Valid()
      modifies this
      ensures Valid() && frames == old(frames) + |packets|
      ensures |sent| == |packets|
      ensures forall i :: 0 <= i < |sent| ==> Numbered(sent[i], packets[i], old(frames) + i)
    {
      sent := [];
      for i := 0 to |packets|
        invariant Valid() && frames == old(frames) + i && |sent| == i
        invariant forall k :: 0 <= k < i ==> Numbered(sent[k], packets[k], old(frames) + k)
      {
        TimestampFollows(frames);
        ModPlus(frames, 1);
        ModPlus(FRAME_SIZE * frames, FRAME_SIZE);
        sent := sent + [Sent(number, timestamp, packets[i])];
        number := (number + 1) % U32;
        timestamp := (timestamp + FRAME_SIZE) % U32;
        frames := frames + 1;
      }
    }
  }

  method AddInto(total: array<real>, samples: Frame)
    requires total.Length == FRAME_SIZE == |samples|
    modifies total
    ensures forall i :: 0 <= i < FRAME_SIZE ==> total[i] == old(total[i]) + samples[i]
  {
    for i := 0 to FRAME_SIZE
      invariant forall k :: 0 <= k < i ==> total[k] == old(total[k]) + samples[k]
      invariant forall k :: i <= k < FRAME_SIZE ==> total[k] == old(total[k])
    {
      total[i] := total[i] + samples[i];
    }
  }

  /** One speaker's channel, emptied into its buffer chunk by chunk. */
  method DrainChannel(buffer: seq<real>, chunks: seq<seq<real>>) returns (after: seq<real>)
    ensures after == AbsorbAll(buffer, chunks)
  {
    after := buffer;
    for i := 0 to |chunks|
      invariant after == AbsorbAll(buffer, chunks[..i])
    {
      assert chunks[..i + 1][..i] == chunks[..i];
      after := after + chunks[i];
      if |after| > MAX_SPEAKER_BUFFER {
        var excess := |after| - MAX_SPEAKER_BUFFER;
        after := after[excess..];
      }
    }
    assert chunks[..|chunks|] == chunks;
  }

  /** Adds up one frame of every buffer, in any order. */
  method MixBuffers(buffers: map<string, seq<real>>)
      returns (contributions: map<string, Frame>, rest: map<string, seq<real>>, total: array<real>)
    ensures contributions == Contributions(buffers)
    ensures rest == map k | k in buffers :: Rest(buffers[k])
    ensures fresh(total) && total.Length == FRAME_SIZE
    ensures forall i :: 0 <= i < FRAME_SIZE ==> total[i] == SumAt(contributions, i)
  {
    contributions, rest := map[], map[];
    total := new real[FRAME_SIZE](i => 0.0);
    var left := buffers.Keys;
    while left != {}
      invariant left <= buffers.Keys
      invariant contributions == map k | k in buffers && k !in left :: Padded(Take(buffers[k]))
      invariant rest == map k | k in buffers && k !in left :: Rest(buffers[k])
      invariant forall i :: 0 <= i < FRAME_SIZE ==> total[i] == SumAt(contributions, i)
      decreases left
    {
      var k :| k in left;
      left := left - {k};
      var frame := Padded(Take(buffers[k]));
      AddInto(total, frame);
      ghost var before := contributions;
      contributions := contributions[k := frame];
      rest := rest[k := Rest(buffers[k])];
      assert contributions - {k} == before;
      forall i | 0 <= i < FRAME_SIZE
        ensures SumAt(contributions, i) == frame[i] + SumAt(before, i)
      {
        SumAtAny(contributions, k, i);
      }
    }
  }

  ghost predicate Distinct(s: seq<string>) {
    forall i, j :: 0 <= i < j < |s| ==> s[i] != s[j]
  }

  lemma SetOfSnoc(s: seq<string>, x: string)
    ensures SetOf(s + [x]) == SetOf(s) + {x}
  {
  }

  /** The buffers and closed speakers after the first `n` channels have been drained. */
  ghost predicate DrainedUpTo(buffers: map<string, seq<real>>, speakers: seq<string>, arrivals: string -> Arrival,
                              n: nat, after: map<string, seq<real>>, dead: seq<string>)
    requires n <= |speakers|
  {
    && after.Keys == buffers.Keys
    && (forall k :: k in buffers ==>
          after[k] == if k in speakers[..n] then AbsorbAll(buffers[k], arrivals(k).chunks) else buffers[k])
    && SetOf(dead) == set k | k in speakers[..n] && arrivals(k).closed
  }

  lemma DrainedOne(buffers: map<string, seq<real>>, speakers: seq<string>, arrivals: string -> Arrival,
                   n: nat, after: map<string, seq<real>>, dead: seq<string>)
    requires Distinct(speakers) && SetOf(speakers) == buffers.Keys && n < |speakers|
    requires DrainedUpTo(buffers, speakers, arrivals, n, after, dead)
    ensures speakers[n] in after
    ensures var id := speakers[n];
      DrainedUpTo(buffers, speakers, arrivals, n + 1, after[id := AbsorbAll(after[id], arrivals(id).chunks)],
                  if arrivals(id).closed then dead + [id] else dead)
  {
    var id := speakers[n];
    assert speakers[..n + 1] == speakers[..n] + [id];
    assert id in SetOf(speakers) && id !in speakers[..n];
    SetOfSnoc(dead, id);
  }

  /** Drains every channel in turn; also returns the speakers whose channel is closed. */
  method DrainAll(buffers: map<string, seq<real>>, speakers: seq<string>, arrivals: string -> Arrival)
      returns (after: map<string, seq<real>>, dead: seq<string>)
    requires Distinct(speakers) && SetOf(speakers) == buffers.Keys
    ensures after == map k | k in buffers :: AbsorbAll(buffers[k], arrivals(k).chunks)
    ensures SetOf(dead) == set k | k in buffers && arrivals(k).closed
  {
    after, dead := buffers, [];
    for i := 0 to |speakers|
      invariant DrainedUpTo(buffers, speakers, arrivals, i, after, dead)
    {
      var id := speakers[i];
      DrainedOne(buffers, speakers, arrivals, i, after, dead);
      var drained := DrainChannel(after[id], arrivals(id).chunks);
      after := after[id := drained];
      if arrivals(id).closed {
        dead := dead + [id];
      }
    }
    assert speakers[..|speakers|] == speakers;
    assert forall k :: k in speakers <==> k in SetOf(speakers);
  }

  /** The list without an element. */
  function Retain(s: seq<string>, x: string): (r: seq<string>)
    ensures forall y :: y in r <==> y in s && y != x
  {
    if s == [] then []
    else
      var rest := Retain(s[..|s| - 1], x);
      assert s == s[..|s| - 1] + [s[|s| - 1]];
      if s[|s| - 1] == x then rest else rest + [s[|s| - 1]]
  }

  lemma {:induction false} RetainDistinct(s: seq<string>, x: string)
    requires Distinct(s)
    ensures Distinct(Retain(s, x))
  {
    if s != [] {
      var init, last := s[..|s| - 1], s[|s| - 1];
      RetainDistinct(init, x);
      forall i | 0 <= i < |init|
        ensures init[i] != last
      {
        assert s[i] != s[|s| - 1];
      }
      DistinctSnoc(Retain(init, x), last);
    }
  }

  lemma DistinctSnoc(s: seq<string>, x: string)
    requires Distinct(s) && x !in s
    ensures Distinct(s + [x])
  {
  }

  /** Removes the speakers whose channel is closed, and their buffers. */
  method RemoveAll(buffers: map<string, seq<real>>, speakers: seq<string>, dead: seq<string>)
      returns (left: map<string, seq<real>>, channels: seq<string>)
    requires Distinct(speakers) && SetOf(speakers) == buffers.Keys
    ensures left == buffers - SetOf(dead)
    ensures Distinct(channels) && SetOf(channels) == left.Keys
  {
    left, channels := buffers, speakers;
    for i := 0 to |dead|
      invariant left == buffers - SetOf(dead[..i])
      invariant Distinct(channels) && SetOf(channels) == left.Keys
    {
      assert dead[..i + 1] == dead[..i] + [dead[i]];
      SetOfSnoc(dead[..i], dead[i]);
      RetainDistinct(channels, dead[i]);
      left := left - {dead[i]};
      ghost var before := channels;
      channels := Retain(channels, dead[i]);
      assert SetOf(channels) == SetOf(before) - {dead[i]};
    }
    assert dead[..|dead|] == dead;
  }

  // ---- Accounts over a tick -------------------------------------------------------------------------

  /** Every speaker's account balances, with what its buffer holds, and no buffer exceeds 5 frames. */
  ghost predicate Accounted(buffers: map<string, seq<real>>, accounts: map<string, Account>) {
    && buffers.Keys == accounts.Keys
    && (forall k :: k in buffers ==>
          Balanced(accounts[k]) && accounts[k].buffer == buffers[k] && |buffers[k]| <= MAX_SPEAKER_BUFFER)
  }

  /** A speaker's account after a tick that drains these chunks and mixes one frame. */
  ghost function Ticked(a: Account, chunks: seq<seq<real>>): Account {
    MixedBy(AbsorbedAllBy(a, chunks))
  }

  lemma AccountTicks(a: Account, buffer: seq<real>, chunks: seq<seq<real>>)
    requires Balanced(a) && a.buffer == buffer && |buffer| <= MAX_SPEAKER_BUFFER
    ensures Balanced(AbsorbedAllBy(a, chunks)) && Balanced(Ticked(a, chunks))
    ensures Ticked(a, chunks).buffer == Rest(AbsorbAll(buffer, chunks))
    ensures |Rest(AbsorbAll(buffer, chunks))| <= MAX_SPEAKER_BUFFER
    ensures Ticked(a, chunks).received == a.received + Concat(chunks)
    ensures Ticked(a, chunks).mixed == a.mixed + Take(AbsorbAll(buffer, chunks))
  {
    AbsorbAllBalances(a, chunks);
    AbsorbAllBounded(buffer, chunks);
    MixBalances(AbsorbedAllBy(a, chunks));
  }

  /** A speaker's account after a run: for each tick, the chunks its channel delivered. */
  ghost function AccountAfter(ticks: seq<seq<seq<real>>>): Account {
    if ticks == [] then Account([], [], [], [])
    else Ticked(AccountAfter(ticks[..|ticks| - 1]), ticks[|ticks| - 1])
  }

  function BufferAfter(ticks: seq<seq<seq<real>>>): seq<real> {
    if ticks == [] then [] else Rest(AbsorbAll(BufferAfter(ticks[..|ticks| - 1]), ticks[|ticks| - 1]))
  }

  function Delivered(ticks: seq<seq<seq<real>>>): seq<real> {
    if ticks == [] then [] else Delivered(ticks[..|ticks| - 1]) + Concat(ticks[|ticks| - 1])
  }

  /** What the speaker contributed over the run, tick by tick, without the padding. */
  function Contributed(ticks: seq<seq<seq<real>>>): seq<real> {
    if ticks == [] then []
    else Contributed(ticks[..|ticks| - 1]) + Take(AbsorbAll(BufferAfter(ticks[..|ticks| - 1]), ticks[|ticks| - 1]))
  }

  /** Over any run, every delivered sample is, in order, contributed to exactly one tick, dropped,
      or still buffered; and at most 5 frames are buffered after each tick. */
  lemma {:induction false} RunConserves(ticks: seq<seq<seq<real>>>)
    ensures var a := AccountAfter(ticks);
      && Balanced(a) && a.received == Delivered(ticks) && a.mixed == Contributed(ticks)
      && a.buffer == BufferAfter(ticks) && |a.buffer| <= 4800
  {
    if ticks != [] {
      var init := ticks[..|ticks| - 1];
      RunConserves(init);
      AccountTicks(AccountAfter(init), BufferAfter(init), ticks[|ticks| - 1]);
    }
  }

  /** One frame pushed into an empty encoder comes straight out again. */
  lemma FrameAtOnce(frame: Frame)
    requires |frame| == FRAME_SIZE
    ensures Frames(Newest([] + frame, MAX_BUFFER)) == ([frame], [])
    ensures forall encodes: Frame -> bool :: Encoded([frame], encodes) == if encodes(frame) then [Packet(frame)] else []
  {
    assert Newest([] + frame, MAX_BUFFER) == frame;
    assert frame[..FRAME_SIZE] == frame && frame[FRAME_SIZE..] == [];
    assert Frames(frame[FRAME_SIZE..]) == ([], []);
    assert [frame] + [] == [frame];
    forall encodes: Frame -> bool
      ensures Encoded([frame], encodes) == if encodes(frame) then [Packet(frame)] else []
    {
      assert Encoded([frame][1..], encodes) == [];
    }
  }

  // ---- What a tick does, sample by sample -------------------------------------------------------

  /** Sample `i` of all buffers together. */
  ghost function TotalAt(buffers: map<string, seq<real>>, i: nat): (r: real)
    ensures buffers == map[] ==> r == 0.0
    decreases |buffers|
  {
    if buffers == map[] then 0.0
    else
      var k :| k in buffers;
      SampleAt(buffers[k], i) + TotalAt(buffers - {k}, i)
  }

  /** Each contribution is the first 960 samples of the speaker's buffer, filled up with silence. */
  lemma ContributionAt(buffers: map<string, seq<real>>, k: string, i: nat)
    requires k in buffers && i < 960
    ensures k in Contributions(buffers) && |Contributions(buffers)[k]| == 960
    ensures Contributions(buffers)[k][i] == SampleAt(buffers[k], i)
  {
    assert |Take(buffers[k])| == Min(|buffers[k]|, 960);
  }

  lemma {:induction false} TotalOfContributions(buffers: map<string, seq<real>>, i: nat)
    requires i < 960
    ensures SumAt(Contributions(buffers), i) == TotalAt(buffers, i)
    decreases |buffers|
  {
    if buffers == map[] {
      assert Contributions(buffers) == map[];
    } else {
      var k :| k in buffers && TotalAt(buffers, i) == SampleAt(buffers[k], i) + TotalAt(buffers - {k}, i);
      ContributionAt(buffers, k, i);
      SumAtAny(Contributions(buffers), k, i);
      assert Contributions(buffers) - {k} == Contributions(buffers - {k});
      TotalOfContributions(buffers - {k}, i);
    }
  }

  /** Listeners hear, at each position, the clamped sum of all speakers' samples; the host hears
      that of all others; and the speakers hear the host's own clamped samples. */
  lemma MixSamples(buffers: map<string, seq<real>>, host: string, i: nat)
    requires i < 960
    ensures |MixOf(Contributions(buffers))| == 960
    ensures MixOf(Contributions(buffers))[i] == Clamp(TotalAt(buffers, i))
    ensures |MixOf(Contributions(buffers) - {host})| == 960
    ensures MixOf(Contributions(buffers) - {host})[i] == Clamp(TotalAt(buffers - {host}, i))
    ensures |HostFrame(Contributions(buffers), Some(host))| == 960
    ensures ClampAll(HostFrame(Contributions(buffers), Some(host)))[i]
         == Clamp(if host in buffers then SampleAt(buffers[host], i) else 0.0)
    ensures |HostFrame(Contributions(buffers), None)| == 960
    ensures ClampAll(HostFrame(Contributions(buffers), None))[i] == 0.0
  {
    TotalOfContributions(buffers, i);
    TotalOfContributions(buffers - {host}, i);
    assert Contributions(buffers) - {host} == Contributions(buffers - {host});
    if host in buffers { ContributionAt(buffers, host, i); }
  }

  /** The frame holds the clamped sum of the buffers at each position. */
  ghost predicate Mixes(frame: Frame, buffers: map<string, seq<real>>) {
    |frame| == 960 && forall i :: 0 <= i < 960 ==> frame[i] == Clamp(TotalAt(buffers, i))
  }

  /** The frame holds the samples of one buffer, clamped, or silence without a speaker. */
  predicate Voices(frame: Frame, buffers: map<string, seq<real>>, speaker: Option<string>) {
    && |frame| == 960
    && forall i :: 0 <= i < 960 ==>
         frame[i] == if speaker.Some? && speaker.value in buffers
                     then Clamp(SampleAt(buffers[speaker.value], i)) else 0.0
  }

  lemma MixesAndVoices(buffers: map<string, seq<real>>, host: Option<string>)
    ensures Mixes(MixOf(Contributions(buffers)), buffers)
    ensures host.Some? ==> Mixes(MixOf(Contributions(buffers) - {host.value}), buffers - {host.value})
    ensures Voices(ClampAll(HostFrame(Contributions(buffers), host)), buffers, host)
  {
    forall i | 0 <= i < 960
      ensures MixOf(Contributions(buffers))[i] == Clamp(TotalAt(buffers, i))
      ensures host.Some? ==>
        MixOf(Contributions(buffers) - {host.value})[i] == Clamp(TotalAt(buffers - {host.value}, i))
      ensures |HostFrame(Contributions(buffers), host)| == 960
      ensures ClampAll(HostFrame(Contributions(buffers), host))[i]
           == if host.Some? && host.value in buffers then Clamp(SampleAt(buffers[host.value], i)) else 0.0
    {
      MixSamples(buffers, if host.Some? then host.value else "", i);
    }
  }

  /** A tick keeps exactly the speakers whose channel is open; each then holds the newest 4800 of
      its old and new samples, less the first 960 of them. */
  lemma BuffersExactly(buffers: map<string, seq<real>>, arrivals: string -> Arrival, k: string)
    requires k in buffers ==> |buffers[k]| <= 4800
    ensures k in Drained(buffers, arrivals) <==> k in buffers && !arrivals(k).closed
    ensures k in BuffersAfter(buffers, arrivals) <==> k in Drained(buffers, arrivals)
    ensures k in Drained(buffers, arrivals) ==>
      var all := Newest(buffers[k] + Concat(arrivals(k).chunks), 4800);
      && Drained(buffers, arrivals)[k] == all
      && BuffersAfter(buffers, arrivals)[k] == all[Min(|all|, 960)..]
  {
    if k in buffers { DrainExactly(buffers[k], arrivals(k).chunks); }
  }

  /** The buffers, and the accounts, after a tick; and the closed accounts of those who left. */
  function BuffersAfter(buffers: map<string, seq<real>>, arrivals: string -> Arrival): map<string, seq<real>> {
    map k | k in Drained(buffers, arrivals) :: Rest(Drained(buffers, arrivals)[k])
  }

  ghost function AccountsAfter(accounts: map<string, Account>, arrivals: string -> Arrival): map<string, Account> {
    map k | k in accounts && !arrivals(k).closed :: Ticked(accounts[k], arrivals(k).chunks)
  }

  ghost function Closed(accounts: map<string, Account>, arrivals: string -> Arrival): set<Account> {
    set k | k in accounts && arrivals(k).closed :: AbsorbedAllBy(accounts[k], arrivals(k).chunks)
  }

  lemma TickKeepsAccounts(buffers: map<string, seq<real>>, accounts: map<string, Account>, arrivals: string -> Arrival)
    requires Accounted(buffers, accounts)
    ensures Accounted(BuffersAfter(buffers, arrivals), AccountsAfter(accounts, arrivals))
    ensures forall a :: a in Closed(accounts, arrivals) ==> Balanced(a)
  {
    forall k | k in BuffersAfter(buffers, arrivals)
      ensures k in AccountsAfter(accounts, arrivals)
      ensures var a := AccountsAfter(accounts, arrivals)[k];
        Balanced(a) && a.buffer == BuffersAfter(buffers, arrivals)[k] && |a.buffer| <= MAX_SPEAKER_BUFFER
    {
      AccountTicks(accounts[k], buffers[k], arrivals(k).chunks);
    }
    forall a | a in Closed(accounts, arrivals)
      ensures Balanced(a)
    {
      var k :| k in accounts && arrivals(k).closed && a == AbsorbedAllBy(accounts[k], arrivals(k).chunks);
      AccountTicks(accounts[k], buffers[k], arrivals(k).chunks);
    }
    assert BuffersAfter(buffers, arrivals).Keys == AccountsAfter(accounts, arrivals).Keys;
  }

  /** The buffering part of a tick: drain, remove, and take one frame of each buffer. */
  method Collect(buffers: map<string, seq<real>>, speakers: seq<string>, arrivals: string -> Arrival)
      returns (after: map<string, seq<real>>, channels: seq<string>, contributions: map<string, Frame>,
               total: array<real>)
    requires Distinct(speakers) && SetOf(speakers) == buffers.Keys
    ensures after == BuffersAfter(buffers, arrivals)
    ensures Distinct(channels) && SetOf(channels) == after.Keys
    ensures contributions == Contributions(Drained(buffers, arrivals))
    ensures fresh(total) && total.Length == FRAME_SIZE
    ensures forall i :: 0 <= i < FRAME_SIZE ==> total[i] == SumAt(contributions, i)
  {
    var filled, dead := DrainAll(buffers, speakers, arrivals);
    var left;
    left, channels := RemoveAll(filled, speakers, dead);
    assert left == Drained(buffers, arrivals);
    contributions, after, total := MixBuffers(left);
  }

  /** The clamped total. */
  method FullMix(total: array<real>, contributions: map<string, Frame>) returns (mix: Frame)
    requires forall k :: k in contributions ==> |contributions[k]| == FRAME_SIZE
    requires total.Length == FRAME_SIZE && forall i :: 0 <= i < FRAME_SIZE ==> total[i] == SumAt(contributions, i)
    ensures mix == MixOf(contributions)
  {
    mix := seq(FRAME_SIZE, i requires 0 <= i < FRAME_SIZE reads total => Clamp(total[i]));
  }

  /** The clamped total less the host's own contribution. */
  method MixMinus(total: array<real>, contributions: map<string, Frame>, host: string) returns (mix: Frame)
    requires forall k :: k in contributions ==> |contributions[k]| == FRAME_SIZE
    requires total.Length == FRAME_SIZE && forall i :: 0 <= i < FRAME_SIZE ==> total[i] == SumAt(contributions, i)
    ensures mix == MixOf(contributions - {host})
  {
    var own := HostFrame(contributions, Some(host));
    forall i | 0 <= i < FRAME_SIZE
      ensures total[i] - own[i] == SumAt(contributions - {host}, i)
    {
      WithoutOne(contributions, host, i);
    }
    mix := seq(FRAME_SIZE, i requires 0 <= i < FRAME_SIZE reads total => Clamp(total[i] - own[i]));
  }

  /** Subtracting one contribution leaves the sum of the others; an absent one is silence. */
  lemma WithoutOne(contributions: map<string, Frame>, host: string, i: nat)
    requires i < FRAME_SIZE && forall k :: k in contributions ==> |contributions[k]| == FRAME_SIZE
    ensures SumAt(contributions, i) - HostFrame(contributions, Some(host))[i] == SumAt(contributions - {host}, i)
  {
    if host in contributions {
      SumAtAny(contributions, host, i);
    } else {
      assert contributions - {host} == contributions;
    }
  }

  /** What is sent for one frame: one packet, or none when the codec fails. */
  ghost predicate SentOnce(sent: seq<Sent>, frame: Frame, encodes: Frame -> bool, n: nat) {
    if encodes(frame) then |sent| == 1 && Numbered(sent[0], Packet(frame), n) else sent == []
  }

  /** One frame through an empty encoder and out on a fanout. */
  method EncodeAndSend(encoder: OpusEncoder, counter: SequenceCounter, frame: Frame, encodes: Frame -> bool)
      returns (sent: seq<Sent>)
    requires encoder.buffer == [] && counter.Valid() && |frame| == FRAME_SIZE
    modifies encoder, counter
    ensures encoder.buffer == [] && counter.Valid()
    ensures SentOnce(sent, frame, encodes, old(counter.frames)) && counter.frames == old(counter.frames) + |sent|
  {
    FrameAtOnce(frame);
    var packets := encoder.PushSamples(frame, encodes);
    sent := counter.Send(packets);
  }

  /** Listeners get the mix of all speakers, the host that of all others, the speakers the host. */
  ghost predicate AllHear(buffers: map<string, seq<real>>, host: Option<string>,
                          toListeners: seq<Sent>, toHost: Option<Frame>, toSpeakers: seq<Sent>)
  {
    && (forall s :: s in toListeners ==> Mixes(s.packet.frame, buffers))
    && (toHost.Some? <==> host.Some?)
    && (toHost.Some? ==> Mixes(toHost.value, buffers - {host.value}))
    && (forall s :: s in toSpeakers ==> Voices(s.packet.frame, buffers, host))
  }

  lemma AllHearTick(buffers: map<string, seq<real>>, host: Option<string>, toListeners: seq<Sent>,
                    toHost: Option<Frame>, toSpeakers: seq<Sent>, encodes: Frame -> bool, n: nat, m: nat)
    requires var contributions := Contributions(buffers);
      && SentOnce(toListeners, MixOf(contributions), encodes, n)
      && toHost == (if host.None? then None else Some(MixOf(contributions - {host.value})))
      && SentOnce(toSpeakers, ClampAll(HostFrame(contributions, host)), encodes, m)
    ensures AllHear(buffers, host, toListeners, toHost, toSpeakers)
  {
    MixesAndVoices(buffers, host);
  }

  class HostMixer {
    var buffers: map<string, seq<real>>
    /** The speakers with an open channel, in order of joining. */
    var speakers: seq<string>
    var hostSpeaker: Option<string>
    const listenerEncoder: OpusEncoder
    const hostEncoder: OpusEncoder
    const listenerCounter: SequenceCounter
    const hostCounter: SequenceCounter
    /** What became of every sample of each present speaker, and of each one that has left. */
    ghost var accounts: map<string, Account>
    ghost var departed: set<Account>

    ghost predicate Valid()
      reads this, listenerEncoder, hostEncoder, listenerCounter, hostCounter
    {
      && listenerEncoder != hostEncoder && listenerCounter != hostCounter
      && listenerEncoder.buffer == [] && hostEncoder.buffer == []
      && listenerCounter.Valid() && hostCounter.Valid()
      && Distinct(speakers) && SetOf(speakers) == buffers.Keys
      && Accounted(buffers, accounts)
      && (forall a :: a in departed ==> Balanced(a))
    }

    constructor ()
      ensures Valid() && buffers == map[] && departed == {} && hostSpeaker == None
      ensures fresh(listenerEncoder) && fresh(hostEncoder) && fresh(listenerCounter) && fresh(hostCounter)
    {
      buffers, speakers, hostSpeaker, accounts, departed := map[], [], None, map[], {};
      listenerEncoder := new OpusEncoder();
      hostEncoder := new OpusEncoder();
      listenerCounter := new SequenceCounter();
      hostCounter := new SequenceCounter();
    }

    method AddSpeaker(id: string)
      requires Valid() && id !in buffers
      modifies this`buffers, this`speakers, this`accounts
      ensures Valid() && buffers == old(buffers)[id := []] && accounts == old(accounts)[id := Account([], [], [], [])]
    {
      assert id !in SetOf(speakers);
      SetOfSnoc(speakers, id);
      DistinctSnoc(speakers, id);
      buffers := buffers[id := []];
      speakers := speakers + [id];
      accounts := accounts[id := Account([], [], [], [])];
    }

    method SetHostSpeaker(id: string)
      requires Valid()
      modifies this`hostSpeaker
      ensures Valid() && hostSpeaker == Some(id)
    {
      hostSpeaker := Some(id);
    }

    /** The buffering part of a tick: every speaker's account stays balanced. */
    method Advance(arrivals: string -> Arrival) returns (contributions: map<string, Frame>, total: array<real>)
      requires Valid()
      modifies this`buffers, this`speakers, this`accounts, this`departed
      ensures Valid()
      ensures buffers == BuffersAfter(old(buffers), arrivals)
      ensures accounts == AccountsAfter(old(accounts), arrivals)
      ensures departed == old(departed) + Closed(old(accounts), arrivals)
      ensures contributions == Contributions(Drained(old(buffers), arrivals))
      ensures fresh(total) && total.Length == FRAME_SIZE
      ensures forall i :: 0 <= i < FRAME_SIZE ==> total[i] == SumAt(contributions, i)
    {
      TickKeepsAccounts(buffers, accounts, arrivals);
      var after, channels;
      after, channels, contributions, total := Collect(buffers, speakers, arrivals);
      buffers, speakers := after, channels;
      departed := departed + Closed(accounts, arrivals);
      accounts := AccountsAfter(accounts, arrivals);
    }

    /** The sending part of a tick. */
    method Emit(contributions: map<string, Frame>, total: array<real>, encodes: Frame -> bool)
        returns (toListeners: seq<Sent>, toHost: Option<Frame>, toSpeakers: seq<Sent>)
      requires Valid()
      requires forall k :: k in contributions ==> |contributions[k]| == FRAME_SIZE
      requires total.Length == FRAME_SIZE && forall i :: 0 <= i < FRAME_SIZE ==> total[i] == SumAt(contributions, i)
      modifies listenerEncoder, hostEncoder, listenerCounter, hostCounter
      ensures Valid()
      ensures SentOnce(toListeners, MixOf(contributions), encodes, old(listenerCounter.frames))
      ensures toHost == if hostSpeaker.None? then None else Some(MixOf(contributions - {hostSpeaker.value}))
      ensures SentOnce(toSpeakers, ClampAll(HostFrame(contributions, hostSpeaker)), encodes, old(hostCounter.frames))
      ensures listenerCounter.frames == old(listenerCounter.frames) + |toListeners|
      ensures hostCounter.frames == old(hostCounter.frames) + |toSpeakers|
    {
      var mix := FullMix(total, contributions);
      toHost := None;
      if hostSpeaker.Some? {
        var others := MixMinus(total, contributions, hostSpeaker.value);
        toHost := Some(others);
      }
      var own := ClampAll(HostFrame(contributions, hostSpeaker));
      toListeners := EncodeAndSend(listenerEncoder, listenerCounter, mix, encodes);
      toSpeakers := EncodeAndSend(hostEncoder, hostCounter, own, encodes);
    }

    /** One tick: listeners get the clamped sum of all contributions, the host the clamped sum of
        all but its own, and the other speakers the host's own frame. */
    method Tick(arrivals: string -> Arrival, encodes: Frame -> bool)
        returns (toListeners: seq<Sent>, toHost: Option<Frame>, toSpeakers: seq<Sent>)
      requires Valid()
      modifies this`buffers, this`speakers, this`accounts, this`departed
      modifies listenerEncoder, hostEncoder, listenerCounter, hostCounter
      ensures Valid()
      ensures buffers == BuffersAfter(old(buffers), arrivals)
      ensures accounts == AccountsAfter(old(accounts), arrivals)
      ensures departed == old(departed) + Closed(old(accounts), arrivals)
      ensures var contributions := Contributions(Drained(old(buffers), arrivals));
        && SentOnce(toListeners, MixOf(contributions), encodes, old(listenerCounter.frames))
        && toHost == (if hostSpeaker.None? then None else Some(MixOf(contributions - {hostSpeaker.value})))
        && SentOnce(toSpeakers, ClampAll(HostFrame(contributions, hostSpeaker)), encodes, old(hostCounter.frames))
      ensures AllHear(Drained(old(buffers), arrivals), hostSpeaker, toListeners, toHost, toSpeakers)
      ensures listenerCounter.frames == old(listenerCounter.frames) + |toListeners|
      ensures hostCounter.frames == old(hostCounter.frames) + |toSpeakers|
    {
      ghost var left, n, m := Drained(buffers, arrivals), listenerCounter.frames, hostCounter.frames;
      var contributions, total := Advance(arrivals);
      toListeners, toHost, toSpeakers := Emit(contributions, total, encodes);
      AllHearTick(left, hostSpeaker, toListeners, toHost, toSpeakers, encodes, n, m);
    }
  }
}
