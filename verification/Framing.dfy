/** Length-prefixed frames (src-tauri/src/framing.rs) and audio frames
    (src-tauri/src/audio/transport.rs) over byte streams. */
module Framing {
  import opened Wrappers

  type Byte = n: nat | n < 256

  type Bytes = seq<Byte>

  const MAX_FRAME_SIZE: nat := 10_000_000
  const HEADER_SIZE: nat := 9
  const U16: nat := 0x1_0000
  const U32: nat := 0x1_0000_0000

  /** How a stream ends after its last byte: finished by the peer, closed on this side, or reset. */
  datatype Ending = Finished | Closed | Reset

  datatype ReadError = FinishedEarly | ClosedStream | ResetStream | FrameTooLarge | FrameTooShort

  /** The bytes still to come on a stream, and its end. */
  datatype Incoming = Incoming(bytes: Bytes, ending: Ending)

  function ErrorOf(e: Ending): (r: ReadError)
    ensures r.FinishedEarly? <==> e.Finished?
    ensures r.ClosedStream? <==> e.Closed?
    ensures r.ResetStream? <==> e.Reset?
  {
    match e
    case Finished => FinishedEarly
    case Closed => ClosedStream
    case Reset => ResetStream
  }

  function BigEndian16(n: nat): (r: Bytes)
    requires n < U16
    ensures |r| == 2
  {
    [n / 256, n % 256]
  }

  function FromBigEndian16(b: Bytes): (n: nat)
    requires |b| == 2
    ensures n < U16
  {
    b[0] as int * 256 + b[1] as int
  }

  function BigEndian32(n: nat): (r: Bytes)
    requires n < U32
    ensures |r| == 4
  {
    BigEndian16(n / U16) + BigEndian16(n % U16)
  }

  function FromBigEndian32(b: Bytes): (n: nat)
    requires |b| == 4
    ensures n < U32
  {
    FromBigEndian16(b[..2]) * U16 + FromBigEndian16(b[2..])
  }

  lemma BigEndian16Inverse(n: nat)
    requires n < U16
    ensures FromBigEndian16(BigEndian16(n)) == n
  {
  }

  lemma BigEndian32Inverse(n: nat)
    requires n < U32
    ensures FromBigEndian32(BigEndian32(n)) == n
  {
    var b := BigEndian32(n);
    assert b[..2] == BigEndian16(n / U16) && b[2..] == BigEndian16(n % U16);
    BigEndian16Inverse(n / U16);
    BigEndian16Inverse(n % U16);
  }

  /** The most significant byte comes first. */
  lemma BigEndianBytes(n: nat)
    ensures n < 0x1_0000 ==> BigEndian16(n) == [n / 0x100, n % 0x100]
    ensures n < 0x1_0000_0000 ==>
      BigEndian32(n) == [n / 0x100_0000, n / 0x1_0000 % 0x100, n / 0x100 % 0x100, n % 0x100]
  {
    Quotients(n);
  }

  lemma Quotients(n: nat)
    ensures n / 0x1_0000 / 0x100 == n / 0x100_0000
    ensures n % 0x1_0000 / 0x100 == n / 0x100 % 0x100
    ensures n % 0x1_0000 % 0x100 == n % 0x100
  {
  }

  // ---- Streams ------------------------------------------------------------------------------

  class SendStream {
    var written: Bytes

    constructor ()
      ensures written == []
    {
      written := [];
    }

    method WriteAll(data: Bytes)
      modifies this
      ensures written == old(written) + data
    {
      written := written + data;
    }
  }

  class RecvStream {
    var bytes: Bytes
    const ending: Ending

    function View(): Incoming
      reads this
    {
      Incoming(bytes, ending)
    }

    constructor (stream: Incoming)
      ensures View() == stream
    {
      bytes, ending := stream.bytes, stream.ending;
    }

    /** Fills a buffer of `n` bytes, or fails at the end of the stream. */
    method ReadExact(n: nat) returns (r: Result<Bytes, ReadError>)
      modifies this
      ensures |old(bytes)| < n ==> r == Err(ErrorOf(ending)) && bytes == []
      ensures |old(bytes)| >= n ==> r == Ok(old(bytes)[..n]) && bytes == old(bytes)[n..]
    {
      if |bytes| < n {
        bytes := [];
        return Err(ErrorOf(ending));
      }
      r := Ok(bytes[..n]);
      bytes := bytes[n..];
    }
  }

  // ---- Length-prefixed frames ------------------------------------------------------------------

  /** The wire form; the length is truncated to 32 bits. */
  function WireFrame(data: Bytes): Bytes {
    BigEndian32(|data| % U32) + data
  }

  /** What reading one frame returns, and the bytes left. */
  function ReadFrom(s: Incoming): (Result<Option<Bytes>, ReadError>, Bytes) {
    if |s.bytes| < 4 then (Err(ErrorOf(s.ending)), [])
    else
      var len, rest := FromBigEndian32(s.bytes[..4]), s.bytes[4..];
      if len == 0 then (Ok(None), rest)
      else if len > MAX_FRAME_SIZE then (Err(FrameTooLarge), rest)
      else if |rest| < len then (Err(ErrorOf(s.ending)), [])
      else (Ok(Some(rest[..len])), rest[len..])
  }

  method WriteFrame(send: SendStream, data: Bytes)
    modifies send
    ensures send.written == old(send.written) + WireFrame(data)
  {
    var len := |data| % U32;
    send.WriteAll(BigEndian32(len));
    if data != [] {
      send.WriteAll(data);
    }
  }

  method ReadFrame(recv: RecvStream) returns (r: Result<Option<Bytes>, ReadError>)
    modifies recv
    ensures (r, recv.bytes) == ReadFrom(old(recv.View()))
  {
    var prefix := recv.ReadExact(4);
    if prefix.Err? {
      return Err(prefix.error);
    }
    var len := FromBigEndian32(prefix.value);
    if len == 0 {
      return Ok(None);
    }
    if len > MAX_FRAME_SIZE {
      return Err(FrameTooLarge);
    }
    var data := recv.ReadExact(len);
    if data.Err? {
      return Err(data.error);
    }
    r := Ok(Some(data.value));
  }

  /** A receiver's loop: frames up to the empty one (`true`), or up to the first error (`false`). */
  function ReadAllFrom(s: Incoming): (seq<Bytes>, bool)
    decreases |s.bytes|
  {
    var (r, rest) := ReadFrom(s);
    match r
    case Err(_) => ([], false)
    case Ok(None) => ([], true)
    case Ok(Some(data)) =>
      Prepend([data], ReadAllFrom(s.(bytes := rest)))
  }

  method ReadAll(recv: RecvStream) returns (frames: seq<Bytes>, ended: bool)
    modifies recv
    ensures (frames, ended) == ReadAllFrom(old(recv.View()))
  {
    frames := [];
    ghost var all := ReadAllFrom(recv.View());
    assert [] + all.0 == all.0;
    while true
      invariant all == Prepend(frames, ReadAllFrom(recv.View()))
      decreases |recv.bytes|
    {
      ghost var here := recv.View();
      var r := ReadFrame(recv);
      if r.Err? || r.value.None? {
        assert ReadAllFrom(here).0 == [] && frames + [] == frames;
        return frames, r.Ok?;
      }
      PrependOne(frames, r.value.value, ReadAllFrom(recv.View()));
      frames := frames + [r.value.value];
    }
  }

  function Prepend(frames: seq<Bytes>, r: (seq<Bytes>, bool)): (seq<Bytes>, bool) {
    (frames + r.0, r.1)
  }

  lemma PrependOne(frames: seq<Bytes>, data: Bytes, r: (seq<Bytes>, bool))
    ensures Prepend(frames + [data], r) == Prepend(frames, Prepend([data], r))
  {
    assert frames + [data] + r.0 == frames + ([data] + r.0);
  }

  method WriteStream(send: SendStream, payloads: seq<Bytes>)
    modifies send
    ensures send.written == old(send.written) + WireStream(payloads)
  {
    for i := 0 to |payloads|
      invariant send.written + WireStream(payloads[i..]) == old(send.written) + WireStream(payloads)
    {
      assert payloads[i..][0] == payloads[i] && payloads[i..][1..] == payloads[i + 1..];
      ghost var before := send.written;
      WriteFrame(send, payloads[i]);
      assert before + (WireFrame(payloads[i]) + WireStream(payloads[i + 1..]))
          == send.written + WireStream(payloads[i + 1..]);
    }
    WriteFrame(send, []);
  }

  /** The frames followed by the empty end marker. */
  function WireStream(payloads: seq<Bytes>): Bytes {
    if payloads == [] then WireFrame([]) else WireFrame(payloads[0]) + WireStream(payloads[1..])
  }

  predicate Sendable(data: Bytes) {
    1 <= |data| <= 10_000_000
  }

  lemma WireParts(data: Bytes, more: Bytes)
    ensures var bytes := WireFrame(data) + more;
      |bytes| == 4 + |data| + |more| && bytes[..4] == BigEndian32(|data| % U32) && bytes[4..] == data + more
  {
  }

  /** A frame is read back exactly when its length is between 1 and 10,000,000 bytes. */
  lemma FrameRoundTrip(data: Bytes, more: Bytes, ending: Ending)
    ensures ReadFrom(Incoming(WireFrame(data) + more, ending)) == (Ok(Some(data)), more) <==> Sendable(data)
  {
    WireParts(data, more);
    BigEndian32Inverse(|data| % U32);
    if Sendable(data) {
      assert (data + more)[..|data|] == data && (data + more)[|data|..] == more;
    }
  }

  /** A frame that is too long, but whose length fits 32 bits, is refused after its length. */
  lemma OversizeRefused(data: Bytes, more: Bytes, ending: Ending)
    requires 10_000_000 < |data| < 0x1_0000_0000
    ensures ReadFrom(Incoming(WireFrame(data) + more, ending)) == (Err(FrameTooLarge), data + more)
  {
    WireParts(data, more);
    BigEndian32Inverse(|data|);
  }

  lemma EndMarker(more: Bytes, ending: Ending)
    ensures ReadFrom(Incoming(WireFrame([]) + more, ending)) == (Ok(None), more)
  {
    BigEndian32Inverse(0);
    assert (WireFrame([]) + more)[..4] == BigEndian32(0);
    assert (WireFrame([]) + more)[4..] == more;
  }

  /** Writing payloads and the end marker and reading to the marker returns the same payloads. */
  lemma {:induction false} StreamRoundTrip(payloads: seq<Bytes>, more: Bytes, ending: Ending)
    requires forall i :: 0 <= i < |payloads| ==> Sendable(payloads[i])
    ensures ReadAllFrom(Incoming(WireStream(payloads) + more, ending)) == (payloads, true)
  {
    if payloads == [] {
      EndMarker(more, ending);
    } else {
      var p, rest := payloads[0], payloads[1..];
      StreamRoundTrip(rest, more, ending);
      FrameRoundTrip(p, WireStream(rest) + more, ending);
      Reassociate(WireFrame(p), WireStream(rest), more);
      assert payloads == [p] + rest;
    }
  }

  lemma Reassociate(a: Bytes, b: Bytes, c: Bytes)
    ensures a + b + c == a + (b + c)
  {
  }

  /** The length of some frames on the wire, without the end marker. */
  function WireLength(payloads: seq<Bytes>): nat {
    if payloads == [] then 0 else 4 + |payloads[0]| + WireLength(payloads[1..])
  }

  /** A truncated stream yields, in order, exactly the payloads that arrived whole, and then an error. */
  lemma {:induction false} TruncationDetected(payloads: seq<Bytes>, kept: nat, ending: Ending)
    requires forall i :: 0 <= i < |payloads| ==> Sendable(payloads[i])
    requires kept < |WireStream(payloads)|
    ensures var (frames, ended) := ReadAllFrom(Incoming(WireStream(payloads)[..kept], ending));
      && !ended && frames <= payloads
      && WireLength(frames) <= kept
      && (|frames| < |payloads| ==> kept < WireLength(payloads[..|frames| + 1]))
  {
    if payloads != [] {
      var p, rest := payloads[0], payloads[1..];
      var n := |WireFrame(p)|;
      if kept < n {
        CutFrame(p, WireStream(payloads)[..kept], ending);
        assert payloads[..1][1..] == [];
      } else {
        CutLater(p, WireStream(rest), kept, ending);
        TruncationDetected(rest, kept - n, ending);
        var frames := ReadAllFrom(Incoming(WireStream(rest)[..kept - n], ending)).0;
        OneMoreFrame(p, rest, frames);
        assert payloads == [p] + rest;
      }
    }
  }

  lemma OneMoreFrame(p: Bytes, rest: seq<Bytes>, frames: seq<Bytes>)
    ensures WireLength([p] + frames) == 4 + |p| + WireLength(frames)
    ensures |frames| < |rest| ==> WireLength(([p] + rest)[..|frames| + 2]) == 4 + |p| + WireLength(rest[..|frames| + 1])
  {
    assert ([p] + frames)[1..] == frames;
    if |frames| < |rest| {
      var first := ([p] + rest)[..|frames| + 2];
      assert first[0] == p && first[1..] == rest[..|frames| + 1];
    }
  }

  lemma CutLater(p: Bytes, more: Bytes, kept: nat, ending: Ending)
    requires Sendable(p) && |WireFrame(p)| <= kept <= |WireFrame(p) + more|
    ensures ReadFrom(Incoming((WireFrame(p) + more)[..kept], ending)) == (Ok(Some(p)), more[..kept - |WireFrame(p)|])
  {
    assert (WireFrame(p) + more)[..kept] == WireFrame(p) + more[..kept - |WireFrame(p)|];
    FrameRoundTrip(p, more[..kept - |WireFrame(p)|], ending);
  }

  lemma CutFrame(p: Bytes, cut: Bytes, ending: Ending)
    requires Sendable(p) && |cut| < |WireFrame(p)| && cut == WireFrame(p)[..|cut|]
    ensures ReadFrom(Incoming(cut, ending)) == (Err(ErrorOf(ending)), [])
  {
    if |cut| >= 4 {
      BigEndian32Inverse(|p|);
      assert cut[..4] == BigEndian32(|p|);
      assert |cut[4..]| < |p|;
    }
  }

  // ---- Audio frames -----------------------------------------------------------------------------

  datatype AudioFrame = AudioFrame(number: nat, timestamp: nat, tag: Byte, payload: Bytes)

  predicate InRange(f: AudioFrame) {
    f.number < U32 && f.timestamp < U32
  }

  function EncodeAudio(f: AudioFrame): Bytes
    requires InRange(f)
  {
    BigEndian32(f.number) + BigEndian32(f.timestamp) + [f.tag] + f.payload
  }

  function DecodeAudio(b: Bytes): Result<AudioFrame, ReadError> {
    if |b| < HEADER_SIZE then Err(FrameTooShort)
    else Ok(AudioFrame(FromBigEndian32(b[0..4]), FromBigEndian32(b[4..8]), b[8], b[HEADER_SIZE..]))
  }

  /** Number and timestamp, most significant bytes first, then the tag, then the payload. */
  lemma AudioLayout(f: AudioFrame)
    requires InRange(f)
    ensures var b := EncodeAudio(f);
      && |b| == 9 + |f.payload|
      && b[..4] == BigEndian32(f.number) && b[4..8] == BigEndian32(f.timestamp)
      && b[8] == f.tag && b[9..] == f.payload
  {
  }

  /** The wire form; the length is truncated to 16 bits. */
  function WireAudio(f: AudioFrame): Bytes
    requires InRange(f)
  {
    BigEndian16(|EncodeAudio(f)| % U16) + EncodeAudio(f)
  }

  /** What reading one audio frame returns, and the bytes left. Only a stream closed on this side
      reads as no frame; any other end is an error. */
  function ReadAudioFrom(s: Incoming): (Result<Option<AudioFrame>, ReadError>, Bytes) {
    if |s.bytes| < 2 then (if s.ending.Closed? then Ok(None) else Err(ErrorOf(s.ending)), [])
    else
      var len, rest := FromBigEndian16(s.bytes[..2]), s.bytes[2..];
      if len < HEADER_SIZE then (Err(FrameTooShort), rest)
      else if |rest| < len then (Err(ErrorOf(s.ending)), [])
      else (Ok(Some(DecodeAudio(rest[..len]).value)), rest[len..])
  }

  method WriteAudioFrame(send: SendStream, f: AudioFrame)
    requires InRange(f)
    modifies send
    ensures send.written == old(send.written) + WireAudio(f)
  {
    var frame := EncodeAudio(f);
    send.WriteAll(BigEndian16(|frame| % U16));
    send.WriteAll(frame);
  }

  method ReadAudioFrame(recv: RecvStream) returns (r: Result<Option<AudioFrame>, ReadError>)
    modifies recv
    ensures (r, recv.bytes) == ReadAudioFrom(old(recv.View()))
  {
    var prefix := recv.ReadExact(2);
    if prefix.Err? {
      return if prefix.error.ClosedStream? then Ok(None) else Err(prefix.error);
    }
    var len := FromBigEndian16(prefix.value);
    if len < HEADER_SIZE {
      return Err(FrameTooShort);
    }
    var buf := recv.ReadExact(len);
    if buf.Err? {
      return Err(buf.error);
    }
    var f := DecodeAudio(buf.value);
    r := Ok(Some(f.value));
  }

  lemma AudioInverse(f: AudioFrame)
    requires InRange(f)
    ensures |EncodeAudio(f)| == HEADER_SIZE + |f.payload|
    ensures DecodeAudio(EncodeAudio(f)) == Ok(f)
  {
    var b := EncodeAudio(f);
    assert b[0..4] == BigEndian32(f.number);
    assert b[4..8] == BigEndian32(f.timestamp);
    assert b[HEADER_SIZE..] == f.payload;
    BigEndian32Inverse(f.number);
    BigEndian32Inverse(f.timestamp);
  }

  /** An audio frame is read back exactly when header and payload fit the 16-bit length. */
  lemma AudioRoundTrip(f: AudioFrame, more: Bytes, ending: Ending)
    requires InRange(f)
    ensures ReadAudioFrom(Incoming(WireAudio(f) + more, ending)) == (Ok(Some(f)), more)
       <==> 9 + |f.payload| < 0x1_0000
  {
    AudioInverse(f);
    var frame := EncodeAudio(f);
    var bytes := WireAudio(f) + more;
    var len := |frame| % U16;
    BigEndian16Inverse(len);
    assert bytes[..2] == BigEndian16(len);
    assert bytes[2..] == frame + more;
    if |frame| < U16 {
      assert (frame + more)[..|frame|] == frame && (frame + more)[|frame|..] == more;
    } else if len >= HEADER_SIZE {
      var shorter := DecodeAudio((frame + more)[..len]);
      assert |shorter.value.payload| == len - HEADER_SIZE;
    }
  }

  /** A length below 9 is refused at once, and a frame as short does not decode. */
  lemma ShortAudioRefused(len: nat, more: Bytes, ending: Ending)
    requires len < 9
    ensures ReadAudioFrom(Incoming(BigEndian16(len) + more, ending)) == (Err(FrameTooShort), more)
    ensures |more| < 9 ==> DecodeAudio(more) == Err(FrameTooShort)
  {
    BigEndian16Inverse(len);
    assert (BigEndian16(len) + more)[..2] == BigEndian16(len) && (BigEndian16(len) + more)[2..] == more;
  }

  /** Any packet the encoder produces, with a checkpoint in front or without, is read back. */
  lemma PacketsFit(f: AudioFrame, more: Bytes, ending: Ending)
    requires InRange(f) && |f.payload| <= 96 + 4000
    ensures ReadAudioFrom(Incoming(WireAudio(f) + more, ending)) == (Ok(Some(f)), more)
  {
    AudioRoundTrip(f, more, ending);
  }

  /** A truncated audio frame is never taken for a frame. */
  lemma AudioTruncationDetected(f: AudioFrame, kept: nat, ending: Ending)
    requires InRange(f) && 9 + |f.payload| < 0x1_0000 && kept < |WireAudio(f)|
    ensures ReadAudioFrom(Incoming(WireAudio(f)[..kept], ending)).0 ==
      if kept < 2 && ending.Closed? then Ok(None) else Err(ErrorOf(ending))
  {
    assert |EncodeAudio(f)| == 9 + |f.payload|;
    assert WireAudio(f) == BigEndian16(|EncodeAudio(f)|) + EncodeAudio(f);
    CutAudio(EncodeAudio(f), kept, ending);
  }

  lemma CutAudio(frame: Bytes, kept: nat, ending: Ending)
    requires 9 <= |frame| < 0x1_0000 && kept < 2 + |frame|
    ensures ReadAudioFrom(Incoming((BigEndian16(|frame|) + frame)[..kept], ending)).0 ==
      if kept < 2 && ending.Closed? then Ok(None) else Err(ErrorOf(ending))
  {
    var cut := (BigEndian16(|frame|) + frame)[..kept];
    BigEndian16Inverse(|frame|);
    if kept >= 2 {
      assert cut[..2] == BigEndian16(|frame|);
      assert |cut[2..]| < |frame|;
    }
  }
}
