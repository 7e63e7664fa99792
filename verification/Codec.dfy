/** The frame buffer of the Opus encoder (src-tauri/src/audio/codec.rs). Samples are exact
    numbers; a packet stands for the frame it encodes. */
module Codec {

  const FRAME_SIZE: nat := 960
  const MAX_BUFFER: nat := 9600

  type Frame = seq<real>

  datatype Packet = Packet(frame: Frame)

  /** The last `limit` samples, or all if there are no more. */
  function Newest(s: seq<real>, limit: nat): (r: seq<real>)
    ensures |r| == if |s| < limit then |s| else limit
    ensures forall i :: 0 <= i < |r| ==> r[i] == s[|s| - |r| + i]
  {
    if |s| > limit then s[|s| - limit..] else s
  }

  /** The complete frames at the front of a buffer, and what is left. */
  function Frames(buffer: seq<real>): (r: (seq<Frame>, seq<real>))
    ensures |r.0| == |buffer| / 960 && |r.1| == |buffer| % 960
    ensures forall i :: 0 <= i < |r.0| ==> |r.0[i]| == 960
  {
    if |buffer| < FRAME_SIZE then ([], buffer)
    else
      var rest := Frames(buffer[FRAME_SIZE..]);
      ([buffer[..FRAME_SIZE]] + rest.0, rest.1)
  }

  function Concat(frames: seq<Frame>): seq<real> {
    if frames == [] then [] else frames[0] + Concat(frames[1..])
  }

  /** The packets of the frames the codec manages to encode, in order. */
  function Encoded(frames: seq<Frame>, encodes: Frame -> bool): seq<Packet> {
    if frames == [] then []
    else if encodes(frames[0]) then [Packet(frames[0])] + Encoded(frames[1..], encodes)
    else Encoded(frames[1..], encodes)
  }

  /** Nothing is lost or reordered between the buffer, the frames and the remainder. */
  lemma {:induction false} FramesPartition(buffer: seq<real>)
    ensures Concat(Frames(buffer).0) + Frames(buffer).1 == buffer
    decreases |buffer|
  {
    if |buffer| >= FRAME_SIZE {
      var rest := Frames(buffer[FRAME_SIZE..]);
      FramesPartition(buffer[FRAME_SIZE..]);
      assert Frames(buffer).0[1..] == rest.0;
      assert buffer == buffer[..FRAME_SIZE] + buffer[FRAME_SIZE..];
    }
  }

  /** Each frame yields its own packet if the codec encodes it, and none otherwise. */
  lemma EncodedOne(frame: Frame, encodes: Frame -> bool)
    ensures Encoded([frame], encodes) == if encodes(frame) then [Packet(frame)] else []
  {
    assert Encoded([frame][1..], encodes) == [];
  }

  lemma {:induction false} EncodedAppend(a: seq<Frame>, b: seq<Frame>, encodes: Frame -> bool)
    ensures Encoded(a + b, encodes) == Encoded(a, encodes) + Encoded(b, encodes)
  {
    if a == [] {
      assert a + b == b;
    } else {
      EncodedAppend(a[1..], b, encodes);
      assert (a + b)[1..] == a[1..] + b;
    }
  }

  function Samples(packets: seq<Packet>): seq<real> {
    if packets == [] then [] else packets[0].frame + Samples(packets[1..])
  }

  lemma {:induction false} EncodedSamples(frames: seq<Frame>, encodes: Frame -> bool)
    requires forall f :: f in frames ==> encodes(f)
    ensures Samples(Encoded(frames, encodes)) == Concat(frames) && |Encoded(frames, encodes)| == |frames|
  {
    if frames != [] { EncodedSamples(frames[1..], encodes); }
  }

  /** If the codec does not fail, the packets and what stays buffered are exactly the samples
      pushed, the newest 9600 at most, in order. */
  lemma PushLosesNothing(all: seq<real>, encodes: Frame -> bool)
    requires forall f :: encodes(f)
    ensures var (frames, rest) := Frames(Newest(all, MAX_BUFFER));
      var sent := Samples(Encoded(frames, encodes)) + rest;
      && |sent| == (if |all| < 9600 then |all| else 9600)
      && sent == all[|all| - |sent|..]
  {
    var (frames, rest) := Frames(Newest(all, MAX_BUFFER));
    EncodedSamples(frames, encodes);
    FramesPartition(Newest(all, MAX_BUFFER));
  }

  /** Encoding the first frame and then the rest. */
  lemma FirstFrame(buffer: seq<real>, encodes: Frame -> bool)
    requires |buffer| >= FRAME_SIZE
    ensures Frames(buffer).1 == Frames(buffer[FRAME_SIZE..]).1
    ensures Encoded(Frames(buffer).0, encodes)
         == (if encodes(buffer[..FRAME_SIZE]) then [Packet(buffer[..FRAME_SIZE])] else [])
            + Encoded(Frames(buffer[FRAME_SIZE..]).0, encodes)
  {
    assert Frames(buffer).0[1..] == Frames(buffer[FRAME_SIZE..]).0;
  }

  class OpusEncoder {
    var buffer: seq<real>

    constructor ()
      ensures buffer == []
    {
      buffer := [];
    }

    /** Buffers the samples, the newest 10 frames at most, and encodes every complete frame. */
    method PushSamples(samples: seq<real>, encodes: Frame -> bool) returns (packets: seq<Packet>)
      modifies this
      ensures var (frames, rest) := Frames(Newest(old(buffer) + samples, MAX_BUFFER));
        packets == Encoded(frames, encodes) && buffer == rest
      ensures |buffer| < FRAME_SIZE
    {
      buffer := buffer + samples;
      if |buffer| > MAX_BUFFER {
        var excess := |buffer| - MAX_BUFFER;
        buffer := buffer[excess..];
      }
      packets := [];
      ghost var all := Encoded(Frames(buffer).0, encodes);
      ghost var end := Frames(buffer).1;
      while |buffer| >= FRAME_SIZE
        invariant packets + Encoded(Frames(buffer).0, encodes) == all
        invariant Frames(buffer).1 == end
        decreases |buffer|
      {
        var frame := buffer[..FRAME_SIZE];
        FirstFrame(buffer, encodes);
        buffer := buffer[FRAME_SIZE..];
        if encodes(frame) {
          packets := packets + [Packet(frame)];
        }
      }
    }
  }
}
