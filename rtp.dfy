/** Fixed-width integers and the RTP packet fields the relay touches.

    Go's `uint32` and `uint16` wrap around; here both are unbounded integers kept
    in range explicitly, and every addition or subtraction reduces modulo 2^32
    or 2^16 the way the Go operators do. */
module Rtp {

  const TwoTo32: int := 0x1_0000_0000
  const TwoTo16: int := 0x1_0000

  type U32 = x: int | 0 <= x < 0x1_0000_0000
  type U16 = x: int | 0 <= x < 0x1_0000

  /** `a + b` on Go `uint32`. */
  function Add32(a: U32, b: U32): U32 { (a + b) % TwoTo32 }

  /** `a - b` on Go `uint32` (Dafny's `%` is Euclidean, so the result is the wrapped difference). */
  function Sub32(a: U32, b: U32): U32 { (a - b) % TwoTo32 }

  /** `i++` on Go `uint16`. */
  function Inc16(i: U16): U16 { (i + 1) % TwoTo16 }

  /** Reducing a sum modulo 2^32 once or twice gives the same value. */
  lemma ModAddLeft(x: int, y: int)
    ensures (x % TwoTo32 + y) % TwoTo32 == (x + y) % TwoTo32
  {
    var q := x / TwoTo32;
    assert x == q * TwoTo32 + x % TwoTo32;
    assert x + y == (x % TwoTo32 + y) + q * TwoTo32;
  }

  /** Subtracting then adding back the same value restores the original (the encoder/rebaser inverse). */
  lemma AddSubCancel(last: U32, raw: U32)
    ensures Add32(last, Sub32(raw, last)) == raw
  {
    ModAddLeft(raw - last, last);
  }

  /** Adding two wrapped differences that share an end point telescopes. */
  lemma SubChain(base: U32, acc: U32, mid: U32, raw: U32)
    ensures Add32(Add32(base, Sub32(mid, acc)), Sub32(raw, mid)) == Add32(base, Sub32(raw, acc))
  {
    var x, y := mid - acc, raw - mid;
    calc {
      Add32(Add32(base, Sub32(mid, acc)), Sub32(raw, mid));
      ((base + x % TwoTo32) % TwoTo32 + y % TwoTo32) % TwoTo32;
      { ModAddLeft(base + x % TwoTo32, y % TwoTo32); }
      (x % TwoTo32 + (base + y % TwoTo32)) % TwoTo32;
      { ModAddLeft(x, base + y % TwoTo32); }
      (y % TwoTo32 + (x + base)) % TwoTo32;
      { ModAddLeft(y, x + base); }
      (raw - acc + base) % TwoTo32;
      { ModAddLeft(raw - acc, base); }
      Add32(base, Sub32(raw, acc));
    }
  }

  /** The codec class of a remote track, as reported by `track.Kind()`. */
  datatype CodecType = UnknownCodec | Audio | Video

  /** An inbound track as announced to the `OnTrack` callback: its kind, its stream id and its SSRC. */
  datatype TrackRemote = TrackRemote(kind: CodecType, streamId: string, ssrc: U32)

  /** An RTP packet; only the header fields the relay reads or rewrites are named, the rest is payload. */
  datatype Packet = Packet(sequenceNumber: U16, timestamp: U32, ssrc: U32, payload: seq<bv8>)

  /** What a reader's timestamp encoder produces for one packet: the timestamp it
      writes into the packet and its `lastTimeStamp` afterwards. */
  datatype Encoded = Encoded(delta: U32, lastTimeStamp: U32)

  datatype Option<T> = None | Some(value: T)

  /** Capacity of every buffered packet channel (`make(chan *rtp.Packet, 60)`). */
  const ChannelCapacity: nat := 60
}
