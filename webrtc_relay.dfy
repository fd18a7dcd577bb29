/** The two-output relay of `StartPeerConnecion` (webrtc/webrtc.go).

    A `TrackHandler` holds the active ordinal `CurrTrack`, the number of tracks seen
    `TrackCount`, two buffered packet channels (video and screen, capacity 60) and
    the `screenInUse` flag. Every inbound track gets the next ordinal and a reader
    loop that delta-encodes timestamps and passes packets through the gate into the
    channel chosen by the track's stream id. Two writer loops drain the channels
    through a rebaser each. The rotation loop only waits for cancellation: its
    rotation code is commented out, so `CurrTrack` stays 0.

    Each callback iteration is one atomic method; a blocking channel send or
    receive is a precondition that the channel has room or holds a packet. */
module WebrtcRelay {
  import opened Rtp
  import opened Gate
  import opened Rebaser
  import opened Lifecycle

  // ---------------------------------------------------------------------------
  // Per-source timestamp delta encoder
  // ---------------------------------------------------------------------------

  /** One step of the encoder: a reader whose `lastTimeStamp` is 0 treats the packet as
      its first, sends delta 0 and remembers the raw timestamp; otherwise it sends the
      wrapped difference and adds it back onto `lastTimeStamp`. Either way the new
      `lastTimeStamp` is the raw timestamp just read, and adding the delta to the old
      one gives it back. */
  function EncodeDelta(lastTimeStamp: U32, raw: U32): (e: Encoded)
    ensures e.lastTimeStamp == raw
    ensures lastTimeStamp == 0 ==> e.delta == 0
    ensures lastTimeStamp != 0 ==> Add32(lastTimeStamp, e.delta) == raw
  {
    if lastTimeStamp == 0 then
      Encoded(0, raw)
    else
      var delta := Sub32(raw, lastTimeStamp);
      AddSubCancel(lastTimeStamp, raw);
      Encoded(delta, Add32(lastTimeStamp, delta))
  }

  /** The packets one reader would queue if every packet it reads were admitted;
      only their timestamps differ from what was read. */
  function EncodeAll(lastTimeStamp: U32, ps: seq<Packet>): (r: seq<Packet>)
    ensures |r| == |ps|
    ensures forall k :: 0 <= k < |ps| ==> r[k] == ps[k].(timestamp := r[k].timestamp)
    decreases ps
  {
    if ps == [] then []
    else
      var e := EncodeDelta(lastTimeStamp, ps[0].timestamp);
      [ps[0].(timestamp := e.delta)] + EncodeAll(e.lastTimeStamp, ps[1..])
  }

  /** No raw timestamp is 0 (a raw 0 would make the reader treat the next packet as its first). */
  predicate NonZeroTimestamps(ps: seq<Packet>)
  {
    forall k :: 0 <= k < |ps| ==> ps[k].timestamp != 0
  }

  /** A raw timestamp of 0 leaves the reader looking fresh: the packet read after it
      is sent with delta 0 as well, whatever its own timestamp. */
  lemma RawZeroRestarts(lastTimeStamp: U32, a: Packet, b: Packet)
    requires a.timestamp == 0
    ensures EncodeAll(lastTimeStamp, [a, b])[1].timestamp == 0
  {
    assert [a, b][1..] == [b];
  }

  /** Once a reader has a nonzero `lastTimeStamp`, encoding then rebasing yields the
      accumulator plus each raw timestamp's offset from that `lastTimeStamp`. */
  lemma {:induction false} RebaseAfterFirst(t: Timeline, lastTimeStamp: U32, ps: seq<Packet>, k: nat)
    requires lastTimeStamp != 0 && NonZeroTimestamps(ps) && k < |ps|
    ensures RewriteAll(t, EncodeAll(lastTimeStamp, ps))[k].timestamp ==
            Add32(t.currTimestamp, Sub32(ps[k].timestamp, lastTimeStamp))
    decreases ps
  {
    var e := EncodeDelta(lastTimeStamp, ps[0].timestamp);
    if k > 0 {
      var t' := Advance(t, ps[0].(timestamp := e.delta));
      assert NonZeroTimestamps(ps[1..]) by {
        forall j | 0 <= j < |ps| - 1 ensures ps[1..][j].timestamp != 0 {
          assert ps[1..][j] == ps[j + 1];
        }
      }
      RebaseAfterFirst(t', ps[0].timestamp, ps[1..], k - 1);
      assert ps[1..][k - 1] == ps[k];
      SubChain(t.currTimestamp, lastTimeStamp, ps[0].timestamp, ps[k].timestamp);
    }
  }

  /** Delta-encoding a source from a fresh reader and accumulating the deltas in a
      writer rebases the source to start where the writer's accumulator stood: the
      k-th output is the accumulator plus `raw_k - raw_0` modulo 2^32. From `Start`
      a source with raw timestamps r0, r1, ... comes out as rk - r0. */
  lemma {:induction false} RebasesToStart(t: Timeline, ps: seq<Packet>, k: nat)
    requires NonZeroTimestamps(ps) && k < |ps|
    ensures RewriteAll(t, EncodeAll(0, ps))[k].timestamp ==
            Add32(t.currTimestamp, Sub32(ps[k].timestamp, ps[0].timestamp))
  {
    var first := ps[0].(timestamp := 0);
    var t' := Advance(t, first);
    assert t'.currTimestamp == t.currTimestamp;
    if k > 0 {
      assert NonZeroTimestamps(ps[1..]) by {
        forall j | 0 <= j < |ps| - 1 ensures ps[1..][j].timestamp != 0 {
          assert ps[1..][j] == ps[j + 1];
        }
      }
      RebaseAfterFirst(t', ps[0].timestamp, ps[1..], k - 1);
      assert ps[1..][k - 1] == ps[k];
    }
  }

  /** Packet with only a timestamp set, for the scenario below. */
  function Stamp(ts: U32): Packet { Packet(0, ts, 0, []) }

  /** Source A sends [1000, 1090, 1180], then source B (a fresh reader) sends
      [5000, 5100] into the same writer: the output timestamps are
      [0, 90, 180, 180, 280] and the sequence numbers 0..4, continuing across the
      switch. (This composes encoder and rebaser as if every packet were admitted.) */
  lemma SwitchScenario()
    ensures var a := EncodeAll(0, [Stamp(1000), Stamp(1090), Stamp(1180)]);
            var b := EncodeAll(0, [Stamp(5000), Stamp(5100)]);
            var out := RewriteAll(Start, a + b);
            |out| == 5 &&
            out[0].timestamp == 0 && out[1].timestamp == 90 && out[2].timestamp == 180 &&
            out[3].timestamp == 180 && out[4].timestamp == 280 &&
            forall k :: 0 <= k < 5 ==> out[k].sequenceNumber == k
  {
    var a := EncodeAll(0, [Stamp(1000), Stamp(1090), Stamp(1180)]);
    var b := EncodeAll(0, [Stamp(5000), Stamp(5100)]);
    RewriteAllAppend(Start, a, b);
    forall k | 0 <= k < 5 ensures RewriteAll(Start, a + b)[k].sequenceNumber == k {
      SequenceNumbers(Start, a + b, k);
    }
  }

  // ---------------------------------------------------------------------------
  // Routing of admitted packets
  // ---------------------------------------------------------------------------

  /** Where an admitted packet goes. */
  datatype Route = ToVideo | ToScreen | Nowhere

  /** A video-kind track with stream id "video" feeds the video channel, one with
      stream id "screen" feeds the screen channel, anything else feeds nothing. */
  function RouteOf(track: TrackRemote): (r: Route)
    ensures r == ToVideo <==> track.kind == Video && track.streamId == "video"
    ensures r == ToScreen <==> track.kind == Video && track.streamId == "screen"
  {
    if track.kind == Video then
      if track.streamId == "video" then ToVideo
      else if track.streamId == "screen" then ToScreen
      else Nowhere
    else
      Nowhere
  }

  /** The two outgoing tracks, each drained by its own writer loop. */
  datatype Output = VideoOut | ScreenOut

  // ---------------------------------------------------------------------------
  // Shared state
  // ---------------------------------------------------------------------------

  /** The `TrackHandler` struct; the channels are modelled by their buffered contents. */
  class Handler {
    var currTrack: int
    var trackCount: int
    var videoPackets: seq<Packet>
    var screenPackets: seq<Packet>
    var screenInUse: bool
    /** The ordinals handed out so far, in order. */
    ghost var issued: seq<int>

    /** `CurrTrack` is never reassigned, ordinals are 0, 1, 2, ... in arrival order,
        and no channel holds more than its capacity. */
    ghost predicate Valid()
      reads this
    {
      currTrack == 0 &&
      trackCount == |issued| &&
      (forall k :: 0 <= k < |issued| ==> issued[k] == k) &&
      |videoPackets| <= ChannelCapacity &&
      |screenPackets| <= ChannelCapacity
    }

    /** The handler `StartPeerConnecion` creates. */
    constructor ()
      ensures Valid()
      ensures trackCount == 0 && issued == []
      ensures videoPackets == [] && screenPackets == [] && !screenInUse
    {
      currTrack := 0;
      trackCount := 0;
      videoPackets := [];
      screenPackets := [];
      screenInUse := false;
      issued := [];
    }

    /** The start of the `OnTrack` callback: take `trackNum := TrackCount`, increment
        `TrackCount`, and start a reader with a zero `lastTimeStamp` and a clear flag. */
    method OnTrack(track: TrackRemote) returns (r: TrackReader)
      requires Valid()
      modifies this`trackCount, this`issued
      ensures Valid()
      ensures fresh(r)
      ensures r.trackNum == old(trackCount) && r.track == track
      ensures r.lastTimeStamp == 0 && !r.isCurrTrack && r.running
      ensures trackCount == old(trackCount) + 1
      ensures issued == old(issued) + [r.trackNum]
    {
      var trackNum := trackCount;
      trackCount := trackCount + 1;
      issued := issued + [trackNum];
      r := new TrackReader(trackNum, track);
    }

    /** One pass of the rotation loop: leave once the context is done; otherwise,
        with or without tracks, do nothing (the rotation is commented out). */
    method RotationTick(ctx: Context) returns (exit: bool)
      ensures exit <==> ctx.done
    {
      if ctx.done {
        return true;
      }
      if trackCount == 0 {
        return false;
      }
      exit := false;
    }
  }

  /** Ordinals handed out by a valid handler are pairwise distinct and each is below
      the current `TrackCount`. */
  lemma OrdinalsDistinct(h: Handler, j: nat, k: nat)
    requires h.Valid() && j < k < |h.issued|
    ensures h.issued[j] != h.issued[k]
    ensures h.issued[k] < h.trackCount
  {
  }

  // ---------------------------------------------------------------------------
  // Reader loop of one inbound track
  // ---------------------------------------------------------------------------

  /** The local state of one `OnTrack` invocation's read loop. */
  class TrackReader {
    const trackNum: int
    const track: TrackRemote
    var lastTimeStamp: U32
    var isCurrTrack: bool
    /** False once the read loop has returned after a read error. */
    var running: bool

    constructor (trackNum: int, track: TrackRemote)
      ensures this.trackNum == trackNum && this.track == track
      ensures lastTimeStamp == 0 && !isCurrTrack && running
    {
      this.trackNum := trackNum;
      this.track := track;
      lastTimeStamp := 0;
      isCurrTrack := false;
      running := true;
    }

    /** Where the gate and the router would send the next packet this reader reads. */
    function Target(h: Handler): Route
      reads this, h
    {
      if Admit(h.currTrack == trackNum, isCurrTrack).forward then RouteOf(track) else Nowhere
    }

    /** One successful `ReadRTP`: delta-encode the timestamp, then, if this track is
        current and was not current at the previous read, send the packet to the
        channel its stream id selects (marking the screen in use for "screen");
        a read while not current clears the flag. Because `CurrTrack` never moves,
        afterwards this reader's next packet goes nowhere. */
    method OnPacket(h: Handler, p: Packet)
      requires h.Valid() && running
      requires Target(h) == ToVideo ==> |h.videoPackets| < ChannelCapacity
      requires Target(h) == ToScreen ==> |h.screenPackets| < ChannelCapacity
      modifies this`lastTimeStamp, this`isCurrTrack, h`videoPackets, h`screenPackets, h`screenInUse
      ensures h.Valid() && running
      ensures lastTimeStamp == p.timestamp
      ensures isCurrTrack <==> h.currTrack == trackNum
      ensures var q := p.(timestamp := EncodeDelta(old(lastTimeStamp), p.timestamp).delta);
              h.videoPackets == old(h.videoPackets) + (if old(Target(h)) == ToVideo then [q] else []) &&
              h.screenPackets == old(h.screenPackets) + (if old(Target(h)) == ToScreen then [q] else [])
      ensures h.screenInUse == (old(h.screenInUse) || old(Target(h)) == ToScreen)
      ensures Target(h) == Nowhere
    {
      var rtp := p;
      if lastTimeStamp == 0 {
        lastTimeStamp := rtp.timestamp;
        rtp := rtp.(timestamp := 0);
      } else {
        rtp := rtp.(timestamp := Sub32(rtp.timestamp, lastTimeStamp));
        AddSubCancel(lastTimeStamp, p.timestamp);
        lastTimeStamp := Add32(lastTimeStamp, rtp.timestamp);
      }

      if h.currTrack == trackNum {
        if !isCurrTrack {
          isCurrTrack := true;
          if track.kind == Video {
            if track.streamId == "video" {
              h.videoPackets := h.videoPackets + [rtp];
            } else if track.streamId == "screen" {
              h.screenInUse := true;
              h.screenPackets := h.screenPackets + [rtp];
            }
          }
        }
      } else {
        isCurrTrack := false;
      }
    }

    /** A failed `ReadRTP`: a "screen" stream clears `screenInUse`; the loop returns.
        Nothing else changes. */
    method OnReadError(h: Handler)
      requires h.Valid() && running
      modifies this`running, h`screenInUse
      ensures h.Valid() && !running
      ensures h.screenInUse == (if track.streamId == "screen" then false else old(h.screenInUse))
    {
      if track.streamId == "screen" {
        h.screenInUse := false;
      }
      running := false;
    }
  }

  /** With `CurrTrack` pinned at 0, only the reader with ordinal 0 can ever send a
      packet, and only when its flag is clear. */
  lemma OnlyTrackZeroAdmitted(r: TrackReader, h: Handler)
    requires h.Valid() && r.Target(h) != Nowhere
    ensures r.trackNum == 0 && !r.isCurrTrack
  {
  }

  // ---------------------------------------------------------------------------
  // Writer loop of one outgoing track
  // ---------------------------------------------------------------------------

  /** The local state of one writer goroutine. */
  class Writer {
    const output: Output
    var currTimestamp: U32
    var i: U16
    /** The packets written to the outgoing track so far. */
    var emitted: seq<Packet>
    /** The packets received from the channel so far. */
    ghost var received: seq<Packet>

    /** What has been written is the rebasing of what has been received, and the
        accumulator and counter are where the rebaser leaves them. */
    ghost predicate Valid()
      reads this
    {
      emitted == RewriteAll(Start, received) &&
      Timeline(currTimestamp, i) == AdvanceAll(Start, received)
    }

    constructor (output: Output)
      ensures Valid() && this.output == output
      ensures received == [] && emitted == []
    {
      this.output := output;
      currTimestamp := 0;
      i := 0;
      emitted := [];
      received := [];
    }

    /** The channel this writer drains. */
    function Channel(h: Handler): seq<Packet>
      reads h
    {
      if output == VideoOut then h.videoPackets else h.screenPackets
    }

    /** One iteration: receive the oldest packet, add its delta to the accumulator,
        stamp it with the accumulator and with `i`, write it, increment `i`.
        A write error is only logged. The other channel is untouched. */
    method WriteNext(h: Handler)
      requires Valid() && h.Valid() && Channel(h) != []
      modifies this, h`videoPackets, h`screenPackets
      ensures Valid() && h.Valid()
      ensures received == old(received) + [old(Channel(h))[0]]
      ensures Channel(h) == old(Channel(h))[1..]
      ensures output == VideoOut ==> h.screenPackets == old(h.screenPackets)
      ensures output == ScreenOut ==> h.videoPackets == old(h.videoPackets)
      ensures emitted == old(emitted) + [Rewrite(Timeline(old(currTimestamp), old(i)), old(Channel(h))[0])]
    {
      var packet: Packet;
      if output == VideoOut {
        packet := h.videoPackets[0];
        h.videoPackets := h.videoPackets[1..];
      } else {
        packet := h.screenPackets[0];
        h.screenPackets := h.screenPackets[1..];
      }
      RewriteAllAppend(Start, received, [packet]);
      received := received + [packet];
      currTimestamp := Add32(currTimestamp, packet.timestamp);
      packet := packet.(timestamp := currTimestamp);
      packet := packet.(sequenceNumber := i);
      emitted := emitted + [packet];
      i := Inc16(i);
    }
  }

  /** The k-th packet a writer has written carries sequence number k modulo 2^16 and
      the wrapped sum of the first k+1 deltas it received as its timestamp. */
  lemma EmittedNumbering(w: Writer, k: nat)
    requires w.Valid() && k < |w.emitted|
    ensures w.emitted[k].sequenceNumber == k % TwoTo16
    ensures w.emitted[k].timestamp == DeltaSum(w.received[..k + 1]) % TwoTo32
  {
    SequenceNumbers(Start, w.received, k);
    Timestamps(Start, w.received, k);
  }
}
