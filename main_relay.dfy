/** The single-output relay with rotation of `main` (main.go).

    The `TrackHandler` holds `CurrTrack`, `TrackCount` and one shared buffered
    channel `Packets` (capacity 60). Every inbound track gets the next ordinal and a
    reader loop; its timestamp encoder saves `lastTimeStamp` and restores it
    unchanged, so `lastTimeStamp` stays 0 and every packet's timestamp becomes 0.
    The gate forwards the first packet of each run of being current into `Packets`,
    after asking for a key frame (a PLI for the track's SSRC) when the track is
    video. One writer loop rebases packets onto the video output track and then
    executes an unconditional `panic`, so the process dies after its first write.
    The main loop rotates `CurrTrack` through the known ordinals.

    Each callback iteration is one atomic method; a blocking channel send or
    receive is a precondition that the channel has room or holds a packet. Once
    the writer has panicked, or `main` has returned on a done context, no
    goroutine runs again: every step of this module (`OnTrack`, `RotationTick`,
    `OnPacket`, `ReadWhileCurrent`, `OnReadError`, `WriteNext`) requires that the
    process is still alive. The connection-state callback is shared with the other
    variant and only touches the context; it is not guarded. */
module MainRelay {
  import opened Rtp
  import opened Gate
  import opened Rebaser
  import opened Lifecycle

  // ---------------------------------------------------------------------------
  // The timestamp encoder as written
  // ---------------------------------------------------------------------------

  /** One step of the encoder: `lastTimeStamp` is saved, the timestamp becomes 0
      (when `lastTimeStamp` is 0) or the wrapped difference, and `lastTimeStamp` is
      restored to the saved value. So `lastTimeStamp` never changes. */
  function FrozenEncode(lastTimeStamp: U32, raw: U32): (e: Encoded)
    ensures e.lastTimeStamp == lastTimeStamp
    ensures lastTimeStamp == 0 ==> e.delta == 0
    ensures lastTimeStamp != 0 ==> Add32(lastTimeStamp, e.delta) == raw
  {
    var oldTimeStamp := lastTimeStamp;
    var delta := if lastTimeStamp == 0 then 0 else Sub32(raw, lastTimeStamp);
    AddSubCancel(lastTimeStamp, raw);
    Encoded(delta, oldTimeStamp)
  }

  /** The packets one reader would queue if every packet it reads were admitted. */
  function FrozenEncodeAll(lastTimeStamp: U32, ps: seq<Packet>): (r: seq<Packet>)
    ensures |r| == |ps|
    decreases ps
  {
    if ps == [] then []
    else
      var e := FrozenEncode(lastTimeStamp, ps[0].timestamp);
      [ps[0].(timestamp := e.delta)] + FrozenEncodeAll(e.lastTimeStamp, ps[1..])
  }

  /** A reader starting with `lastTimeStamp` 0 rewrites every timestamp to 0 and
      leaves the rest of each packet alone. */
  lemma {:induction false} FrozenEncoderZeroes(ps: seq<Packet>, k: nat)
    requires k < |ps|
    ensures FrozenEncodeAll(0, ps)[k] == ps[k].(timestamp := 0)
    decreases ps
  {
    if k > 0 {
      FrozenEncoderZeroes(ps[1..], k - 1);
    }
  }

  /** The exact sum of deltas that are all 0 is 0. */
  lemma {:induction false} ZeroDeltaSum(ps: seq<Packet>)
    requires forall k :: 0 <= k < |ps| ==> ps[k].timestamp == 0
    ensures DeltaSum(ps) == 0
    decreases ps
  {
    if ps != [] {
      ZeroDeltaSum(ps[1..]);
    }
  }

  /** A writer fed only zero deltas keeps its accumulator at 0. */
  lemma AccumulatorStaysZero(ps: seq<Packet>)
    requires forall j :: 0 <= j < |ps| ==> ps[j].timestamp == 0
    ensures AdvanceAll(Start, ps).currTimestamp == 0
  {
    ZeroDeltaSum(ps);
    AdvanceAllValue(Start, ps);
    assert Start.currTimestamp + DeltaSum(ps) == 0;
  }

  /** A writer whose accumulator is 0 and that is fed only zero deltas stamps every
      packet with 0. */
  lemma {:induction false} WrittenTimestampsZero(t: Timeline, ps: seq<Packet>, k: nat)
    requires t.currTimestamp == 0
    requires forall j :: 0 <= j < |ps| ==> ps[j].timestamp == 0
    requires k < |ps|
    ensures RewriteAll(t, ps)[k].timestamp == 0
    decreases ps
  {
    if k > 0 {
      var rest := ps[1..];
      assert forall j :: 0 <= j < |rest| ==> rest[j].timestamp == 0 by {
        forall j | 0 <= j < |rest| ensures rest[j].timestamp == 0 {
          assert rest[j] == ps[j + 1];
        }
      }
      WrittenTimestampsZero(Advance(t, ps[0]), rest, k - 1);
    }
  }

  /** A source sending raw timestamps [1000, 1090, 1180] comes out as [0, 0, 0]
      rather than [0, 90, 180]. */
  lemma FrozenScenario()
    ensures var ps := [Packet(0, 1000, 0, []), Packet(0, 1090, 0, []), Packet(0, 1180, 0, [])];
            var out := RewriteAll(Start, FrozenEncodeAll(0, ps));
            out[0].timestamp == 0 && out[1].timestamp == 0 && out[2].timestamp == 0
  {
    var ps := [Packet(0, 1000, 0, []), Packet(0, 1090, 0, []), Packet(0, 1180, 0, [])];
    var queued := FrozenEncodeAll(0, ps);
    forall j | 0 <= j < 3 ensures queued[j].timestamp == 0 {
      FrozenEncoderZeroes(ps, j);
    }
    WrittenTimestampsZero(Start, queued, 0);
    WrittenTimestampsZero(Start, queued, 1);
    WrittenTimestampsZero(Start, queued, 2);
  }

  // ---------------------------------------------------------------------------
  // Rotation of the active ordinal
  // ---------------------------------------------------------------------------

  /** The rotation step: the last ordinal wraps round to 0, any other moves up by one. */
  function NextTrack(currTrack: int, trackCount: int): (n: int)
    requires 0 <= currTrack < trackCount
    ensures 0 <= n < trackCount
    ensures n == (currTrack + 1) % trackCount
  {
    if currTrack == trackCount - 1 then 0 else currTrack + 1
  }

  /** `CurrTrack` after `steps` rotations with a fixed `TrackCount`; it stays a known ordinal. */
  function Rotate(currTrack: int, trackCount: int, steps: nat): (r: int)
    requires 0 <= currTrack < trackCount
    ensures 0 <= r < trackCount
    decreases steps
  {
    if steps == 0 then currTrack else Rotate(NextTrack(currTrack, trackCount), trackCount, steps - 1)
  }

  /** Rotating `a` times and then `b` times is rotating `a + b` times. */
  lemma {:induction false} RotateCompose(currTrack: int, trackCount: int, a: nat, b: nat)
    requires 0 <= currTrack < trackCount
    ensures Rotate(currTrack, trackCount, a + b) == Rotate(Rotate(currTrack, trackCount, a), trackCount, b)
    decreases a
  {
    if a > 0 {
      RotateCompose(NextTrack(currTrack, trackCount), trackCount, a - 1, b);
    }
  }

  /** Below the last ordinal, each rotation moves up by one. */
  lemma {:induction false} RotateUpward(currTrack: int, trackCount: int, steps: nat)
    requires 0 <= currTrack && currTrack + steps < trackCount
    ensures Rotate(currTrack, trackCount, steps) == currTrack + steps
    decreases steps
  {
    if steps > 0 {
      RotateUpward(currTrack + 1, trackCount, steps - 1);
    }
  }

  /** From any ordinal, `TrackCount - CurrTrack` rotations reach ordinal 0. */
  lemma RotateWraps(currTrack: int, trackCount: int)
    requires 0 <= currTrack < trackCount
    ensures Rotate(currTrack, trackCount, trackCount - currTrack) == 0
  {
    RotateUpward(currTrack, trackCount, trackCount - currTrack - 1);
    RotateCompose(currTrack, trackCount, trackCount - currTrack - 1, 1);
  }

  /** Within `TrackCount` rotations every ordinal becomes current. */
  lemma RotationVisitsAll(currTrack: int, trackCount: int, target: int)
    requires 0 <= currTrack < trackCount && 0 <= target < trackCount
    ensures exists steps: nat :: steps < trackCount && Rotate(currTrack, trackCount, steps) == target
  {
    if target >= currTrack {
      RotateUpward(currTrack, trackCount, target - currTrack);
      assert Rotate(currTrack, trackCount, target - currTrack) == target;
    } else {
      var steps := trackCount - currTrack + target;
      RotateWraps(currTrack, trackCount);
      RotateCompose(currTrack, trackCount, trackCount - currTrack, target);
      RotateUpward(0, trackCount, target);
      assert Rotate(currTrack, trackCount, steps) == target;
    }
  }

  /** After exactly `TrackCount` rotations `CurrTrack` is back where it started. */
  lemma RotationPeriodic(currTrack: int, trackCount: int)
    requires 0 <= currTrack < trackCount
    ensures Rotate(currTrack, trackCount, trackCount) == currTrack
  {
    RotateWraps(currTrack, trackCount);
    RotateCompose(currTrack, trackCount, trackCount - currTrack, currTrack);
    RotateUpward(0, trackCount, currTrack);
  }

  // ---------------------------------------------------------------------------
  // Shared state
  // ---------------------------------------------------------------------------

  /** The `TrackHandler` struct; the channel is modelled by its buffered contents. */
  class Handler {
    var currTrack: int
    var trackCount: int
    var packets: seq<Packet>
    /** True once the writer goroutine has panicked, which ends the process. */
    var crashed: bool
    /** True once `main` has returned because the context is done, which also ends
        the process. */
    var exited: bool
    /** The ordinals handed out so far, in order. */
    ghost var issued: seq<int>

    /** Ordinals are 0, 1, 2, ... in arrival order; `CurrTrack` is a known ordinal
        (or 0 before any track); the channel is within capacity and carries only
        zero timestamps. */
    ghost predicate Valid()
      reads this
    {
      trackCount == |issued| &&
      (forall k :: 0 <= k < |issued| ==> issued[k] == k) &&
      (if trackCount == 0 then currTrack == 0 else 0 <= currTrack < trackCount) &&
      |packets| <= ChannelCapacity &&
      (forall k :: 0 <= k < |packets| ==> packets[k].timestamp == 0)
    }

    /** Whether the process is still running: neither ending has happened. */
    predicate Alive()
      reads this
    {
      !crashed && !exited
    }

    /** The handler `main` creates. */
    constructor ()
      ensures Valid() && Alive()
      ensures currTrack == 0 && trackCount == 0 && issued == [] && packets == []
    {
      currTrack := 0;
      trackCount := 0;
      packets := [];
      crashed := false;
      exited := false;
      issued := [];
    }

    /** The start of the `OnTrack` callback: take `trackNum := TrackCount`, increment
        `TrackCount`, and start a reader with a zero `lastTimeStamp` and a clear flag.
        `CurrTrack` stays a known ordinal as `TrackCount` grows. */
    method OnTrack(track: TrackRemote) returns (r: TrackReader)
      requires Valid() && Alive()
      modifies this`trackCount, this`issued
      ensures Valid()
      ensures fresh(r) && r.Valid()
      ensures r.trackNum == old(trackCount) && r.track == track
      ensures !r.isCurrTrack && r.running
      ensures trackCount == old(trackCount) + 1
      ensures issued == old(issued) + [r.trackNum]
    {
      var trackNum := trackCount;
      trackCount := trackCount + 1;
      issued := issued + [trackNum];
      r := new TrackReader(trackNum, track);
    }

    /** One pass of the main loop: once the context is done, `main` returns and the
        process ends; with no tracks, wait; otherwise (after the 5-second sleep)
        rotate `CurrTrack`. */
    method RotationTick(ctx: Context) returns (exit: bool)
      requires Valid() && Alive()
      modifies this`currTrack, this`exited
      ensures Valid()
      ensures exit <==> ctx.done
      ensures exited == ctx.done
      ensures currTrack == if ctx.done || trackCount == 0 then old(currTrack)
                           else NextTrack(old(currTrack), trackCount)
    {
      if ctx.done {
        exited := true;
        return true;
      }
      if trackCount == 0 {
        return false;
      }
      if currTrack == trackCount - 1 {
        currTrack := 0;
      } else {
        currTrack := currTrack + 1;
      }
      exit := false;
    }
  }

  /** Ordinals handed out by a valid handler are pairwise distinct and each is below
      the current `TrackCount`. */
  lemma OrdinalsDistinct(h: Handler, j: nat, k: nat)
    requires h.Valid() && j < k < |h.issued|
    ensures h.issued[j] != h.issued[k]
    ensures h.issued[k] < h.trackCount
  {
  }

  // ---------------------------------------------------------------------------
  // Reader loop of one inbound track
  // ---------------------------------------------------------------------------

  /** The local state of one `OnTrack` invocation's read loop. */
  class TrackReader {
    const trackNum: int
    const track: TrackRemote
    var lastTimeStamp: U32
    var isCurrTrack: bool
    /** False once the read loop has returned after a read error. */
    var running: bool

    /** `lastTimeStamp` is frozen at its initial 0. */
    ghost predicate Valid()
      reads this
    {
      lastTimeStamp == 0
    }

    constructor (trackNum: int, track: TrackRemote)
      ensures Valid()
      ensures this.trackNum == trackNum && this.track == track
      ensures !isCurrTrack && running
    {
      this.trackNum := trackNum;
      this.track := track;
      lastTimeStamp := 0;
      isCurrTrack := false;
      running := true;
    }

    /** Whether the gate would let the next packet through. */
    function Forwarding(h: Handler): bool
      reads this, h
    {
      Admit(h.currTrack == trackNum, isCurrTrack).forward
    }

    /** One successful `ReadRTP`: the timestamp becomes 0 and `lastTimeStamp` is
        restored; if this track is current and was not current at the previous
        read, a video track first emits a PLI for its SSRC, and then the packet,
        whatever its kind, is sent on the shared channel; a read while not current
        clears the flag. The returned value is the PLI emitted, if any. */
    method OnPacket(h: Handler, p: Packet) returns (pli: Option<U32>)
      requires Valid() && h.Valid() && running && h.Alive()
      requires Forwarding(h) ==> |h.packets| < ChannelCapacity
      modifies this`lastTimeStamp, this`isCurrTrack, h`packets
      ensures Valid() && h.Valid() && running
      ensures isCurrTrack <==> h.currTrack == trackNum
      ensures lastTimeStamp == FrozenEncode(old(lastTimeStamp), p.timestamp).lastTimeStamp
      ensures var q := p.(timestamp := FrozenEncode(old(lastTimeStamp), p.timestamp).delta);
              q == p.(timestamp := 0) &&
              h.packets == old(h.packets) + (if old(Forwarding(h)) then [q] else [])
      ensures pli == (if old(Forwarding(h)) && track.kind == Video then Some(track.ssrc) else None)
    {
      var rtp := p;
      var oldTimeStamp := lastTimeStamp;
      if lastTimeStamp == 0 {
        rtp := rtp.(timestamp := 0);
      } else {
        rtp := rtp.(timestamp := Sub32(rtp.timestamp, lastTimeStamp));
      }
      lastTimeStamp := oldTimeStamp;

      pli := None;
      if h.currTrack == trackNum {
        if !isCurrTrack {
          isCurrTrack := true;
          if track.kind == Video {
            pli := Some(track.ssrc);
          }
          h.packets := h.packets + [rtp];
        }
      } else {
        isCurrTrack := false;
      }
    }

    /** A run of successful reads while this track stays current, one `OnPacket`
        per packet: only the first packet of the run is queued (and only when the
        flag was clear at its start), and at most one PLI goes out. */
    method ReadWhileCurrent(h: Handler, ps: seq<Packet>) returns (plis: seq<U32>)
      requires Valid() && h.Valid() && running && h.Alive()
      requires h.currTrack == trackNum
      requires ps != [] && !isCurrTrack ==> |h.packets| < ChannelCapacity
      modifies this`lastTimeStamp, this`isCurrTrack, h`packets
      ensures Valid() && h.Valid() && running
      ensures isCurrTrack == (ps != [] || old(isCurrTrack))
      ensures var first := ps != [] && !old(isCurrTrack);
              h.packets == old(h.packets) + (if first then [ps[0].(timestamp := 0)] else []) &&
              plis == (if first && track.kind == Video then [track.ssrc] else [])
    {
      plis := [];
      var k := 0;
      while k < |ps|
        invariant 0 <= k <= |ps|
        invariant Valid() && h.Valid() && running && h.Alive() && h.currTrack == trackNum
        invariant isCurrTrack == (k > 0 || old(isCurrTrack))
        invariant !isCurrTrack && k < |ps| ==> |h.packets| < ChannelCapacity
        invariant var first := k > 0 && !old(isCurrTrack);
                  h.packets == old(h.packets) + (if first then [ps[0].(timestamp := 0)] else []) &&
                  plis == (if first && track.kind == Video then [track.ssrc] else [])
      {
        var pli := OnPacket(h, ps[k]);
        if pli.Some? {
          plis := plis + [pli.value];
        }
        k := k + 1;
      }
    }

    /** A failed `ReadRTP`: the loop returns; nothing else changes. */
    method OnReadError(h: Handler)
      requires running && h.Alive()
      modifies this`running
      ensures !running
    {
      running := false;
    }
  }

  // ---------------------------------------------------------------------------
  // The writer loop
  // ---------------------------------------------------------------------------

  /** The local state of the writer goroutine. */
  class Writer {
    var currTimestamp: U32
    var i: U16
    /** The packets written to the video output track so far. */
    var emitted: seq<Packet>
    /** The packets received from the channel so far. */
    ghost var received: seq<Packet>

    /** What has been written is the rebasing of what has been received, and the
        accumulator and counter are where the rebaser leaves them. */
    ghost predicate Valid()
      reads this
    {
      emitted == RewriteAll(Start, received) &&
      Timeline(currTimestamp, i) == AdvanceAll(Start, received)
    }

    /** At most one packet is ever written, and one has been written exactly when the
        process has crashed. */
    ghost predicate AtMostOneWrite(h: Handler)
      reads this, h
    {
      |emitted| <= 1 && (|emitted| == 1 <==> h.crashed)
    }

    constructor ()
      ensures Valid() && received == [] && emitted == []
    {
      currTimestamp := 0;
      i := 0;
      emitted := [];
      received := [];
    }

    /** The only iteration that completes: receive the oldest packet, add its delta
        (0) to the accumulator, stamp it with the accumulator and with `i` (0), write
        it to the video track, then panic. */
    method WriteNext(h: Handler)
      requires Valid() && h.Valid() && AtMostOneWrite(h) && h.Alive() && h.packets != []
      modifies this, h`packets, h`crashed
      ensures Valid() && h.Valid() && AtMostOneWrite(h) && h.crashed
      ensures h.packets == old(h.packets)[1..]
      ensures received == [old(h.packets)[0]]
      ensures emitted == [old(h.packets)[0].(sequenceNumber := 0)]
    {
      var packet := h.packets[0];
      h.packets := h.packets[1..];
      RewriteAllAppend(Start, received, [packet]);
      received := received + [packet];
      currTimestamp := Add32(currTimestamp, packet.timestamp);
      packet := packet.(timestamp := currTimestamp);
      packet := packet.(sequenceNumber := i);
      emitted := emitted + [packet];
      // main.go panics before its `i++`; the increment only keeps `Valid()` in step
      // with `AdvanceAll`, and nothing can observe it once the process has crashed.
      i := Inc16(i);
      h.crashed := true;
    }
  }
}
