/** The output rebaser run by every writer loop.

    The queues carry timestamp DELTAS. A writer keeps a running `uint32`
    accumulator `currTimestamp` and a `uint16` counter `i`; for each packet it
    receives it adds the packet's delta to the accumulator, stamps the packet with
    the accumulator, stamps it with `i` as its sequence number, writes it, and
    increments `i`. The source's own sequence number is discarded. */
module Rebaser {
  import opened Rtp

  /** A writer's state: the accumulated output timestamp and the next sequence number. */
  datatype Timeline = Timeline(currTimestamp: U32, i: U16)

  /** Both writer loops start from `var currTimestamp uint32` and `i := uint16(0)`. */
  const Start: Timeline := Timeline(0, 0)

  /** The packet a writer emits for a queued packet: it carries the accumulator the
      writer moves on to and the writer's current counter; SSRC and payload pass through. */
  function Rewrite(t: Timeline, p: Packet): (r: Packet)
    ensures r.timestamp == Advance(t, p).currTimestamp
    ensures r.sequenceNumber == t.i
    ensures r.ssrc == p.ssrc && r.payload == p.payload
  {
    p.(timestamp := Add32(t.currTimestamp, p.timestamp), sequenceNumber := t.i)
  }

  /** The writer's state after one queued packet. The delta can be read back off the
      accumulator's (wrapped) change, and consecutive packets never share a counter. */
  function Advance(t: Timeline, p: Packet): (n: Timeline)
    ensures Sub32(n.currTimestamp, t.currTimestamp) == p.timestamp
    ensures n.i != t.i
  {
    var c: int := t.currTimestamp;
    ModAddLeft(c + p.timestamp, -c);
    Timeline(Add32(t.currTimestamp, p.timestamp), Inc16(t.i))
  }

  /** Reducing a counter before adding to it changes nothing modulo 2^16. */
  lemma ModAddLeft16(j: int, n: int)
    ensures (j % TwoTo16 + n) % TwoTo16 == (j + n) % TwoTo16
  {
    var q := j / TwoTo16;
    assert j == q * TwoTo16 + j % TwoTo16;
    assert j + n == (j % TwoTo16 + n) + q * TwoTo16;
  }

  /** The packets a writer emits for the queued packets `ps`, in order. */
  function RewriteAll(t: Timeline, ps: seq<Packet>): (r: seq<Packet>)
    ensures |r| == |ps|
    decreases ps
  {
    if ps == [] then [] else [Rewrite(t, ps[0])] + RewriteAll(Advance(t, ps[0]), ps[1..])
  }

  /** The writer's state after the queued packets `ps`: the counter has moved on by
      one per packet, modulo 2^16. */
  function AdvanceAll(t: Timeline, ps: seq<Packet>): (r: Timeline)
    ensures r.i == (t.i + |ps|) % TwoTo16
    decreases ps
  {
    if ps == [] then t
    else
      ModAddLeft16(t.i + 1, |ps| - 1);
      AdvanceAll(Advance(t, ps[0]), ps[1..])
  }

  /** The exact (unwrapped) sum of the deltas carried by `ps`. */
  function DeltaSum(ps: seq<Packet>): int
    decreases ps
  {
    if ps == [] then 0 else ps[0].timestamp + DeltaSum(ps[1..])
  }

  /** After `ps`, the accumulator is the wrapped sum of all deltas. */
  lemma {:induction false} AdvanceAllValue(t: Timeline, ps: seq<Packet>)
    ensures AdvanceAll(t, ps).currTimestamp == (t.currTimestamp + DeltaSum(ps)) % TwoTo32
    decreases ps
  {
    if ps != [] {
      var t' := Advance(t, ps[0]);
      AdvanceAllValue(t', ps[1..]);
      ModAddLeft(t.currTimestamp + ps[0].timestamp, DeltaSum(ps[1..]));
    }
  }

  /** The k-th emitted packet carries sequence number `i0 + k` modulo 2^16, whatever the
      source's own sequence number was; with `Start`, simply `k mod 2^16`. */
  lemma {:induction false} SequenceNumbers(t: Timeline, ps: seq<Packet>, k: nat)
    requires k < |ps|
    ensures RewriteAll(t, ps)[k].sequenceNumber == (t.i + k) % TwoTo16
    decreases ps
  {
    if k > 0 {
      var t' := Advance(t, ps[0]);
      SequenceNumbers(t', ps[1..], k - 1);
      ModAddLeft16(t.i + 1, k - 1);
    }
  }

  /** The k-th emitted packet carries the accumulator plus the deltas of packets 0..k,
      modulo 2^32; everything but the timestamp and sequence number is passed through. */
  lemma {:induction false} Timestamps(t: Timeline, ps: seq<Packet>, k: nat)
    requires k < |ps|
    ensures RewriteAll(t, ps)[k].timestamp == (t.currTimestamp + DeltaSum(ps[..k + 1])) % TwoTo32
    ensures RewriteAll(t, ps)[k].ssrc == ps[k].ssrc
    ensures RewriteAll(t, ps)[k].payload == ps[k].payload
    decreases ps
  {
    if k > 0 {
      var t' := Advance(t, ps[0]);
      Timestamps(t', ps[1..], k - 1);
      assert ps[1..][..k] == ps[..k + 1][1..];
      ModAddLeft(t.currTimestamp + ps[0].timestamp, DeltaSum(ps[1..][..k]));
    }
  }

  /** Feeding `a` then `b` to one writer is feeding `a`, then feeding `b` from where
      `a` left the timeline: the output continues, it never resets. */
  lemma {:induction false} RewriteAllAppend(t: Timeline, a: seq<Packet>, b: seq<Packet>)
    ensures RewriteAll(t, a + b) == RewriteAll(t, a) + RewriteAll(AdvanceAll(t, a), b)
    ensures AdvanceAll(t, a + b) == AdvanceAll(AdvanceAll(t, a), b)
    decreases a
  {
    if a == [] {
      assert a + b == b;
    } else {
      assert (a + b)[1..] == a[1..] + b;
      RewriteAllAppend(Advance(t, a[0]), a[1..], b);
    }
  }
}
