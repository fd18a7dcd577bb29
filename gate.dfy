/** The edge-triggered admission gate both reader loops run on every packet.

    A reader keeps a flag `isCurrTrack`. When the handler's `CurrTrack` equals the
    reader's ordinal and the flag is clear, the flag is set and the packet is let
    through; when `CurrTrack` equals the ordinal and the flag is already set, the
    packet is dropped; when `CurrTrack` differs, the flag is cleared and the packet
    is dropped. So one packet is forwarded per contiguous run of being current. */
module Gate {

  /** What the gate does with one packet: forward it or not, and the flag afterwards. */
  datatype Decision = Decision(forward: bool, isCurrTrack: bool)

  /** One gate step; `isCurrent` is `CurrTrack == trackNum` at the time of the read. */
  function Admit(isCurrent: bool, isCurrTrack: bool): (d: Decision)
    ensures d.isCurrTrack == isCurrent
    ensures d.forward <==> isCurrent && !isCurrTrack
  {
    if isCurrent then
      if !isCurrTrack then Decision(true, true) else Decision(false, true)
    else
      Decision(false, false)
  }

  /** The forward/drop verdict for each packet of a read loop, given whether the
      track was current at each read and the flag before the first read. */
  function Forwards(isCurrTrack: bool, currents: seq<bool>): (r: seq<bool>)
    ensures |r| == |currents|
    decreases currents
  {
    if currents == [] then []
    else
      var d := Admit(currents[0], isCurrTrack);
      [d.forward] + Forwards(d.isCurrTrack, currents[1..])
  }

  /** A packet is forwarded exactly when it is read while current and the previous
      read was not current (or, for the first read, the flag started clear). */
  lemma {:induction false} ForwardsOnRisingEdge(isCurrTrack: bool, currents: seq<bool>, k: nat)
    requires k < |currents|
    ensures Forwards(isCurrTrack, currents)[k] <==>
            currents[k] && (if k == 0 then !isCurrTrack else !currents[k - 1])
    decreases currents
  {
    var d := Admit(currents[0], isCurrTrack);
    if k == 0 {
      if |currents| > 1 {
        ForwardsOnRisingEdge(d.isCurrTrack, currents[1..], 0);
      }
    } else {
      ForwardsOnRisingEdge(d.isCurrTrack, currents[1..], k - 1);
      if k - 1 > 0 {
        assert currents[1..][k - 2] == currents[k - 1];
      }
    }
  }

  /** Between two forwarded packets of one reader (starting with the flag clear)
      there is always a read made while the track was not current: at most one
      packet is forwarded per contiguous run of being current. */
  lemma AtMostOncePerRun(currents: seq<bool>, j: nat, k: nat)
    requires j < k < |currents|
    requires Forwards(false, currents)[j] && Forwards(false, currents)[k]
    ensures exists m :: j < m < k && !currents[m]
  {
    ForwardsOnRisingEdge(false, currents, j);
    ForwardsOnRisingEdge(false, currents, k);
    assert !currents[k - 1];
    assert k - 1 != j;
  }

  /** If the track is current at every read (the situation of `CurrTrack` never
      changing), only the very first packet is forwarded. */
  lemma PinnedForwardsOnlyFirst(n: nat, k: nat)
    requires k < n
    ensures Forwards(false, seq(n, _ => true))[k] <==> k == 0
  {
    ForwardsOnRisingEdge(false, seq(n, _ => true), k);
  }
}
