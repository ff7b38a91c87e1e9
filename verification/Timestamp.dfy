/** Clock offset and latency between poller and server, and when the session updates them. */
module Timestamps {
  import opened Protocol
  import opened Integers

  datatype Tracking = Tracking(pollerSend: int, pollerRecv: int, serverRecv: int, serverResp: int)

  datatype Skew = Skew(offset: int, latency: int)

  /** A time stamp of zero counts as unset. */
  function ComputeSkew(t: Tracking): Option<Skew> {
    if t.pollerSend == 0 || t.pollerRecv == 0 || t.serverRecv == 0 || t.serverResp == 0 then None
    else
      Some(Skew(Quotient((t.serverRecv - t.pollerSend) + (t.serverResp - t.pollerRecv), 2),
                (t.pollerRecv - t.pollerSend) + (t.serverResp - t.serverRecv)))
  }

  /** The round-trip delay of section 8 of RFC 5905. */
  function RoundTripDelay(t: Tracking): int {
    (t.pollerRecv - t.pollerSend) - (t.serverResp - t.serverRecv)
  }

  /** The latency is the standard's delay exactly when the server stamps receipt and response alike:
      the two differ by twice the time spent at the server. */
  lemma LatencyIsDelayIff(t: Tracking)
    requires ComputeSkew(t).Some?
    ensures ComputeSkew(t).value.latency == RoundTripDelay(t) <==> t.serverRecv == t.serverResp
    ensures ComputeSkew(t).value.latency - RoundTripDelay(t) == 2 * (t.serverResp - t.serverRecv)
  {
  }

  /** Nothing is computed exactly when some time stamp is unset. */
  lemma UnsetIff(t: Tracking)
    ensures ComputeSkew(t).None? <==> 0 in [t.pollerSend, t.pollerRecv, t.serverRecv, t.serverResp]
  {
    var all := [t.pollerSend, t.pollerRecv, t.serverRecv, t.serverResp];
    assert all[0] in all && all[1] in all && all[2] in all && all[3] in all;
  }

  /** A heartbeat sent at `sent`, held by the server for a while before it answers, with the server's clock ahead by
      `ahead` and the given one-way delays. */
  function Exchange(sent: int, ahead: int, there: nat, held: nat, back: nat): Tracking {
    Tracking(sent, sent + there + held + back, sent + there + ahead, sent + there + held + ahead)
  }

  /** The computed offset is off by at most half the round trip, rounding included, whatever its sign and however
      long the server takes; the latency is the round trip if it takes no time. */
  lemma SkewBound(sent: int, ahead: int, there: nat, held: nat, back: nat)
    requires ComputeSkew(Exchange(sent, ahead, there, held, back)).Some?
    ensures var skew := ComputeSkew(Exchange(sent, ahead, there, held, back)).value;
            && RoundTripDelay(Exchange(sent, ahead, there, held, back)) == there + back
            && skew.latency == there + back + 2 * held
            && -(there + back + 1) <= 2 * (skew.offset - ahead) <= there + back + 1
  {
    HalfOff(2 * ahead + there - back);
  }

  /** With equal delays there is no error at all. */
  lemma SymmetricIsExact(sent: int, ahead: int, delay: nat, held: nat)
    requires ComputeSkew(Exchange(sent, ahead, delay, held, delay)).Some?
    ensures ComputeSkew(Exchange(sent, ahead, delay, held, delay)).value.offset == ahead
  {
    assert Quotient(2 * ahead, 2) == ahead;
  }

  // ---- the session's heartbeat measurement ----

  datatype Beat = Sent(id: nat, at: int) | Answered(id: nat, server: int, now: int)

  /** Each heartbeat sent so far, newest last. */
  function BeatsSent(beats: seq<Beat>): seq<Beat> {
    if |beats| == 0 then []
    else BeatsSent(beats[..|beats| - 1]) + if beats[|beats| - 1].Sent? then [beats[|beats| - 1]] else []
  }

  class HeartbeatMeasurement {
    var tracking: Tracking
    var expectedSeqId: nat
    var offset: int
    var latency: int
    var observations: nat
    ghost var beats: seq<Beat>

    /** What is expected is the heartbeat sent last, with its own send time. */
    ghost predicate Valid()
      reads this
    {
      var sent := BeatsSent(beats);
      if sent == [] then expectedSeqId == 0 && tracking.pollerSend == 0
      else sent[|sent| - 1] == Sent(expectedSeqId, tracking.pollerSend)
    }

    constructor ()
      ensures Valid() && beats == [] && observations == 0 && offset == 0 && latency == 0
    {
      tracking, expectedSeqId, offset, latency, observations, beats := Tracking(0, 0, 0, 0), 0, 0, 0, 0, [];
    }

    method Prepare(id: nat, at: int)
      requires Valid()
      modifies this`tracking, this`expectedSeqId, this`beats
      ensures Valid() && beats == old(beats) + [Sent(id, at)]
    {
      expectedSeqId := id;
      tracking := tracking.(pollerSend := at);
      beats := beats + [Sent(id, at)];
      assert beats[..|beats| - 1] == old(beats);
    }

    /** Only an answer to the heartbeat sent last counts, and it is measured against that heartbeat's own
        send time; the server's one time stamp stands for both of its times. */
    method Update(id: nat, server: int, now: int)
      requires Valid()
      modifies this
      ensures Valid() && beats == old(beats) + [Answered(id, server, now)]
      ensures var sent := BeatsSent(old(beats));
              var skew := ComputeSkew(Tracking(old(tracking.pollerSend), now, server, server));
              if id == old(expectedSeqId) && skew.Some? then
                && sent != [] && sent[|sent| - 1] == Sent(id, old(tracking.pollerSend))
                && Skew(offset, latency) == skew.value && observations == old(observations) + 1
                && latency == RoundTripDelay(Tracking(old(tracking.pollerSend), now, server, server))
              else
                offset == old(offset) && latency == old(latency) && observations == old(observations)
    {
      beats := beats + [Answered(id, server, now)];
      assert beats[..|beats| - 1] == old(beats);
      if expectedSeqId != id {
        return;
      }
      tracking := tracking.(pollerRecv := now, serverRecv := server, serverResp := server);
      var skew := ComputeSkew(tracking);
      if skew.None? {
        return;
      }
      observations := observations + 1;
      offset, latency := skew.value.offset, skew.value.latency;
    }
  }
}
