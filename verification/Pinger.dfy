/** The payload of a ping packet, and waiting for the reply to it. */
module Pingers {
  import opened Protocol

  newtype byte = n: int | 0 <= n < 256

  const PadUpTo := 56
  const GooglePingLimit := 64

  function PadByte(k: nat): byte { ((k + 1) % 256) as byte }

  function Padding(n: nat): seq<byte> { seq(n, k requires k >= 0 => PadByte(k)) }

  /** Identifier, zero, length of the time, time. */
  function Essentials(identifier: seq<byte>, time: seq<byte>): seq<byte> {
    identifier + [0] + [(|time| % 256) as byte] + time
  }

  function Payload(identifier: seq<byte>, time: seq<byte>): seq<byte> {
    var e := Essentials(identifier, time);
    if |e| < PadUpTo then e + Padding(PadUpTo - |e|) else e
  }

  datatype Decoded = Decoded(identifier: seq<byte>, time: seq<byte>)

  /** Position of the first zero. */
  function FirstZero(data: seq<byte>): Option<nat> {
    if |data| == 0 then None
    else if data[0] == 0 then Some(0)
    else match FirstZero(data[1..]) case None => None case Some(k) => Some(k + 1)
  }

  function Min(a: int, b: int): int { if a < b then a else b }

  /** Only the first 64 bytes are looked at; a time that is cut short is read as far as it goes. */
  function Decode(data: seq<byte>): Option<Decoded> {
    var buf := if |data| > GooglePingLimit then data[..GooglePingLimit] else data;
    match FirstZero(buf)
    case None => None
    case Some(z) =>
      if z + 1 >= |buf| then None
      else
        var rest := buf[z + 2..];
        Some(Decoded(buf[..z], rest[..Min(buf[z + 1] as int, |rest|)]))
  }

  lemma {:induction false} FirstZeroAt(data: seq<byte>, z: nat)
    requires z < |data| && data[z] == 0 && forall k | 0 <= k < z :: data[k] != 0
    ensures FirstZero(data) == Some(z)
  {
    if z > 0 {
      FirstZeroAt(data[1..], z - 1);
    }
  }

  lemma {:induction false} NoZero(data: seq<byte>)
    ensures FirstZero(data).None? <==> forall k | 0 <= k < |data| :: data[k] != 0
    ensures FirstZero(data).Some? ==>
              var z := FirstZero(data).value;
              z < |data| && data[z] == 0 && forall k | 0 <= k < z :: data[k] != 0
  {
    if |data| > 0 && data[0] != 0 {
      NoZero(data[1..]);
      assert forall k | 0 < k < |data| :: data[k] == data[1..][k - 1];
    }
  }

  predicate Fits(identifier: seq<byte>, time: seq<byte>) {
    |identifier| + 2 + |time| <= 64
  }

  /** `data` starts with the essentials of a packet. */
  predicate Carries(data: seq<byte>, identifier: seq<byte>, time: seq<byte>)
    requires |time| < 256
  {
    var n := |identifier|;
    && |data| >= n + 2 + |time|
    && data[..n] == identifier
    && data[n] == 0 && data[n + 1] == |time| as byte
    && data[n + 2..n + 2 + |time|] == time
  }

  predicate ZeroFree(identifier: seq<byte>) {
    forall k | 0 <= k < |identifier| :: identifier[k] != 0
  }

  lemma PayloadCarries(identifier: seq<byte>, time: seq<byte>)
    requires |time| < 256
    ensures Carries(Payload(identifier, time), identifier, time)
  {
    var e := Essentials(identifier, time);
    assert Payload(identifier, time)[..|e|] == e;
  }

  lemma DecodeTooLong(data: seq<byte>, identifier: seq<byte>, time: seq<byte>)
    requires ZeroFree(identifier) && |time| < 256 && Carries(data, identifier, time)
    requires |identifier| + 2 > GooglePingLimit
    ensures Decode(data) == None
  {
    var buf := if |data| > GooglePingLimit then data[..GooglePingLimit] else data;
    assert forall k | 0 <= k < |identifier| :: data[k] == data[..|identifier|][k];
    if |identifier| < GooglePingLimit {
      FirstZeroAt(buf, |identifier|);
    } else {
      NoZero(buf);
    }
  }

  lemma DecodeWithinLimit(data: seq<byte>, identifier: seq<byte>, time: seq<byte>)
    requires ZeroFree(identifier) && |time| < 256 && Carries(data, identifier, time)
    requires |identifier| + 2 <= GooglePingLimit
    ensures Decode(data) == Some(Decoded(identifier, time[..Min(|time|, GooglePingLimit - 2 - |identifier|)]))
  {
    var n, m := |identifier|, Min(|time|, GooglePingLimit - 2 - |identifier|);
    var buf := if |data| > GooglePingLimit then data[..GooglePingLimit] else data;
    assert forall k | 0 <= k < n :: data[k] == data[..n][k];
    FirstZeroAt(buf, n);
    assert buf[..n] == identifier;
    var rest := buf[n + 2..];
    assert Min(buf[n + 1] as int, |rest|) == m;
    forall k | 0 <= k < m ensures rest[k] == time[k] {
      assert rest[k] == data[n + 2 + k] == data[n + 2..n + 2 + |time|][k];
    }
    assert rest[..m] == time[..m];
  }

  /** Encoding and decoding: the identifier comes back whole, or nothing does; of the time as much as there
      was room for. */
  lemma PayloadRoundTrip(identifier: seq<byte>, time: seq<byte>)
    requires ZeroFree(identifier) && |time| < 256
    ensures var d := Decode(Payload(identifier, time));
            && (d.None? <==> |identifier| + 2 > GooglePingLimit)
            && (d.Some? ==> d.value == Decoded(identifier, time[..Min(|time|, GooglePingLimit - 2 - |identifier|)]))
  {
    hide Decode, Payload, Carries;
    PayloadCarries(identifier, time);
    if |identifier| + 2 > GooglePingLimit {
      DecodeTooLong(Payload(identifier, time), identifier, time);
    } else {
      DecodeWithinLimit(Payload(identifier, time), identifier, time);
    }
  }

  /** What can be decoded at all: an identifier without a zero, a time no longer than its length byte can say. */
  lemma DecodedShape(data: seq<byte>)
    requires Decode(data).Some?
    ensures ZeroFree(Decode(data).value.identifier) && |Decode(data).value.time| < 256
  {
    var buf := if |data| > GooglePingLimit then data[..GooglePingLimit] else data;
    NoZero(buf);
  }

  /** For every identifier and every time: both come back exactly when the identifier has no zero in it and
      the two fit, with their delimiter and length byte, into the limit. */
  lemma RoundTripExactly(identifier: seq<byte>, time: seq<byte>)
    ensures Decode(Payload(identifier, time)) == Some(Decoded(identifier, time))
       <==> ZeroFree(identifier) && Fits(identifier, time)
  {
    hide Decode, Payload;
    if ZeroFree(identifier) && |time| < 256 {
      PayloadRoundTrip(identifier, time);
      if |identifier| + 2 <= GooglePingLimit {
        var m := Min(|time|, GooglePingLimit - 2 - |identifier|);
        assert |time[..m]| == m && (m == |time| ==> time[..m] == time);
      }
    } else if Decode(Payload(identifier, time)).Some? {
      DecodedShape(Payload(identifier, time));
    }
  }

  // ---- the loops ----

  method EncodePayload(identifier: seq<byte>, nowBytes: seq<byte>) returns (buffer: seq<byte>)
    ensures buffer == Payload(identifier, nowBytes)
  {
    buffer := identifier;
    buffer := buffer + [0];
    buffer := buffer + [(|nowBytes| % 256) as byte];
    buffer := buffer + nowBytes;
    ghost var e := buffer;
    var padByte: byte := 1;
    while |buffer| < PadUpTo
      invariant |e| <= |buffer| && (|buffer| <= PadUpTo || |buffer| == |e|)
      invariant buffer == e + Padding(|buffer| - |e|)
      invariant padByte == PadByte(|buffer| - |e|) && padByte as int == |buffer| - |e| + 1
    {
      buffer := buffer + [padByte];
      padByte := padByte + 1;
    }
  }

  method DecodePayload(data: seq<byte>) returns (d: Option<Decoded>)
    ensures d == Decode(data)
  {
    var rbuf := data;
    if |rbuf| > GooglePingLimit {
      rbuf := rbuf[..GooglePingLimit];
    }
    var z := 0;
    while z < |rbuf| && rbuf[z] != 0
      invariant 0 <= z <= |rbuf| && forall k | 0 <= k < z :: rbuf[k] != 0
    {
      z := z + 1;
    }
    if z == |rbuf| {
      NoZero(rbuf);
      return None;
    }
    FirstZeroAt(rbuf, z);
    var identifier := rbuf[..z];
    rbuf := rbuf[z + 1..];
    if |rbuf| == 0 {
      return None;
    }
    var timeLen := rbuf[0] as int;
    rbuf := rbuf[1..];
    d := Some(Decoded(identifier, rbuf[..Min(timeLen, |rbuf|)]));
  }

  // ---- waiting for the reply ----

  datatype Body = Echo(id: int, sequence: int, data: seq<byte>) | OtherBody

  /** What one read from the connection gives. `Packet.parsed` is false for bytes that are no ICMP message,
      and `replyType` tells an echo reply or destination-unreachable message from the rest. */
  datatype Read =
    | TimedOut
    | ReadError
    | Packet(peer: string, parsed: bool, replyType: bool, body: Body)

  datatype Outcome = GotReply(sequence: int, sent: seq<byte>) | ReadTimeout | ReadFailed | StillWaiting

  /** A reply is taken if it comes from the address pinged, bears the pinger's id and carries a time that can
      be read. The identifier in it is read past but not compared. */
  predicate Acceptable(r: Read, remote: string, id: int, readable: seq<byte> -> bool) {
    && r.Packet? && r.peer == remote && r.parsed && r.replyType
    && r.body.Echo? && r.body.id == id
    && Decode(r.body.data).Some? && readable(Decode(r.body.data).value.time)
  }

  predicate Skipped(r: Read, remote: string, id: int, readable: seq<byte> -> bool) {
    r.Packet? && !Acceptable(r, remote, id, readable)
  }

  /** Packets of others are passed over; the first read that is none decides. */
  method Receive(inputs: seq<Read>, remote: string, id: int, readable: seq<byte> -> bool) returns (o: Outcome, used: nat)
    ensures used <= |inputs| && forall k | 0 <= k < used :: Skipped(inputs[k], remote, id, readable)
    ensures o == StillWaiting <==> used == |inputs|
    ensures used < |inputs| ==>
              match inputs[used]
              case TimedOut => o == ReadTimeout
              case ReadError => o == ReadFailed
              case Packet(_, _, _, body) =>
                Acceptable(inputs[used], remote, id, readable) && o == GotReply(body.sequence, Decode(body.data).value.time)
  {
    used := 0;
    while used < |inputs|
      invariant used <= |inputs| && forall k | 0 <= k < used :: Skipped(inputs[k], remote, id, readable)
    {
      match inputs[used]
      case TimedOut => return ReadTimeout, used;
      case ReadError => return ReadFailed, used;
      case Packet(peer, parsed, replyType, body) =>
        if peer == remote && parsed && replyType && body.Echo? && body.id == id {
          var d := DecodePayload(body.data);
          if d.Some? && readable(d.value.time) {
            return GotReply(body.sequence, d.value.time), used;
          }
        }
        used := used + 1;
    }
    o := StillWaiting;
  }

  /** A reply is of no account unless it comes from the address pinged, is an echo reply, bears the pinger's id and
      carries, after an early zero, a time that can be read. */
  lemma AcceptableIff(r: Read, remote: string, id: int, readable: seq<byte> -> bool)
    ensures Acceptable(r, remote, id, readable) <==>
              exists sequence, data, identifier, time ::
                && r == Packet(remote, true, true, Echo(id, sequence, data))
                && Decode(data) == Some(Decoded(identifier, time)) && readable(time)
  {
    if Acceptable(r, remote, id, readable) {
      var d := Decode(r.body.data).value;
      assert r == Packet(remote, true, true, Echo(id, r.body.sequence, r.body.data));
      assert Decode(r.body.data) == Some(Decoded(d.identifier, d.time));
    }
  }

  /** Neither another peer's reply nor one with another id is ever taken, whatever it carries. */
  lemma ForeignNeverTaken(inputs: seq<Read>, remote: string, id: int, readable: seq<byte> -> bool, k: nat)
    requires k < |inputs| && inputs[k].Packet?
    requires inputs[k].peer != remote || (inputs[k].body.Echo? && inputs[k].body.id != id)
    ensures Skipped(inputs[k], remote, id, readable)
  {
    AcceptableIff(inputs[k], remote, id, readable);
  }

  /** The packet is filled up to 56 bytes with 1, 2, 3 and so on, never zero, and never cut short. */
  lemma PayloadPadded(identifier: seq<byte>, time: seq<byte>)
    ensures var e, p := Essentials(identifier, time), Payload(identifier, time);
            && |e| == |identifier| + 2 + |time| && e <= p
            && |p| == (if |e| < 56 then 56 else |e|)
            && forall k | |e| <= k < |p| :: p[k] as int == k - |e| + 1 && p[k] != 0
  {
  }

  /** The identifier read starts the data, up to the first zero, which must be early enough. */
  lemma DecodedIdentifierIff(data: seq<byte>, identifier: seq<byte>)
    requires Decode(data).Some?
    ensures Decode(data).value.identifier == identifier
       <==> ZeroFree(identifier) && |identifier| < GooglePingLimit && identifier + [0] <= data
  {
    var buf := if |data| > GooglePingLimit then data[..GooglePingLimit] else data;
    NoZero(buf);
    var z := FirstZero(buf).value;
    if ZeroFree(identifier) && |identifier| < GooglePingLimit && identifier + [0] <= data {
      var n := |identifier|;
      assert data[n] == (identifier + [0])[n];
      assert forall k | 0 <= k < n :: data[k] == (identifier + [0])[k] == identifier[k];
      FirstZeroAt(buf, n);
      assert buf[..n] == identifier;
    }
    assert buf[..z] + [0] == data[..z + 1];
  }

  /** The identifier is not compared: in place of the pinger's own, a reply to its address and id may carry any. An
      accepted reply bears the pinger's identifier exactly if its data starts with that and a zero. */
  lemma IdentifierIsNotChecked(remote: string, id: int, sequence: int, identifier: seq<byte>, other: seq<byte>,
                               time: seq<byte>, readable: seq<byte> -> bool)
    requires ZeroFree(other) && Fits(other, time) && readable(time)
    ensures var r := Packet(remote, true, true, Echo(id, sequence, Payload(other, time)));
            && Acceptable(r, remote, id, readable)
            && (Decode(r.body.data).value.identifier == identifier <==> other == identifier)
    ensures forall r | Acceptable(r, remote, id, readable) ::
              Decode(r.body.data).value.identifier == identifier
              <==> ZeroFree(identifier) && |identifier| < GooglePingLimit && identifier + [0] <= r.body.data
  {
    hide Decode, Payload;
    RoundTripExactly(other, time);
    forall r | Acceptable(r, remote, id, readable)
      ensures Decode(r.body.data).value.identifier == identifier
         <==> ZeroFree(identifier) && |identifier| < GooglePingLimit && identifier + [0] <= r.body.data
    {
      DecodedIdentifierIff(r.body.data, identifier);
    }
  }

  /** The reply to a ping of our own is recognised and gives back the time that was put in, if it fitted. */
  lemma OwnReplyAccepted(remote: string, id: int, sequence: int, identifier: seq<byte>, time: seq<byte>, readable: seq<byte> -> bool)
    requires ZeroFree(identifier) && Fits(identifier, time) && readable(time)
    ensures var r := Packet(remote, true, true, Echo(id, sequence, Payload(identifier, time)));
            Acceptable(r, remote, id, readable) && Decode(r.body.data).value == Decoded(identifier, time)
  {
    RoundTripExactly(identifier, time);
  }
}
