/** The PlayOS framing of compositor.sock: magic, little-endian length, body. */
module Framing {
  import opened Foundation
  import opened JsonMeaning

  const MAGIC := 0x504C4F53
  const MAX_BODY := 65536

  function Le32(v: nat): (r: bytes)
    requires v < 0x1_0000_0000
    ensures |r| == 4
  {
    [(v % 256) as char, (v / 256 % 256) as char, (v / 65536 % 256) as char, (v / 16777216 % 256) as char]
  }

  function Load32(p: bytes): (v: nat)
    requires |p| >= 4
    ensures v < 0x1_0000_0000
  {
    p[0] as int + p[1] as int * 256 + p[2] as int * 65536 + p[3] as int * 16777216
  }

  lemma LoadStored(v: nat)
    requires v < 0x1_0000_0000
    ensures Load32(Le32(v)) == v
  {
    assert v / 65536 == v / 256 / 256 && v / 16777216 == v / 65536 / 256;
  }

  lemma StoreLoaded(p: bytes)
    requires |p| == 4
    ensures Le32(Load32(p)) == p
  {
    var a, b, c, d := p[0] as int, p[1] as int, p[2] as int, p[3] as int;
    var v := Load32(p);
    assert v / 256 == b + c * 256 + d * 65536;
    assert v / 65536 == c + d * 256;
    assert v / 16777216 == d;
  }

  method Le32Store(p: array<byte>, at: nat, v: nat)
    requires at + 4 <= p.Length && v < 0x1_0000_0000
    modifies p
    ensures p[..] == old(p[..at]) + Le32(v) + old(p[at + 4..])
  {
    p[at] := (v % 256) as char;
    p[at + 1] := (v / 256 % 256) as char;
    p[at + 2] := (v / 65536 % 256) as char;
    p[at + 3] := (v / 16777216 % 256) as char;
  }

  // ---- Sending -----------------------------------------------------------------------------

  function Frame(body: bytes): bytes
    requires |body| <= MAX_BODY
  {
    Le32(MAGIC) + Le32(|body|) + body
  }

  /** The frame for a message, unless its body does not fit. */
  function Encoded(kind: bytes, extra: bytes): Option<bytes> {
    if |Body(kind, extra)| >= MAX_BODY then None else Some(Frame(Body(kind, extra)))
  }

  /** frame_send up to the send itself: the bytes handed to the socket. */
  method FrameSend(kind: bytes, extra: bytes) returns (frame: Option<bytes>)
    ensures frame == Encoded(kind, extra)
  {
    var buf := new byte[8 + MAX_BODY];
    var body := Body(kind, extra);
    if |body| >= MAX_BODY { return None; }
    forall i | 0 <= i < |body| {
      buf[8 + i] := body[i];
    }
    assert buf[8..8 + |body|] == body;
    Le32Store(buf, 0, MAGIC);
    assert buf[..4] == Le32(MAGIC) && buf[4..][4..4 + |body|] == body;
    ghost var rest := buf[8..];
    Le32Store(buf, 4, |body|);
    assert buf[..4] == Le32(MAGIC) && buf[4..8] == Le32(|body|) && buf[8..] == rest;
    assert buf[8..8 + |body|] == rest[..|body|] == body;
    assert buf[..8 + |body|] == buf[..4] + buf[4..8] + buf[8..8 + |body|];
    return Some(buf[..8 + |body|]);
  }

  // ---- Receiving ---------------------------------------------------------------------------

  /** The body of a received packet, if the header is accepted. */
  function Decoded(packet: bytes): Option<bytes> {
    if |packet| < 8 then None
    else if Load32(packet) != MAGIC || Load32(packet[4..]) > MAX_BODY || |packet| < 8 + Load32(packet[4..]) then None
    else Some(packet[8..8 + Load32(packet[4..])])
  }

  /** A packet is accepted with body `body` iff it is that body's frame, followed by anything. */
  lemma DecodedMeaning(packet: bytes, body: bytes)
    ensures Decoded(packet) == Some(body)
       <==> |body| <= MAX_BODY && Frame(body) <= packet
  {
    if Decoded(packet) == Some(body) {
      StoreLoaded(packet[..4]);
      StoreLoaded(packet[4..8]);
      assert packet[..4][..] == packet[..4];
      assert Load32(packet[4..]) == Load32(packet[4..8]) == |body|;
      assert packet[..8 + |body|] == packet[..4] + packet[4..8] + packet[8..8 + |body|];
    }
    if |body| <= MAX_BODY && Frame(body) <= packet {
      LoadStored(MAGIC);
      LoadStored(|body|);
      var f := Frame(body);
      assert f == packet[..|f|];
      assert f[..4] == Le32(MAGIC) && f[4..8] == Le32(|body|) && f[8..] == body;
      assert Load32(packet) == Load32(f[..4]) && Load32(packet[4..]) == Load32(f[4..8]);
      assert packet[8..8 + |body|] == f[8..];
    }
  }

  /** Every frame that is sent passes the receiver's checks and yields the printed body. */
  lemma FrameRoundTrip(kind: bytes, extra: bytes)
    requires Encoded(kind, extra).Some?
    ensures Decoded(Encoded(kind, extra).value) == Some(Body(kind, extra))
  {
    DecodedMeaning(Encoded(kind, extra).value, Body(kind, extra));
  }
}
