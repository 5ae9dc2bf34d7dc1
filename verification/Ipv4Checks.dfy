/** Which frames `ipv4_receive` accepts and which it drops (kernel/ipv4.c), and what the packets that
    `ipv4_send` builds look like, byte by byte (section 3.1 of RFC 791). */
module Ipv4Checks {
  import opened Machine
  import opened Checksum
  import opened Ipv4

  // ---- the packet ----

  /** Every field of a packet that `ipv4_send` builds, and its payload. */
  lemma PacketFields(dst: Address, protocol: Byte, payload: seq<Byte>, id: Half)
    requires |payload| <= 1480
    ensures var p := Packet(dst, protocol, payload, id);
            && |p| == 20 + |payload| && p[20..] == payload
            && p[0] == 0x45 && p[1] == 0 && Be16(p[2], p[3]) == 20 + |payload|
            && Be16(p[4], p[5]) == id && p[6] == 0 && p[7] == 0 && p[8] == 64 && p[9] == protocol
            && p[12..16] == [10, 0, 2, 15]
            && ReadAddress(p[16], p[17], p[18], p[19]) == dst
            && WordSum(p[..20]) > 0 && WordSum(p[..20]) % 65535 == 0
  {
    hide ChecksumOf, WordSum;
    var total := HEADER_SIZE + |payload|;
    var h := FinalHeader(dst, protocol, total, id);
    assert Packet(dst, protocol, payload, id)[..20] == h;
    HalfRoundTrip(total);
    HalfRoundTrip(id);
    AddressRoundTrip(dst);
    ChecksumFills(dst, protocol, total, id);
    ShortNoWrap(h);
    VerifiesIff(h);
  }

  // ---- what is accepted ----

  /** The header length that a frame claims. */
  function HeaderLen(frame: seq<Byte>): int
    requires |frame| > 14
  {
    frame[14] % 16 * 4
  }

  /** The header is whole and lies in the packet, and the packet in the frame. */
  predicate Fits(frame: seq<Byte>) {
    && |frame| >= 34 && frame[14] / 16 == 4
    && 20 <= HeaderLen(frame) <= Be16(frame[16], frame[17]) <= |frame| - 14
  }

  /** It is no fragment: neither the more-fragments bit nor an offset is set. */
  predicate Whole(frame: seq<Byte>)
    requires |frame| >= 34
  {
    Be16(frame[20], frame[21]) % 0x4000 == 0
  }

  /** It is for 10.0.2.15 or for everybody. */
  predicate Addressed(frame: seq<Byte>)
    requires |frame| >= 34
  {
    frame[30..34] == [10, 0, 2, 15] || frame[30..34] == [255, 255, 255, 255]
  }

  predicate Sums(frame: seq<Byte>)
    requires Fits(frame)
  {
    var s := WordSum(frame[14..14 + HeaderLen(frame)]);
    s > 0 && s % 65535 == 0
  }

  /** A frame is accepted if and only if its lengths fit, its header sums to a positive multiple of 65535,
      it is no fragment and it is addressed to us; the protocol is then that of the header. */
  lemma AcceptedIff(frame: seq<Byte>)
    ensures Classify(frame) ==
            if Fits(frame) && Sums(frame) && Whole(frame) && Addressed(frame) then Accepted(frame[23]) else Dropped
  {
    hide ChecksumOf, WordSum, ReadAddress;
    if |frame| >= 34 {
      var packet := frame[14..];
      var n := HeaderLen(frame);
      ForUsBytes(frame);
      if n <= |packet| {
        assert packet[..n] == frame[14..14 + n];
        ShortNoWrap(packet[..n]);
        VerifiesIff(packet[..n]);
      }
    }
  }

  lemma ForUsBytes(frame: seq<Byte>)
    requires |frame| >= 34
    ensures ForUs(ReadAddress(frame[30], frame[31], frame[32], frame[33])) <==> Addressed(frame)
  {
    assert frame[30..34] == [frame[30], frame[31], frame[32], frame[33]];
    AddressUnique(frame[30], frame[31], frame[32], frame[33], 10, 0, 2, 15);
    AddressUnique(frame[30], frame[31], frame[32], frame[33], 255, 255, 255, 255);
  }

  lemma LastByte(y: int, d: Byte, y1: int, d1: Byte)
    ensures y * 256 + d as int == y1 * 256 + d1 as int <==> y == y1 && d == d1
  {
  }

  lemma AddressUnique(a: Byte, b: Byte, c: Byte, d: Byte, w: Byte, x: Byte, y: Byte, z: Byte)
    ensures ReadAddress(a, b, c, d) == ReadAddress(w, x, y, z) <==> a == w && b == x && c == y && d == z
  {
    var p1: int, q1: int := a as int * 256 + b as int, w as int * 256 + x as int;
    var p2, q2 := p1 * 256 + c as int, q1 * 256 + y as int;
    assert ReadAddress(a, b, c, d) == p2 * 256 + d as int && ReadAddress(w, x, y, z) == q2 * 256 + z as int;
    LastByte(p2, d, q2, z);
    LastByte(p1, c, q1, y);
    LastByte(a as int, b, w as int, x);
  }

  /** What the counters do: a dropped frame moves the drop counter and nothing else, an accepted one the
      packet counter and the counter of its protocol, 1, 17, 6 or other. */
  lemma ReceiveCounts(s: Stats, frame: seq<Byte>)
    ensures var t := Received(s, Classify(frame));
            if Fits(frame) && Sums(frame) && Whole(frame) && Addressed(frame) then
              && t.rxPackets == (s.rxPackets + 1) % 0x1_0000_0000
              && (if frame[23] == 1 then t == s.(rxPackets := t.rxPackets, rxIcmp := (s.rxIcmp + 1) % 0x1_0000_0000)
                  else if frame[23] == 17 then t == s.(rxPackets := t.rxPackets, rxUdp := (s.rxUdp + 1) % 0x1_0000_0000)
                  else if frame[23] == 6 then t == s.(rxPackets := t.rxPackets, rxTcp := (s.rxTcp + 1) % 0x1_0000_0000)
                  else t == s.(rxPackets := t.rxPackets, rxOther := (s.rxOther + 1) % 0x1_0000_0000))
            else t == s.(rxDropped := (s.rxDropped + 1) % 0x1_0000_0000)
  {
    hide Classify, Fits, Sums, Whole, Addressed;
    AcceptedIff(frame);
  }

  // ---- what is dropped ----

  /** The frame on the wire for a packet of ours. */
  function Sent(mac: Mac, dst: Address, protocol: Byte, payload: seq<Byte>, id: Half): (f: seq<Byte>)
    requires |payload| <= 1480
  {
    EthernetFrame(mac, 0x0800, Packet(dst, protocol, payload, id))
  }

  lemma SentFields(mac: Mac, dst: Address, protocol: Byte, payload: seq<Byte>, id: Half)
    requires |payload| <= 1480
    ensures var f := Sent(mac, dst, protocol, payload, id);
            && |f| >= 34 + |payload| && f[14..34 + |payload|] == Packet(dst, protocol, payload, id)
            && (forall i :: 0 <= i < 20 + |payload| ==> f[14 + i] == Packet(dst, protocol, payload, id)[i])
  {
    hide EthernetFrame, Packet;
    var p, f := Packet(dst, protocol, payload, id), Sent(mac, dst, protocol, payload, id);
    forall i | 0 <= i < |p| ensures f[14 + i] == p[i] {
      assert f[14..14 + |p|][i] == p[i];
    }
  }

  /** A packet for anybody else is dropped. */
  lemma ElsewhereDropped(mac: Mac, dst: Address, protocol: Byte, payload: seq<Byte>, id: Half)
    requires |payload| <= 1480 && dst != 0x0a00020f && dst != 0xffffffff
    ensures Classify(Sent(mac, dst, protocol, payload, id)) == Dropped
  {
    hide Sent, Classify, Packet, WordSum;
    var f := Sent(mac, dst, protocol, payload, id);
    SentFields(mac, dst, protocol, payload, id);
    PacketFields(dst, protocol, payload, id);
    AcceptedIff(f);
    ForUsBytes(f);
  }

  /** The frame with header word `j` changed on the way. */
  function Changed(f: seq<Byte>, j: nat, hi: Byte, lo: Byte): (g: seq<Byte>)
    requires j < 10 && |f| >= 34
    ensures |g| == |f|
  {
    f[14 + 2 * j := hi][15 + 2 * j := lo]
  }

  /** A packet in which one header word was changed on the way is dropped, unless the change is between
      0x0000 and 0xffff, which no sum modulo 65535 can see, or makes the header longer. */
  lemma ChangedDropped(mac: Mac, dst: Address, protocol: Byte, payload: seq<Byte>, id: Half, j: nat, hi: Byte, lo: Byte)
    requires |payload| <= 1480 && j < 10 && (j == 0 ==> hi % 16 <= 5)
    requires var f := Sent(mac, dst, protocol, payload, id);
             && |f| >= 34
             && var was, now := Be16(f[14 + 2 * j], f[15 + 2 * j]), Be16(hi, lo);
             was != now && !(was == 0 && now == 0xffff) && !(was == 0xffff && now == 0)
    ensures Classify(Changed(Sent(mac, dst, protocol, payload, id), j, hi, lo)) == Dropped
  {
    hide Sent, Classify, Packet, WordSum, Whole, Addressed, ChecksumOf;
    var f, p := Sent(mac, dst, protocol, payload, id), Packet(dst, protocol, payload, id);
    var g := Changed(f, j, hi, lo);
    SentFields(mac, dst, protocol, payload, id);
    PacketFields(dst, protocol, payload, id);
    AcceptedIff(g);
    if Fits(g) && HeaderLen(g) == 20 {
      var h := p[..20];
      assert g[14..34] == SetWordAt(h, j, hi, lo);
      ShortNoWrap(h);
      ShortNoWrap(g[14..34]);
      VerifiesIff(h);
      OneWordChange(h, j, hi, lo);
      VerifiesIff(g[14..34]);
    }
  }

  lemma {:induction false} SumOfBoth(a: seq<Byte>, b: seq<Byte>)
    requires |a| % 2 == 0
    ensures WordSum(a + b) == WordSum(a) + WordSum(b)
    decreases |a|
  {
    if a == [] {
      assert a + b == b;
    } else {
      assert (a + b)[2..] == a[2..] + b;
      SumOfBoth(a[2..], b);
    }
  }

  /** When the first word is changed so that the header reaches into the payload, the packet is accepted if
      and only if the longer header lies in the packet and the change is made up for by the payload words it
      takes in. */
  lemma LongerHeaderIff(mac: Mac, dst: Address, protocol: Byte, payload: seq<Byte>, id: Half, hi: Byte, lo: Byte)
    requires |payload| <= 1480 && hi / 16 == 4 && hi % 16 > 5
    ensures var f := Sent(mac, dst, protocol, payload, id);
            && |f| >= 34
            && var n := hi % 16 * 4 - 20;
            Classify(Changed(f, 0, hi, lo)).Accepted? <==>
            && (dst == 0x0a00020f || dst == 0xffffffff) && n <= |payload|
            && (Be16(hi, lo) - 0x4500 + WordSum(payload[..n])) % 65535 == 0
  {
    hide Sent, Classify, Packet, WordSum, ChecksumOf;
    var f, p := Sent(mac, dst, protocol, payload, id), Packet(dst, protocol, payload, id);
    SentFields(mac, dst, protocol, payload, id);
    var g, n := Changed(f, 0, hi, lo), hi % 16 * 4 - 20;
    PacketFields(dst, protocol, payload, id);
    AcceptedIff(g);
    ForUsBytes(g);
    assert Whole(g);
    if n <= |payload| {
      var h := p[..20];
      assert g[14..34 + n] == SetWordAt(h, 0, hi, lo) + payload[..n];
      SumAfterSet(h, 0, hi, lo);
      SumOfBoth(SetWordAt(h, 0, hi, lo), payload[..n]);
      MultipleShift(WordSum(h), Be16(hi, lo) - 0x4500 + WordSum(payload[..n]));
    }
  }

  lemma MultipleShift(s: int, d: int)
    requires s % 65535 == 0
    ensures (s + d) % 65535 == 0 <==> d % 65535 == 0
  {
  }

  /** So a changed header can get through: this one does, with the payload bytes fe ff 00 00. */
  lemma LongerHeaderAccepted(mac: Mac, id: Half)
    ensures var f := Sent(mac, 0x0a00020f, 17, [0xfe, 0xff, 0, 0], id);
            |f| >= 34 && Classify(Changed(f, 0, 0x46, 0)).Accepted?
  {
    hide Sent, Classify;
    var payload: seq<Byte> := [0xfe, 0xff, 0, 0];
    LongerHeaderIff(mac, 0x0a00020f, 17, payload, id, 0x46, 0);
    assert payload[..4] == payload && payload[2..] == [0, 0] && payload[2..][2..] == [];
    assert WordSum([0, 0]) == 0;
    assert WordSum(payload) == 0xfeff;
  }
}
