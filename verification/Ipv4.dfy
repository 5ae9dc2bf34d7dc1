/** IPv4 send and receive (kernel/ipv4.c) and the Ethernet framing in between
    (kernel/virtio_net.c); the header is that of section 3.1 of RFC 791. */
module Ipv4 {
  import opened Machine
  import opened Checksum

  const ETHERNET_HEADER_SIZE := 14
  const ETH_MIN_FRAME := 60
  const ETH_MAX_FRAME := 1514
  const HEADER_SIZE := 20
  const MAX_PACKET_SIZE := 1500
  const ETHERTYPE := 0x0800
  const LOCAL_ADDRESS := 0x0a00020f
  const BROADCAST_ADDRESS := 0xffffffff
  const PROTOCOL_ICMP := 1
  const PROTOCOL_TCP := 6
  const PROTOCOL_UDP := 17

  type Mac = m: seq<Byte> | |m| == 6 witness [0, 0, 0, 0, 0, 0]

  const LOCAL_MAC: Mac := [0x52, 0x54, 0x00, 0x12, 0x34, 0x56]
  const BROADCAST_MAC: Mac := [0xff, 0xff, 0xff, 0xff, 0xff, 0xff]

  type Address = a: int | 0 <= a < 0x1_0000_0000
  type Half = h: int | 0 <= h < 0x1_0000

  // ---- bytes ----

  function Hi(h: Half): Byte {
    h / 256
  }

  function Lo(h: Half): Byte {
    h % 256
  }

  lemma HalfRoundTrip(h: Half)
    ensures Be16(Hi(h), Lo(h)) == h
  {
  }

  function AddressBytes(a: Address): (b: seq<Byte>)
    ensures |b| == 4
  {
    [a / 16777216, a / 65536 % 256, a / 256 % 256, a % 256]
  }

  function ReadAddress(b0: Byte, b1: Byte, b2: Byte, b3: Byte): Address {
    var x0: int, x1: int, x2: int, x3: int := b0, b1, b2, b3;
    x0 * 16777216 + x1 * 65536 + x2 * 256 + x3
  }

  lemma AddressRoundTrip(a: Address)
    ensures var b := AddressBytes(a); ReadAddress(b[0], b[1], b[2], b[3]) == a
  {
    assert a / 65536 == a / 256 / 256;
    assert a / 16777216 == a / 65536 / 256;
  }

  // ---- the packet ipv4_send builds ----

  /** The fields before the checksum. */
  function HeaderStart(protocol: Byte, total: Half, id: Half): (h: seq<Byte>)
    ensures |h| == 10
  {
    [0x45, 0, Hi(total), Lo(total), Hi(id), Lo(id), 0, 0, 64, protocol]
  }

  /** The header with the given checksum field. */
  function Header(dst: Address, protocol: Byte, total: Half, id: Half, sum: Half): (h: seq<Byte>)
    ensures |h| == HEADER_SIZE
  {
    HeaderStart(protocol, total, id) + [Hi(sum), Lo(sum)] + AddressBytes(LOCAL_ADDRESS) + AddressBytes(dst)
  }

  function FinalHeader(dst: Address, protocol: Byte, total: Half, id: Half): (h: seq<Byte>)
    ensures |h| == HEADER_SIZE
  {
    Header(dst, protocol, total, id, ChecksumOf(Header(dst, protocol, total, id, 0)))
  }

  function Packet(dst: Address, protocol: Byte, payload: seq<Byte>, id: Half): (p: seq<Byte>)
    requires |payload| <= MAX_PACKET_SIZE - HEADER_SIZE
    ensures |p| == HEADER_SIZE + |payload|
  {
    FinalHeader(dst, protocol, HEADER_SIZE + |payload|, id) + payload
  }

  /** `virtio_net_send_ethernet`: header, payload, zero padding up to 60 bytes. */
  function EthernetFrame(dst: Mac, ethertype: Half, payload: seq<Byte>): (f: seq<Byte>)
    ensures |f| == if 14 + |payload| < 60 then 60 else 14 + |payload|
    ensures f[..6] == dst && f[6..12] == LOCAL_MAC && Be16(f[12], f[13]) == ethertype
    ensures f[14..14 + |payload|] == payload
    ensures forall i :: 14 + |payload| <= i < |f| ==> f[i] == 0
  {
    HalfRoundTrip(ethertype);
    var f := dst + LOCAL_MAC + [Hi(ethertype), Lo(ethertype)] + payload;
    if |f| < ETH_MIN_FRAME then f + seq(ETH_MIN_FRAME - |f|, _ => 0) else f
  }

  /** What `virtio_net_send_ethernet` hands to the device: nothing before the driver is `ready`, without
      an address or a payload, or for a length that is negative or too large; otherwise a frame within the
      limits of Ethernet. */
  function SendEthernet(ready: bool, dst: Option<Mac>, ethertype: Half, payload: Option<seq<Byte>>, len: int):
      (r: Option<seq<Byte>>)
    requires payload.Some? ==> len <= |payload.value|
    ensures r.None? <==> !ready || dst.None? || payload.None? || len < 0 || len > 1500
    ensures r.Some? ==>
              && r.value == EthernetFrame(dst.value, ethertype, payload.value[..len])
              && 60 <= |r.value| <= 1514
  {
    if !ready || dst.None? || payload.None? || len < 0 || len > ETH_MAX_FRAME - ETHERNET_HEADER_SIZE then None
    else Some(EthernetFrame(dst.value, ethertype, payload.value[..len]))
  }

  // ---- ipv4_receive ----

  datatype Verdict = Dropped | Accepted(protocol: Byte)

  predicate ForUs(a: int) {
    a == LOCAL_ADDRESS || a == BROADCAST_ADDRESS
  }

  /** The checks of `ipv4_receive`, in order. */
  function Classify(frame: seq<Byte>): Verdict {
    if |frame| < ETHERNET_HEADER_SIZE + HEADER_SIZE then Dropped
    else
      var packet := frame[ETHERNET_HEADER_SIZE..];
      var version, ihl := packet[0] / 16, packet[0] % 16;
      var headerLen := ihl * 4;
      if version != 4 || ihl < 5 || headerLen > |packet| then Dropped
      else
        var total := Be16(packet[2], packet[3]);
        if total < headerLen || total > |packet| then Dropped
        else if ChecksumOf(packet[..headerLen]) != 0 then Dropped
        else
          var fragment := Be16(packet[6], packet[7]);
          if fragment / 0x2000 % 2 != 0 || fragment % 0x2000 != 0 then Dropped
          else if !ForUs(ReadAddress(packet[16], packet[17], packet[18], packet[19])) then Dropped
          else Accepted(packet[9])
  }

  datatype Stats = Stats(
    rxPackets: int, rxDropped: int, rxIcmp: int, rxUdp: int, rxTcp: int, rxOther: int, txPackets: int, txDropped: int)

  function Bump(n: int): int {
    (n + 1) % TWO_32
  }

  function Received(s: Stats, v: Verdict): Stats {
    match v
    case Dropped => s.(rxDropped := Bump(s.rxDropped))
    case Accepted(p) =>
      var s1 := s.(rxPackets := Bump(s.rxPackets));
      if p == PROTOCOL_ICMP then s1.(rxIcmp := Bump(s.rxIcmp))
      else if p == PROTOCOL_UDP then s1.(rxUdp := Bump(s.rxUdp))
      else if p == PROTOCOL_TCP then s1.(rxTcp := Bump(s.rxTcp))
      else s1.(rxOther := Bump(s.rxOther))
  }

  // ---- agreement ----

  lemma HeaderFields(dst: Address, protocol: Byte, total: Half, id: Half, sum: Half)
    ensures var h := Header(dst, protocol, total, id, sum);
            && h[0] == 0x45 && Be16(h[2], h[3]) == total && Be16(h[6], h[7]) == 0 && h[9] == protocol
            && Be16(h[10], h[11]) == sum && ReadAddress(h[16], h[17], h[18], h[19]) == dst
  {
    HalfRoundTrip(total);
    HalfRoundTrip(sum);
    AddressRoundTrip(dst);
  }

  /** Filling the checksum field of a header whose field was zero makes it verify. */
  lemma ChecksumFills(dst: Address, protocol: Byte, total: Half, id: Half)
    ensures ChecksumOf(FinalHeader(dst, protocol, total, id)) == 0
  {
    hide WordSum, Sum32, Fold;
    var blank := Header(dst, protocol, total, id, 0);
    var c := ChecksumOf(blank);
    var full := Header(dst, protocol, total, id, c);
    ShortNoWrap(blank);
    ShortNoWrap(full);
    assert full == SetWordAt(blank, 5, Hi(c), Lo(c));
    HeaderFields(dst, protocol, total, id, 0);
    SumAfterSet(blank, 5, Hi(c), Lo(c));
    HalfRoundTrip(c);
    assert WordSum(full) == WordSum(blank) + c;
    Sum32Exact(blank, 0);
    FoldIsResidue(WordSum(blank));
    PositiveSum(blank);
    ComplementCloses(WordSum(blank));
    VerifiesIff(full);
  }

  lemma ComplementCloses(s: nat)
    requires s > 0
    ensures (s + (ONES - Residue(s))) % ONES == 0
  {
    var q, r := (s - 1) / ONES, (s - 1) % ONES;
    assert s == q * ONES + (r + 1) && Residue(s) == r + 1;
    assert s + (ONES - Residue(s)) == 0 + (q + 1) * ONES;
    ModShift(0, q + 1);
  }

  lemma PositiveSum(h: seq<Byte>)
    requires |h| >= 2 && h[0] == 0x45
    ensures WordSum(h) > 0
  {
  }

  /** Every packet the kernel sends to its own or the broadcast address passes every check of its own
      receive path, whatever the protocol, payload, identification and padding. */
  lemma SendReceiveAgree(mac: Mac, dst: Address, protocol: Byte, payload: seq<Byte>, id: Half)
    requires |payload| <= MAX_PACKET_SIZE - HEADER_SIZE && ForUs(dst)
    ensures Classify(EthernetFrame(mac, ETHERTYPE, Packet(dst, protocol, payload, id))) == Accepted(protocol)
  {
    hide ChecksumOf, EthernetFrame, FinalHeader;
    var total := HEADER_SIZE + |payload|;
    var p := Packet(dst, protocol, payload, id);
    var frame := EthernetFrame(mac, ETHERTYPE, p);
    var packet := frame[ETHERNET_HEADER_SIZE..];
    FinalFields(dst, protocol, total, id);
    ChecksumFills(dst, protocol, total, id);
    PrefixOfFrame(frame, p, FinalHeader(dst, protocol, total, id), payload);
    assert packet[..HEADER_SIZE] == FinalHeader(dst, protocol, total, id);
  }

  lemma FinalFields(dst: Address, protocol: Byte, total: Half, id: Half)
    ensures var h := FinalHeader(dst, protocol, total, id);
            && h[0] == 0x45 && Be16(h[2], h[3]) == total && Be16(h[6], h[7]) == 0 && h[9] == protocol
            && ReadAddress(h[16], h[17], h[18], h[19]) == dst
  {
    HeaderFields(dst, protocol, total, id, ChecksumOf(Header(dst, protocol, total, id, 0)));
  }

  lemma PrefixOfFrame(frame: seq<Byte>, p: seq<Byte>, h: seq<Byte>, payload: seq<Byte>)
    requires p == h + payload && |h| == HEADER_SIZE && |frame| >= ETHERNET_HEADER_SIZE + |p|
    requires frame[ETHERNET_HEADER_SIZE..ETHERNET_HEADER_SIZE + |p|] == p
    ensures frame[ETHERNET_HEADER_SIZE..][..HEADER_SIZE] == h
    ensures forall i :: 0 <= i < HEADER_SIZE ==> frame[ETHERNET_HEADER_SIZE..][i] == h[i]
  {
    forall i | 0 <= i < HEADER_SIZE ensures frame[ETHERNET_HEADER_SIZE..][i] == h[i] {
      assert frame[ETHERNET_HEADER_SIZE..ETHERNET_HEADER_SIZE + |p|][i] == h[i];
    }
  }

  predicate NotFull(s: Stats) {
    && 0 <= s.rxPackets < TWO_32 - 1 && 0 <= s.rxDropped < TWO_32 - 1 && 0 <= s.rxIcmp < TWO_32 - 1
    && 0 <= s.rxUdp < TWO_32 - 1 && 0 <= s.rxTcp < TWO_32 - 1 && 0 <= s.rxOther < TWO_32 - 1
  }

  /** What a frame sent by the kernel to itself does to the counters: one packet received, counted
      under exactly its protocol, and nothing else. */
  lemma SentFrameCounts(s: Stats, mac: Mac, dst: Address, protocol: Byte, payload: seq<Byte>, id: Half)
    requires |payload| <= MAX_PACKET_SIZE - HEADER_SIZE && ForUs(dst) && NotFull(s)
    ensures var t := Received(s, Classify(EthernetFrame(mac, ETHERTYPE, Packet(dst, protocol, payload, id))));
            t == s.(rxPackets := s.rxPackets + 1,
                    rxIcmp := s.rxIcmp + (if protocol == PROTOCOL_ICMP then 1 else 0),
                    rxUdp := s.rxUdp + (if protocol == PROTOCOL_UDP then 1 else 0),
                    rxTcp := s.rxTcp + (if protocol == PROTOCOL_TCP then 1 else 0),
                    rxOther := s.rxOther + (if protocol in {PROTOCOL_ICMP, PROTOCOL_UDP, PROTOCOL_TCP} then 0 else 1))
  {
    hide Classify, EthernetFrame, Packet;
    SendReceiveAgree(mac, dst, protocol, payload, id);
  }

  // ---- the stack as it runs ----

  class Stack {
    var stats: Stats
    var nextId: Half

    /** `ipv4_init`. */
    constructor ()
      ensures stats == Stats(0, 0, 0, 0, 0, 0, 0, 0) && nextId == 1
    {
      stats := Stats(0, 0, 0, 0, 0, 0, 0, 0);
      nextId := 1;
    }

    method Drop()
      modifies this`stats
      ensures stats == Received(old(stats), Dropped)
    {
      stats := stats.(rxDropped := Bump(stats.rxDropped));
    }

    /** `ipv4_receive`. */
    method Receive(frame: seq<Byte>)
      modifies this`stats
      ensures stats == Received(old(stats), Classify(frame))
    {
      if |frame| < ETHERNET_HEADER_SIZE + HEADER_SIZE {
        Drop();
        return;
      }
      var packet := frame[ETHERNET_HEADER_SIZE..];
      var version, ihl := packet[0] / 16, packet[0] % 16;
      var headerLen := ihl * 4;
      if version != 4 || ihl < 5 || headerLen > |packet| {
        Drop();
        return;
      }
      var total := Be16(packet[2], packet[3]);
      if total < headerLen || total > |packet| {
        Drop();
        return;
      }
      var sum := ComputeChecksum(packet[..headerLen]);
      if sum != 0 {
        Drop();
        return;
      }
      var fragment := Be16(packet[6], packet[7]);
      if fragment / 0x2000 % 2 != 0 || fragment % 0x2000 != 0 {
        Drop();
        return;
      }
      var dst := ReadAddress(packet[16], packet[17], packet[18], packet[19]);
      if !ForUs(dst) {
        Drop();
        return;
      }
      stats := stats.(rxPackets := Bump(stats.rxPackets));
      if packet[9] == PROTOCOL_ICMP {
        stats := stats.(rxIcmp := Bump(stats.rxIcmp));
      } else if packet[9] == PROTOCOL_UDP {
        stats := stats.(rxUdp := Bump(stats.rxUdp));
      } else if packet[9] == PROTOCOL_TCP {
        stats := stats.(rxTcp := Bump(stats.rxTcp));
      } else {
        stats := stats.(rxOther := Bump(stats.rxOther));
      }
    }

    /** The header fields of a zeroed buffer, except the checksum. */
    static method FillHeader(buf: array<Byte>, dst: Address, protocol: Byte, total: Half, id: Half)
      requires buf.Length >= HEADER_SIZE && forall i :: 0 <= i < HEADER_SIZE ==> buf[i] == 0
      modifies buf
      ensures buf[..HEADER_SIZE] == Header(dst, protocol, total, id, 0)
    {
      hide HeaderStart, AddressBytes;
      FillStart(buf, protocol, total, id);
      WriteAddress(buf, 12, LOCAL_ADDRESS);
      WriteAddress(buf, 16, dst);
      assert buf[..10] == HeaderStart(protocol, total, id);
      assert buf[12..16] == AddressBytes(LOCAL_ADDRESS);
      assert buf[..HEADER_SIZE] == buf[..10] + [Hi(0), Lo(0)] + buf[12..16] + buf[16..20];
    }

    static method FillStart(buf: array<Byte>, protocol: Byte, total: Half, id: Half)
      requires buf.Length >= HEADER_SIZE && forall i :: 0 <= i < HEADER_SIZE ==> buf[i] == 0
      modifies buf
      ensures buf[..10] == HeaderStart(protocol, total, id)
      ensures forall i :: 10 <= i < buf.Length ==> buf[i] == old(buf[i])
    {
      hide Hi, Lo;
      buf[0] := 4 * 16 + 5;
      buf[2], buf[3] := Hi(total), Lo(total);
      buf[4], buf[5] := Hi(id), Lo(id);
      buf[6], buf[7] := 0, 0;
      buf[8] := 64;
      buf[9] := protocol;
    }

    /** `write_ipv4_addr`. */
    static method WriteAddress(buf: array<Byte>, at: nat, a: Address)
      requires at + 4 <= buf.Length
      modifies buf
      ensures buf[at..at + 4] == AddressBytes(a)
      ensures forall i :: 0 <= i < buf.Length && !(at <= i < at + 4) ==> buf[i] == old(buf[i])
    {
      hide AddressBytes;
      var b := AddressBytes(a);
      buf[at], buf[at + 1], buf[at + 2], buf[at + 3] := b[0], b[1], b[2], b[3];
    }

    static method CopyPayload(buf: array<Byte>, payload: seq<Byte>)
      requires HEADER_SIZE + |payload| <= buf.Length
      modifies buf
      ensures buf[..HEADER_SIZE] == old(buf[..HEADER_SIZE])
      ensures buf[HEADER_SIZE..HEADER_SIZE + |payload|] == payload
    {
      for i := 0 to |payload|
        invariant buf[..HEADER_SIZE] == old(buf[..HEADER_SIZE])
        invariant forall j :: 0 <= j < i ==> buf[HEADER_SIZE + j] == payload[j]
      {
        buf[HEADER_SIZE + i] := payload[i];
        assert buf[..HEADER_SIZE] == old(buf[..HEADER_SIZE]);
      }
    }

    static method FillChecksum(buf: array<Byte>, ghost dst: Address, ghost protocol: Byte, ghost total: Half,
                               ghost id: Half)
      requires buf.Length >= HEADER_SIZE && buf[..HEADER_SIZE] == Header(dst, protocol, total, id, 0)
      modifies buf
      ensures buf[..HEADER_SIZE] == FinalHeader(dst, protocol, total, id)
      ensures forall i :: HEADER_SIZE <= i < buf.Length ==> buf[i] == old(buf[i])
    {
      hide ChecksumOf;
      var sum := ComputeChecksum(buf[..HEADER_SIZE]);
      ghost var blank := buf[..HEADER_SIZE];
      buf[10], buf[11] := Hi(sum), Lo(sum);
      assert buf[..HEADER_SIZE] == SetWordAt(blank, 5, Hi(sum), Lo(sum)) == Header(dst, protocol, total, id, sum);
    }

    /** The packet buffer of `ipv4_send`. */
    method Build(dst: Address, protocol: Byte, payload: seq<Byte>) returns (packet: seq<Byte>)
      requires |payload| <= MAX_PACKET_SIZE - HEADER_SIZE
      modifies this`nextId
      ensures packet == Packet(dst, protocol, payload, old(nextId))
      ensures nextId == (old(nextId) + 1) % 0x1_0000
    {
      hide FinalHeader, Header;
      var total := HEADER_SIZE + |payload|;
      var buf := new Byte[MAX_PACKET_SIZE](_ => 0);
      FillHeader(buf, dst, protocol, total, nextId);
      CopyPayload(buf, payload);
      FillChecksum(buf, dst, protocol, total, nextId);
      nextId := (nextId + 1) % 0x1_0000;
      packet := buf[..total];
      assert packet == buf[..HEADER_SIZE] + buf[HEADER_SIZE..total];
    }
  }
}
