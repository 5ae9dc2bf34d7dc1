/** The ARP cache of kernel/arp.c (RFC 826, Packet Reception). */
module Arp {
  import opened Machine
  import opened Checksum
  import opened Ipv4

  const CACHE_SIZE := 8
  const PACKET_SIZE := 28
  const OPERATION_REQUEST := 1
  const ARP_ETHERTYPE := 0x0806
  const UNKNOWN_MAC: Mac := [0, 0, 0, 0, 0, 0]

  datatype Entry = Entry(valid: bool, ip: int, mac: Mac)

  const EMPTY := Entry(false, 0, [0, 0, 0, 0, 0, 0])

  type Cache = seq<Entry>

  // ---- searching ----

  predicate Matches(e: Entry, ip: int) {
    e.valid && e.ip == ip
  }

  function Find(c: Cache, ip: int, i: nat): (r: int)
    requires i <= |c|
    ensures r == -1 || (i <= r < |c| && Matches(c[r], ip))
    ensures forall k :: i <= k < (if r < 0 then |c| else r) ==> !Matches(c[k], ip)
    decreases |c| - i
  {
    if i == |c| then -1 else if Matches(c[i], ip) then i else Find(c, ip, i + 1)
  }

  function FindInvalid(c: Cache, i: nat): (r: int)
    requires i <= |c|
    ensures r == -1 || (i <= r < |c| && !c[r].valid)
    ensures forall k :: i <= k < (if r < 0 then |c| else r) ==> c[k].valid
    decreases |c| - i
  {
    if i == |c| then -1 else if !c[i].valid then i else FindInvalid(c, i + 1)
  }

  /** `arp_lookup`. */
  function Lookup(c: Cache, ip: int): Option<Mac> {
    var i := Find(c, ip, 0);
    if i < 0 then None else Some(c[i].mac)
  }

  /** `arp_cache_update`: refresh, or take the first invalid slot, or slot 0. */
  function Update(c: Cache, ip: int, mac: Mac): (c1: Cache)
    requires 0 < |c|
    ensures |c1| == |c|
  {
    var i := Find(c, ip, 0);
    if i >= 0 then c[i := c[i].(mac := mac)]
    else
      var f := FindInvalid(c, 0);
      c[(if f < 0 then 0 else f) := Entry(true, ip, mac)]
  }

  // ---- the invariant ----

  /** Valid slots come first and hold distinct addresses. */
  ghost predicate CacheOk(c: Cache) {
    && |c| == CACHE_SIZE
    && (forall i, j :: 0 <= i < j < |c| && c[j].valid ==> c[i].valid)
    && (forall i, j :: 0 <= i < j < |c| && c[i].valid && c[j].valid ==> c[i].ip != c[j].ip)
  }

  predicate Full(c: Cache) {
    forall i :: 0 <= i < |c| ==> c[i].valid
  }

  lemma UpdateOk(c: Cache, ip: int, mac: Mac)
    requires CacheOk(c)
    ensures CacheOk(Update(c, ip, mac))
  {
  }

  lemma FindIs(c: Cache, i: int)
    requires CacheOk(c) && 0 <= i < |c| && c[i].valid
    ensures Find(c, c[i].ip, 0) == i
  {
  }

  /** The exact effect of learning an address: it is found with its new hardware address, and every
      other answer stays, except that the address in slot 0 is lost when a new one meets a full
      cache. */
  lemma LookupAfterUpdate(c: Cache, ip: int, mac: Mac, x: int)
    requires CacheOk(c)
    ensures Lookup(Update(c, ip, mac), x) ==
            if x == ip then Some(mac)
            else if Full(c) && Lookup(c, ip).None? && c[0].ip == x then None
            else Lookup(c, x)
  {
    var c1 := Update(c, ip, mac);
    UpdateOk(c, ip, mac);
    var at := if Find(c, ip, 0) >= 0 then Find(c, ip, 0) else if FindInvalid(c, 0) < 0 then 0 else FindInvalid(c, 0);
    assert c1[at].valid && c1[at].ip == ip && c1[at].mac == mac;
    FindIs(c1, at);
    if x != ip {
      var r := Find(c, x, 0);
      if r >= 0 && r != at {
        FindIs(c1, r);
      }
    }
  }

  /** Slots 1 to 7 keep their addresses once they have one. */
  lemma SlotKeepsAddress(c: Cache, ip: int, mac: Mac, i: int)
    requires CacheOk(c) && 1 <= i < |c| && c[i].valid
    ensures Update(c, ip, mac)[i].valid && Update(c, ip, mac)[i].ip == c[i].ip
  {
  }

  // ---- any history of learnt addresses ----

  datatype Learnt = Learnt(ip: int, mac: Mac)

  function EmptyCache(): Cache {
    seq(CACHE_SIZE, _ => EMPTY)
  }

  /** The cache after learning `log` in order. */
  function Learn(log: seq<Learnt>): (c: Cache)
    ensures |c| == CACHE_SIZE
  {
    if log == [] then EmptyCache() else Update(Learn(log[..|log| - 1]), log[|log| - 1].ip, log[|log| - 1].mac)
  }

  /** The hardware address most recently learnt for `ip`. */
  function LastLearnt(log: seq<Learnt>, ip: int): Option<Mac> {
    if log == [] then None
    else if log[|log| - 1].ip == ip then Some(log[|log| - 1].mac)
    else LastLearnt(log[..|log| - 1], ip)
  }

  lemma {:induction false} LearnOk(log: seq<Learnt>)
    ensures CacheOk(Learn(log))
  {
    if log != [] {
      LearnOk(log[..|log| - 1]);
      UpdateOk(Learn(log[..|log| - 1]), log[|log| - 1].ip, log[|log| - 1].mac);
    }
  }

  /** Whatever was received, a cached address has the hardware address that was learnt last for it. */
  lemma {:induction false} CacheAgreesWithHistory(log: seq<Learnt>, ip: int)
    ensures Lookup(Learn(log), ip).Some? ==> Lookup(Learn(log), ip) == LastLearnt(log, ip)
  {
    if log != [] {
      var n := |log| - 1;
      LearnOk(log[..n]);
      CacheAgreesWithHistory(log[..n], ip);
      LookupAfterUpdate(Learn(log[..n]), log[n].ip, log[n].mac, ip);
    } else {
      assert forall k :: 0 <= k < CACHE_SIZE ==> !EmptyCache()[k].valid;
    }
  }

  // ---- which addresses are cached ----

  /** The addresses of a history in the order in which they first came up. */
  function Firsts(log: seq<Learnt>): seq<int> {
    if log == [] then []
    else
      var before, ip := Firsts(log[..|log| - 1]), log[|log| - 1].ip;
      if ip in before then before else before + [ip]
  }

  /** The second to the eighth of them. */
  function Settled(firsts: seq<int>): seq<int> {
    if firsts == [] then [] else firsts[1..if |firsts| < 8 then |firsts| else 8]
  }

  /** The last address of a history that is not among `settled`. */
  function LastOutside(log: seq<Learnt>, settled: seq<int>): Option<int> {
    if log == [] then None
    else if log[|log| - 1].ip !in settled then Some(log[|log| - 1].ip)
    else LastOutside(log[..|log| - 1], settled)
  }

  /** Slots 1 to 7 hold the settled addresses, slot 0 the last one outside them. */
  ghost predicate HoldsHistory(c: Cache, log: seq<Learnt>) {
    var firsts := Firsts(log);
    && |c| == CACHE_SIZE
    && (forall i :: 0 <= i < |c| ==> (c[i].valid <==> i < |firsts|))
    && (forall i :: 1 <= i < |c| && i < |firsts| ==> c[i].ip == firsts[i])
    && (firsts != [] ==> LastOutside(log, Settled(firsts)) == Some(c[0].ip))
  }

  lemma {:induction false} OutsideIs(log: seq<Learnt>, settled: seq<int>)
    ensures var z := LastOutside(log, settled); z.Some? ==> z.value in Firsts(log) && z.value !in settled
  {
    if log != [] {
      OutsideIs(log[..|log| - 1], settled);
    }
  }

  lemma {:induction false} OutsideKeeps(log: seq<Learnt>, settled: seq<int>, ip: int)
    requires ip !in Firsts(log)
    ensures LastOutside(log, settled + [ip]) == LastOutside(log, settled)
  {
    if log != [] {
      OutsideKeeps(log[..|log| - 1], settled, ip);
    }
  }

  /** A settled address is found in its slot. */
  lemma SettledFound(c: Cache, log: seq<Learnt>, ip: int) returns (at: int)
    requires HoldsHistory(c, log) && CacheOk(c) && ip in Settled(Firsts(log))
    ensures 1 <= at < |c| && Find(c, ip, 0) == at
  {
    var settled := Settled(Firsts(log));
    var k :| 0 <= k < |settled| && settled[k] == ip;
    at := k + 1;
    FindIs(c, at);
  }

  /** Only the addresses matter. */
  lemma SameAddresses(c: Cache, c1: Cache, log: seq<Learnt>, all: seq<Learnt>)
    requires HoldsHistory(c, log) && |c1| == |c| && Firsts(all) == Firsts(log)
    requires forall i :: 0 <= i < |c| ==> c1[i].valid == c[i].valid && (i > 0 ==> c1[i].ip == c[i].ip)
    requires Firsts(log) != [] ==> LastOutside(all, Settled(Firsts(log))) == Some(c1[0].ip)
    ensures HoldsHistory(c1, all)
  {
  }

  /** An address that has come up before, and a new one. */
  lemma KnownStep(c: Cache, log: seq<Learnt>, x: Learnt)
    requires HoldsHistory(c, log) && CacheOk(c) && x.ip in Firsts(log)
    ensures HoldsHistory(Update(c, x.ip, x.mac), log + [x])
  {
    hide Settled, HoldsHistory, CacheOk;
    HistoryGives(c, log);
    var firsts, c1 := Firsts(log), Update(c, x.ip, x.mac);
    assert (log + [x])[..|log|] == log && Firsts(log + [x]) == firsts;
    if x.ip in Settled(firsts) {
      var at := SettledFound(c, log, x.ip);
    } else {
      SlotZero(c, log, x);
    }
    SameAddresses(c, c1, log, log + [x]);
  }

  lemma HistoryGives(c: Cache, log: seq<Learnt>)
    requires HoldsHistory(c, log)
    ensures |c| == CACHE_SIZE && (c[0].valid <==> Firsts(log) != [])
    ensures Firsts(log) != [] ==> LastOutside(log, Settled(Firsts(log))) == Some(c[0].ip)
  {
  }

  /** An address outside the settled ones goes to slot 0 once slot 0 is taken. */
  lemma SlotZero(c: Cache, log: seq<Learnt>, x: Learnt)
    requires HoldsHistory(c, log) && CacheOk(c) && x.ip !in Settled(Firsts(log))
    requires x.ip in Firsts(log) || |Firsts(log)| >= CACHE_SIZE
    ensures var c1 := Update(c, x.ip, x.mac);
            c1[0].valid && c1[0].ip == x.ip && forall i :: 1 <= i < |c| ==> c1[i] == c[i]
  {
    var firsts := Firsts(log);
    OutsideIs(log, Settled(firsts));
    forall i | 1 <= i < |c| && i < |firsts| ensures c[i].ip != x.ip {
      assert Settled(firsts)[i - 1] == firsts[i];
    }
    if |firsts| < CACHE_SIZE {
      OnlyFirstOutside(firsts, x.ip);
      OnlyFirstOutside(firsts, c[0].ip);
      FindIs(c, 0);
    }
  }

  lemma OnlyFirstOutside(firsts: seq<int>, z: int)
    requires |firsts| < CACHE_SIZE && z in firsts && z !in Settled(firsts)
    ensures z == firsts[0]
  {
    assert forall i :: 1 <= i < |firsts| ==> Settled(firsts)[i - 1] == firsts[i];
  }

  lemma NewStep(c: Cache, log: seq<Learnt>, x: Learnt)
    requires HoldsHistory(c, log) && CacheOk(c) && x.ip !in Firsts(log)
    ensures HoldsHistory(Update(c, x.ip, x.mac), log + [x])
  {
    hide HoldsHistory, CacheOk, Update;
    HistoryGives(c, log);
    if |Firsts(log)| >= CACHE_SIZE {
      NewOnFull(c, log, x);
    } else {
      NewSlot(c, log, x);
      NewInSlot(c, log, x);
    }
  }

  lemma NewOnFull(c: Cache, log: seq<Learnt>, x: Learnt)
    requires HoldsHistory(c, log) && CacheOk(c) && x.ip !in Firsts(log) && |Firsts(log)| >= CACHE_SIZE
    ensures HoldsHistory(Update(c, x.ip, x.mac), log + [x])
  {
    hide Update, CacheOk, LastOutside;
    var firsts := Firsts(log);
    assert (log + [x])[..|log|] == log && Firsts(log + [x]) == firsts + [x.ip];
    assert Settled(firsts + [x.ip]) == Settled(firsts);
    SettledAreFirsts(firsts, x.ip);
    SlotZero(c, log, x);
    OutsideSnoc(log, x, Settled(firsts));
  }

  lemma NewInSlot(c: Cache, log: seq<Learnt>, x: Learnt)
    requires HoldsHistory(c, log) && x.ip !in Firsts(log) && |Firsts(log)| < CACHE_SIZE
    ensures HoldsHistory(c[|Firsts(log)| := Entry(true, x.ip, x.mac)], log + [x])
  {
    hide LastOutside;
    var firsts := Firsts(log);
    assert (log + [x])[..|log|] == log && Firsts(log + [x]) == firsts + [x.ip];
    OutsideSnoc(log, x, Settled(firsts + [x.ip]));
    if firsts != [] {
      assert Settled(firsts + [x.ip]) == Settled(firsts) + [x.ip];
      OutsideKeeps(log, Settled(firsts), x.ip);
    } else {
      assert Settled(firsts + [x.ip]) == [];
    }
  }

  lemma OutsideSnoc(log: seq<Learnt>, x: Learnt, settled: seq<int>)
    ensures LastOutside(log + [x], settled) == if x.ip !in settled then Some(x.ip) else LastOutside(log, settled)
  {
    assert (log + [x])[..|log|] == log;
  }

  lemma SettledAreFirsts(firsts: seq<int>, ip: int)
    ensures ip in Settled(firsts) ==> ip in firsts
  {
  }

  lemma NewSlot(c: Cache, log: seq<Learnt>, x: Learnt)
    requires HoldsHistory(c, log) && CacheOk(c) && x.ip !in Firsts(log) && |Firsts(log)| < CACHE_SIZE
    ensures Update(c, x.ip, x.mac) == c[|Firsts(log)| := Entry(true, x.ip, x.mac)]
  {
    var firsts := Firsts(log);
    OutsideIs(log, Settled(firsts));
    forall i | 0 <= i < |c| && c[i].valid ensures c[i].ip in firsts {
    }
    assert !c[|firsts|].valid;
  }

  lemma {:induction false} LearnHolds(log: seq<Learnt>)
    ensures HoldsHistory(Learn(log), log)
  {
    hide Update, CacheOk, HoldsHistory;
    if log == [] {
      EmptyHolds();
    } else {
      var n := |log| - 1;
      LearnOk(log[..n]);
      LearnHolds(log[..n]);
      assert log[..n] + [log[n]] == log;
      if log[n].ip in Firsts(log[..n]) {
        KnownStep(Learn(log[..n]), log[..n], log[n]);
      } else {
        NewStep(Learn(log[..n]), log[..n], log[n]);
      }
    }
  }

  lemma EmptyHolds()
    ensures HoldsHistory(EmptyCache(), [])
  {
  }

  /** What the cache answers after any history, exactly: the hardware address learnt last, for the second
      to the eighth distinct address and for the last address outside them; nothing for any other. */
  lemma LookupAfterHistory(log: seq<Learnt>, ip: int)
    ensures var settled := Settled(Firsts(log));
            Lookup(Learn(log), ip) ==
            if ip in settled || LastOutside(log, settled) == Some(ip) then LastLearnt(log, ip) else None
  {
    hide Learn;
    var c, firsts := Learn(log), Firsts(log);
    LearnOk(log);
    LearnHolds(log);
    CacheAgreesWithHistory(log, ip);
    var settled := Settled(firsts);
    if ip in settled {
      var k :| 0 <= k < |settled| && settled[k] == ip;
      FindIs(c, k + 1);
    } else if LastOutside(log, settled) == Some(ip) {
      OutsideIs(log, settled);
      FindIs(c, 0);
    } else {
      forall i | 1 <= i < |c| && i < |firsts| ensures c[i].ip != ip {
        assert settled[i - 1] == firsts[i];
      }
    }
  }

  /** Once slots 1 to 7 are taken, they keep their addresses over every further history. */
  lemma {:induction false} SlotsStayForever(log: seq<Learnt>, more: seq<Learnt>, i: int)
    requires 1 <= i < CACHE_SIZE && Learn(log)[i].valid
    ensures Learn(log + more)[i].valid && Learn(log + more)[i].ip == Learn(log)[i].ip
    decreases |more|
  {
    hide Update, CacheOk;
    if more == [] {
      assert log + more == log;
    } else {
      var n := |more| - 1;
      var all := log + more;
      assert all[..|all| - 1] == log + more[..n];
      SlotsStayForever(log, more[..n], i);
      LearnOk(log + more[..n]);
      SlotKeepsAddress(Learn(log + more[..n]), more[n].ip, more[n].mac, i);
    }
  }

  // ---- packets ----

  datatype Reply = Reply(mac: Mac, ip: Address)

  /** What `arp_receive` does with a frame: nothing, or learn the sender and perhaps owe a reply. */
  datatype Effect = Ignored | Learns(entry: Learnt, reply: Option<Reply>)

  function Receive(frame: seq<Byte>): Effect {
    if |frame| < ETHERNET_HEADER_SIZE + PACKET_SIZE then Ignored
    else
      var p := frame[ETHERNET_HEADER_SIZE..];
      if Be16(p[0], p[1]) != 1 || Be16(p[2], p[3]) != ETHERTYPE || p[4] != 6 || p[5] != 4 then Ignored
      else
        var sender := ReadAddress(p[14], p[15], p[16], p[17]);
        var target := ReadAddress(p[24], p[25], p[26], p[27]);
        var mac := p[8..14];
        Learns(Learnt(sender, mac),
               if Be16(p[6], p[7]) == OPERATION_REQUEST && target == LOCAL_ADDRESS
               then Some(Reply(mac, sender)) else None)
  }

  /** `arp_build_packet`. */
  function BuildPacket(operation: Half, mac: Mac, ip: Address): (p: seq<Byte>)
    ensures |p| == PACKET_SIZE
  {
    [0, 1, 8, 0, 6, 4, Hi(operation), Lo(operation)] + LOCAL_MAC + AddressBytes(LOCAL_ADDRESS) + mac + AddressBytes(ip)
  }

  /** The packet of RFC 826 for Ethernet and IPv4, from any sender to any target. */
  function AnyPacket(operation: Half, smac: Mac, sip: Address, tmac: Mac, tip: Address): (p: seq<Byte>)
    ensures |p| == 28
  {
    [0, 1, 8, 0, 6, 4, Hi(operation), Lo(operation)] + smac + AddressBytes(sip) + tmac + AddressBytes(tip)
  }

  lemma PacketParts(operation: Half, smac: Mac, sip: Address, tmac: Mac, tip: Address)
    ensures var p := AnyPacket(operation, smac, sip, tmac, tip);
            && p[..6] == [0, 1, 8, 0, 6, 4] && p[6..8] == [Hi(operation), Lo(operation)] && p[8..14] == smac
            && p[14..18] == AddressBytes(sip) && p[18..24] == tmac && p[24..28] == AddressBytes(tip)
  {
    hide AddressBytes, Hi, Lo;
  }

  /** A packet from anybody, in a frame with anything before and after it, teaches the pair of its sender; a
      reply is owed to that sender exactly when it is a request for 10.0.2.15. */
  lemma AnyPacketTeaches(header: seq<Byte>, operation: Half, smac: Mac, sip: Address, tmac: Mac, tip: Address,
                         padding: seq<Byte>)
    requires |header| == 14
    ensures Receive(header + AnyPacket(operation, smac, sip, tmac, tip) + padding) ==
            Learns(Learnt(sip, smac), if operation == 1 && tip == 0x0a00020f then Some(Reply(smac, sip)) else None)
  {
    hide AnyPacket, AddressBytes, ReadAddress, Hi, Lo, Be16;
    var p := AnyPacket(operation, smac, sip, tmac, tip);
    var frame := header + p + padding;
    var q := frame[ETHERNET_HEADER_SIZE..];
    PacketParts(operation, smac, sip, tmac, tip);
    assert q[..28] == p;
    TypeFields(q);
    assert q[6] == p[6..8][0] && q[7] == p[6..8][1];
    assert q[8..14] == p[8..14];
    assert [q[14], q[15], q[16], q[17]] == p[14..18] && [q[24], q[25], q[26], q[27]] == p[24..28];
    HalfRoundTrip(operation);
    AddressRoundTrip(sip);
    AddressRoundTrip(tip);
  }

  lemma TypeFields(q: seq<Byte>)
    requires |q| >= 28 && q[..28][..6] == [0, 1, 8, 0, 6, 4]
    ensures Be16(q[0], q[1]) == 1 && Be16(q[2], q[3]) == ETHERTYPE && q[4] == 6 && q[5] == 4
  {
    var t := q[..28][..6];
    assert t[0] == q[0] && t[1] == q[1] && t[2] == q[2] && t[3] == q[3] && t[4] == q[4] && t[5] == q[5];
  }

  /** Anything shorter, or for other hardware or another protocol, is ignored, and nothing else is. */
  lemma IgnoredIff(frame: seq<Byte>)
    ensures Receive(frame) == Ignored <==> |frame| < 42 || frame[14..20] != [0, 1, 8, 0, 6, 4]
  {
    if |frame| >= 42 {
      var f := frame[14..20];
      assert f == [frame[14], frame[15], frame[16], frame[17], frame[18], frame[19]];
    }
  }

  /** A request or reply built by one host and received by another, in any padded frame, teaches the
      receiver exactly the sender's pair of addresses. */
  lemma BuiltPacketTeaches(dst: Mac, operation: Half, mac: Mac, ip: Address)
    ensures Receive(EthernetFrame(dst, ARP_ETHERTYPE, BuildPacket(operation, mac, ip))) ==
            Learns(Learnt(0x0a00020f, [0x52, 0x54, 0, 0x12, 0x34, 0x56]),
                   if operation == 1 && ip == 0x0a00020f
                   then Some(Reply([0x52, 0x54, 0, 0x12, 0x34, 0x56], 0x0a00020f)) else None)
  {
    hide EthernetFrame, Receive, AnyPacket, BuildPacket;
    var p := BuildPacket(operation, mac, ip);
    var frame := EthernetFrame(dst, ARP_ETHERTYPE, p);
    assert p == AnyPacket(operation, LOCAL_MAC, LOCAL_ADDRESS, mac, ip) by { BuiltIsAny(operation, mac, ip); }
    assert frame == frame[..14] + frame[14..14 + |p|] + frame[14 + |p|..];
    AnyPacketTeaches(frame[..14], operation, LOCAL_MAC, LOCAL_ADDRESS, mac, ip, frame[14 + |p|..]);
  }

  lemma BuiltIsAny(operation: Half, mac: Mac, ip: Address)
    ensures BuildPacket(operation, mac, ip) == AnyPacket(operation, LOCAL_MAC, LOCAL_ADDRESS, mac, ip)
  {
  }

  // ---- the cache as it runs ----

  class Resolver {
    const cache: array<Entry>
    var pending: Option<Reply>

    predicate Valid()
      reads this
    {
      cache.Length == CACHE_SIZE
    }

    /** `arp_init`. */
    constructor ()
      ensures Valid() && cache[..] == EmptyCache() && pending == None && fresh(cache)
    {
      cache := new Entry[CACHE_SIZE](_ => EMPTY);
      pending := None;
      new;
      assert cache[..] == EmptyCache();
    }

    /** `arp_cache_update`. */
    method CacheUpdate(ip: int, mac: Mac)
      requires Valid()
      modifies cache
      ensures cache[..] == Update(old(cache[..]), ip, mac)
    {
      var freeIndex := -1;
      for i := 0 to cache.Length
        invariant cache[..] == old(cache[..])
        invariant Find(cache[..], ip, 0) == Find(cache[..], ip, i)
        invariant if freeIndex < 0 then freeIndex == -1 && FindInvalid(cache[..], 0) == FindInvalid(cache[..], i)
                  else FindInvalid(cache[..], 0) == freeIndex
      {
        if cache[i].valid && cache[i].ip == ip {
          cache[i] := cache[i].(mac := mac);
          assert cache[..] == old(cache[..])[i := cache[i]];
          return;
        }
        if !cache[i].valid && freeIndex < 0 {
          freeIndex := i;
        }
      }
      if freeIndex < 0 {
        freeIndex := 0;
      }
      cache[freeIndex] := Entry(true, ip, mac);
      assert cache[..] == old(cache[..])[freeIndex := Entry(true, ip, mac)];
    }

    /** `arp_lookup`. */
    method LookupMac(ip: int) returns (r: Option<Mac>)
      requires Valid()
      ensures r == Lookup(cache[..], ip)
    {
      for i := 0 to cache.Length
        invariant Find(cache[..], ip, 0) == Find(cache[..], ip, i)
      {
        if cache[i].valid && cache[i].ip == ip {
          return Some(cache[i].mac);
        }
      }
      return None;
    }

    /** `arp_receive`. */
    method ReceiveFrame(frame: seq<Byte>)
      requires Valid()
      modifies this`pending, cache
      ensures match Receive(frame)
              case Ignored => cache[..] == old(cache[..]) && pending == old(pending)
              case Learns(l, reply) =>
                && cache[..] == Update(old(cache[..]), l.ip, l.mac)
                && pending == if reply.Some? then reply else old(pending)
    {
      if |frame| < ETHERNET_HEADER_SIZE + PACKET_SIZE {
        return;
      }
      var p := frame[ETHERNET_HEADER_SIZE..];
      if Be16(p[0], p[1]) != 1 || Be16(p[2], p[3]) != ETHERTYPE || p[4] != 6 || p[5] != 4 {
        return;
      }
      var sender := ReadAddress(p[14], p[15], p[16], p[17]);
      var target := ReadAddress(p[24], p[25], p[26], p[27]);
      var mac: Mac := p[8..14];
      CacheUpdate(sender, mac);
      if Be16(p[6], p[7]) == OPERATION_REQUEST && target == LOCAL_ADDRESS {
        pending := Some(Reply(mac, sender));
      }
    }

    /** `arp_poll`: a reply that is owed is sent to the host that asked, and owed no longer. */
    method Poll() returns (frame: Option<seq<Byte>>)
      modifies this`pending
      ensures pending == None
      ensures match old(pending)
              case None => frame == None
              case Some(r) => frame == Some(EthernetFrame(r.mac, ARP_ETHERTYPE, BuildPacket(2, r.mac, r.ip)))
    {
      if pending.None? {
        return None;
      }
      var target := pending.value;
      pending := None;
      var reply := BuildPacket(2, target.mac, target.ip);
      frame := SendEthernet(true, Some(target.mac), ARP_ETHERTYPE, Some(reply), |reply|);
      assert reply[..|reply|] == reply;
    }

    /** `arp_request`: the frame that asks everybody for `ip`. */
    method Request(ip: Address) returns (frame: Option<seq<Byte>>)
      ensures frame == Some(EthernetFrame(BROADCAST_MAC, ARP_ETHERTYPE,
                                          BuildPacket(OPERATION_REQUEST, UNKNOWN_MAC, ip)))
    {
      var request := BuildPacket(OPERATION_REQUEST, UNKNOWN_MAC, ip);
      frame := SendEthernet(true, Some(BROADCAST_MAC), ARP_ETHERTYPE, Some(request), |request|);
      assert request[..|request|] == request;
    }

    /** `ipv4_send`; `payload` may be absent. Gives the return code and the frame handed to the driver:
        the packet, which the driver never refuses for its length, or an ARP request when the address
        is not known. */
    method SendIpv4(stack: Stack, dst: Address, protocol: Byte, payload: Option<seq<Byte>>, len: Half)
        returns (code: int, frame: Option<seq<Byte>>)
      requires Valid() && (payload.Some? ==> |payload.value| == len)
      modifies stack`stats, stack`nextId
      ensures var refused := (payload.None? && len > 0) || len > MAX_PACKET_SIZE - HEADER_SIZE;
              var bytes := if payload.None? then [] else payload.value;
              var mac := if dst == BROADCAST_ADDRESS then Some(BROADCAST_MAC) else Lookup(cache[..], dst);
              && (refused ==> code == -1 && frame.None?)
              && (!refused && mac.None? ==>
                    && code == -2
                    && frame == Some(EthernetFrame(BROADCAST_MAC, ARP_ETHERTYPE,
                                                   BuildPacket(OPERATION_REQUEST, UNKNOWN_MAC, dst))))
              && (!refused && mac.Some? ==>
                    && code == len
                    && frame == Some(EthernetFrame(mac.value, ETHERTYPE,
                                                   Packet(dst, protocol, bytes, old(stack.nextId)))))
              && stack.nextId == (if !refused && mac.Some? then (old(stack.nextId) + 1) % 0x1_0000
                                  else old(stack.nextId))
              && stack.stats == if code >= 0 then old(stack.stats).(txPackets := Bump(old(stack.stats).txPackets))
                                else old(stack.stats).(txDropped := Bump(old(stack.stats).txDropped))
    {
      hide Packet, EthernetFrame, BuildPacket;
      if (payload.None? && len > 0) || len > MAX_PACKET_SIZE - HEADER_SIZE {
        stack.stats := stack.stats.(txDropped := Bump(stack.stats.txDropped));
        return -1, None;
      }
      var mac: Mac := BROADCAST_MAC;
      if dst != BROADCAST_ADDRESS {
        var known := LookupMac(dst);
        if known.None? {
          frame := Request(dst);
          stack.stats := stack.stats.(txDropped := Bump(stack.stats.txDropped));
          return -2, frame;
        }
        mac := known.value;
      }
      var packet := stack.Build(dst, protocol, if payload.None? then [] else payload.value);
      frame := SendEthernet(true, Some(mac), ETHERTYPE, Some(packet), |packet|);
      assert packet[..|packet|] == packet;
      stack.stats := stack.stats.(txPackets := Bump(stack.stats.txPackets));
      return len, frame;
    }
  }
}
