/** bpf/latch.c: the two packet programs, the connection table between them, and the lookup the
    proxy makes in that table (internal/origdst). Numbers are in host order, packets in network
    order. The kernel may drop any table entry at any time. */
module Latch {
  import opened Bytes
  import opened Checksum
  import opened Text

  const ETH_HLEN := 14
  const INTERCEPT_PORT := 80
  const INTERCEPT_PORT_TLS := 443
  const IPPROTO_TCP := 6

  // offsets of header fields in a frame with an untagged Ethernet header
  const IP_TOTLEN := 16
  const IP_PROTO := 23
  const IP_CHECK := 24
  const IP_SADDR := 26
  const IP_DADDR := 30

  type Packet = seq<Byte>

  datatype Endpoint = Endpoint(ip: nat, port: nat)
  type Table = map<Endpoint, Endpoint>   // source of a connection -> original destination

  predicate InRange(e: Endpoint) {
    e.ip < 0x1_0000_0000 && e.port < 0x1_0000
  }

  /** `ip_hdrlen`: the header length in bytes, 0 if it is not in 20..60. */
  function IpHeaderLen(p: Packet): (n: nat)
    requires |p| >= ETH_HLEN + 20
    ensures n == 0 || 20 <= n <= 60
    ensures n % 4 == 0
  {
    var len := (p[ETH_HLEN] % 16) * 4;
    if len < 20 then 0 else len
  }

  function Tcp(p: Packet): nat
    requires |p| >= ETH_HLEN + 20
  {
    ETH_HLEN + IpHeaderLen(p)
  }

  /** The bounds and header checks both programs begin with. */
  predicate IsTcp(p: Packet) {
    && |p| >= ETH_HLEN + 20
    && Read16(p, 12) == 0x0800
    && p[IP_PROTO] == IPPROTO_TCP
    && IpHeaderLen(p) != 0
    && Tcp(p) + 20 <= |p|
  }

  function Source(p: Packet): (e: Endpoint)
    requires IsTcp(p)
    ensures InRange(e)
  {
    Endpoint(Read32(p, IP_SADDR), Read16(p, Tcp(p)))
  }

  function Destination(p: Packet): (e: Endpoint)
    requires IsTcp(p)
    ensures InRange(e)
  {
    Endpoint(Read32(p, IP_DADDR), Read16(p, Tcp(p) + 2))
  }

  /** The two rewrites there are: source address with source port, destination with destination. */
  predicate Paired(p: Packet, addrOff: nat, portOff: nat)
    requires IsTcp(p)
  {
    (addrOff == IP_SADDR && portOff == Tcp(p)) || (addrOff == IP_DADDR && portOff == Tcp(p) + 2)
  }

  /** The stores of one rewrite: IP checksum, TCP checksum twice, address, port. */
  function Writes(p: Packet, c1: nat, c2: nat, c3: nat, addrOff: nat, portOff: nat, to: Endpoint): (r: Packet)
    requires IsTcp(p) && InRange(to) && Paired(p, addrOff, portOff)
    requires c1 <= ALL_ONES && c2 <= ALL_ONES && c3 <= ALL_ONES
    ensures |r| == |p|
  {
    var p3 := Write16(Write16(Write16(p, IP_CHECK, c1), Tcp(p) + 16, c2), Tcp(p) + 16, c3);
    Write16(Write32(p3, addrOff, to.ip), portOff, to.port)
  }

  /** Both checksums updated for a changed address, the TCP checksum also for a changed port. */
  function WithChecksums(p: Packet, oldIp: nat, oldPort: nat, to: Endpoint): (r: Packet)
    requires IsTcp(p) && InRange(to) && oldIp < 0x1_0000_0000 && oldPort <= ALL_ONES
    ensures |r| == |p|
  {
    var csum := Tcp(p) + 16;
    var p1 := Write16(p, IP_CHECK, Replace32(Read16(p, IP_CHECK), oldIp, to.ip));
    var p2 := Write16(p1, csum, Replace32(Read16(p1, csum), oldIp, to.ip));
    Write16(p2, csum, Replace16(Read16(p2, csum), oldPort, to.port))
  }

  /** Rewrite one endpoint: both checksums first, then address and port. */
  function Rewrite(p: Packet, addrOff: nat, portOff: nat, to: Endpoint): (r: Packet)
    requires IsTcp(p) && InRange(to)
    requires Paired(p, addrOff, portOff)
    ensures |r| == |p|
  {
    var q := WithChecksums(p, Read32(p, addrOff), Read16(p, portOff), to);
    Write16(Write32(q, addrOff, to.ip), portOff, to.port)
  }

  /** `tgt.ip == 0` means that no proxy is configured. */
  predicate Intercepted(p: Packet, tgt: Endpoint) {
    IsTcp(p) && Destination(p).port in {INTERCEPT_PORT, INTERCEPT_PORT_TLS} && tgt.ip != 0
  }

  function Ingress(p: Packet, tgt: Endpoint): Packet
    requires InRange(tgt)
  {
    if Intercepted(p, tgt) then Rewrite(p, IP_DADDR, Tcp(p) + 2, tgt) else p
  }

  function Record(table: Table, p: Packet, tgt: Endpoint): Table {
    if Intercepted(p, tgt) then table[Source(p) := Destination(p)] else table
  }

  predicate TableInRange(table: Table) {
    forall k :: k in table ==> InRange(table[k])
  }

  function Egress(p: Packet, table: Table): Packet
    requires TableInRange(table)
  {
    if IsTcp(p) && Destination(p) in table
    then Rewrite(p, IP_SADDR, Tcp(p), table[Destination(p)]) else p
  }

  /** `origdst.Lookup`. */
  function ProxyLookup(table: Table, peer: Endpoint): Option<Endpoint> {
    if peer in table then Some(table[peer]) else None
  }

  // ----- what a rewrite changes ------------------------------------------------------------------------

  predicate Rewritten(j: int, addrOff: nat, portOff: nat, csum: nat) {
    IP_CHECK <= j < IP_CHECK + 2 || addrOff <= j < addrOff + 4 || portOff <= j < portOff + 2 || csum <= j < csum + 2
  }

  lemma {:induction false} RewriteIsWrites(p: Packet, addrOff: nat, portOff: nat, to: Endpoint)
    requires IsTcp(p) && InRange(to) && Paired(p, addrOff, portOff)
    ensures var c2 := Replace32(Read16(p, Tcp(p) + 16), Read32(p, addrOff), to.ip);
            Rewrite(p, addrOff, portOff, to) ==
            Writes(p, Replace32(Read16(p, IP_CHECK), Read32(p, addrOff), to.ip), c2,
                   Replace16(c2, Read16(p, portOff), to.port), addrOff, portOff, to)
  {
    var csum := Tcp(p) + 16;
    var p1 := Write16(p, IP_CHECK, Replace32(Read16(p, IP_CHECK), Read32(p, addrOff), to.ip));
    assert Read16(p1, csum) == Read16(p, csum);
  }

  lemma {:induction false} WritesShape(p: Packet, c1: nat, c2: nat, c3: nat, addrOff: nat, portOff: nat, to: Endpoint)
    requires IsTcp(p) && InRange(to) && Paired(p, addrOff, portOff)
    requires c1 <= ALL_ONES && c2 <= ALL_ONES && c3 <= ALL_ONES
    ensures var r := Writes(p, c1, c2, c3, addrOff, portOff, to);
            && IsTcp(r) && Tcp(r) == Tcp(p) && Read16(r, IP_TOTLEN) == Read16(p, IP_TOTLEN)
            && Read32(r, addrOff) == to.ip && Read16(r, portOff) == to.port
  {
    var r := Writes(p, c1, c2, c3, addrOff, portOff, to);
    assert r[ETH_HLEN] == p[ETH_HLEN] && r[IP_PROTO] == p[IP_PROTO] && r[12] == p[12] && r[13] == p[13];
    assert Read32(r, addrOff) == to.ip;
  }

  /** Every byte outside the two checksums and the rewritten address and port stays. */
  lemma {:induction false} WritesFrame(p: Packet, c1: nat, c2: nat, c3: nat, addrOff: nat, portOff: nat, to: Endpoint)
    requires IsTcp(p) && InRange(to) && Paired(p, addrOff, portOff)
    requires c1 <= ALL_ONES && c2 <= ALL_ONES && c3 <= ALL_ONES
    ensures forall j :: 0 <= j < |p| && !Rewritten(j, addrOff, portOff, Tcp(p) + 16) ==>
              Writes(p, c1, c2, c3, addrOff, portOff, to)[j] == p[j]
  {}

  /** The new endpoint is read back, the other endpoint and every byte outside the two checksums
      and the rewritten address and port stay, and the frame is still the same kind of frame. */
  predicate EndpointChanged(r: Packet, p: Packet, addrOff: nat, portOff: nat, to: Endpoint)
    requires IsTcp(p) && Paired(p, addrOff, portOff)
  {
    && |r| == |p| && IsTcp(r) && Tcp(r) == Tcp(p) && Read16(r, IP_TOTLEN) == Read16(p, IP_TOTLEN)
    && (addrOff == IP_SADDR ==> Source(r) == to && Destination(r) == Destination(p))
    && (addrOff == IP_DADDR ==> Destination(r) == to && Source(r) == Source(p))
    && forall j :: 0 <= j < |p| && !Rewritten(j, addrOff, portOff, Tcp(p) + 16) ==> r[j] == p[j]
  }

  lemma {:induction false} WritesEffect(r: Packet, p: Packet, c1: nat, c2: nat, c3: nat, addrOff: nat, portOff: nat, to: Endpoint)
    requires IsTcp(p) && InRange(to) && Paired(p, addrOff, portOff)
    requires c1 <= ALL_ONES && c2 <= ALL_ONES && c3 <= ALL_ONES
    requires r == Writes(p, c1, c2, c3, addrOff, portOff, to)
    ensures EndpointChanged(r, p, addrOff, portOff, to)
  {
    WritesShape(p, c1, c2, c3, addrOff, portOff, to);
    WritesFrame(p, c1, c2, c3, addrOff, portOff, to);
    OtherEndpoint(r, p, addrOff, portOff);
  }

  lemma {:induction false} OtherEndpoint(r: Packet, p: Packet, addrOff: nat, portOff: nat)
    requires IsTcp(p) && IsTcp(r) && |r| == |p| && Tcp(r) == Tcp(p) && Paired(p, addrOff, portOff)
    requires forall j :: 0 <= j < |p| && !Rewritten(j, addrOff, portOff, Tcp(p) + 16) ==> r[j] == p[j]
    ensures addrOff == IP_SADDR ==> Destination(r) == Destination(p)
    ensures addrOff == IP_DADDR ==> Source(r) == Source(p)
  {}

  lemma {:induction false} RewriteEffect(p: Packet, addrOff: nat, portOff: nat, to: Endpoint)
    requires IsTcp(p) && InRange(to) && Paired(p, addrOff, portOff)
    ensures EndpointChanged(Rewrite(p, addrOff, portOff, to), p, addrOff, portOff, to)
  {
    RewriteIsWrites(p, addrOff, portOff, to);
    var c2 := Replace32(Read16(p, Tcp(p) + 16), Read32(p, addrOff), to.ip);
    WritesEffect(Rewrite(p, addrOff, portOff, to), p, Replace32(Read16(p, IP_CHECK), Read32(p, addrOff), to.ip), c2,
                 Replace16(c2, Read16(p, portOff), to.port), addrOff, portOff, to);
  }

  // ----- frames, byte by byte ----------------------------------------------------------------------------

  /** The frame has this address and this port at these offsets. */
  predicate EndpointAt(p: Packet, addr: nat, port: nat, e: Endpoint)
    requires addr + 4 <= |p| && port + 2 <= |p|
  {
    && e.ip == 16_777_216 * (p[addr] as int) + 65_536 * (p[addr + 1] as int) + 256 * (p[addr + 2] as int) + (p[addr + 3] as int)
    && e.port == 256 * (p[port] as int) + (p[port + 1] as int)
  }

  /** Ethernet with IPv4, the protocol TCP, an IP header of 20 to 60 bytes with a whole TCP header behind
      it, from `src` to `dst`. */
  predicate TcpFrame(p: Packet, src: Endpoint, dst: Endpoint) {
    && |p| >= 34 && p[12] == 0x08 && p[13] == 0x00 && p[23] == 6
    && var ihl := 4 * (p[14] % 16);
    && 20 <= ihl <= 60 && 14 + ihl + 20 <= |p|
    && EndpointAt(p, 26, 14 + ihl, src) && EndpointAt(p, 30, 14 + ihl + 2, dst)
  }

  /** A frame that belongs to the proxy: to a web port, with a proxy configured. */
  predicate ToWeb(p: Packet, src: Endpoint, dst: Endpoint, tgt: Endpoint) {
    TcpFrame(p, src, dst) && (dst.port == 80 || dst.port == 443) && tgt.ip != 0
  }

  lemma {:induction false} FrameIff(p: Packet, src: Endpoint, dst: Endpoint)
    ensures TcpFrame(p, src, dst) <==> IsTcp(p) && src == Source(p) && dst == Destination(p)
  {}

  lemma {:induction false} InterceptedIff(p: Packet, tgt: Endpoint)
    ensures Intercepted(p, tgt) <==> exists src, dst :: ToWeb(p, src, dst, tgt)
    ensures forall src, dst :: ToWeb(p, src, dst, tgt) ==> IsTcp(p) && src == Source(p) && dst == Destination(p)
  {
    forall src, dst ensures TcpFrame(p, src, dst) <==> IsTcp(p) && src == Source(p) && dst == Destination(p) {
      FrameIff(p, src, dst);
    }
    if Intercepted(p, tgt) {
      assert ToWeb(p, Source(p), Destination(p), tgt);
    }
  }

  /** Apart from the two checksums, the address at `addr` and the port at `port`, nothing has changed. */
  predicate SameElsewhere(p: Packet, p': Packet, addr: nat, port: nat)
    requires |p| > 14
  {
    && |p'| == |p|
    && var tcp := 14 + 4 * (p[14] % 16);
    forall j :: 0 <= j < |p| && !(24 <= j < 26 || tcp + 16 <= j < tcp + 18 || addr <= j < addr + 4 || tcp + port <= j < tcp + port + 2) ==>
      p'[j] == p[j]
  }

  /** What happens to an arriving frame: towards a web port it goes to the proxy, and its destination is
      kept under its source; any other is left alone. */
  ghost predicate Redirected(p: Packet, p': Packet, table: Table, table': Table, tgt: Endpoint) {
    && (forall src, dst :: ToWeb(p, src, dst, tgt) ==>
          TcpFrame(p', src, tgt) && SameElsewhere(p, p', 30, 2) && table' == table[src := dst])
    && ((forall src, dst :: !ToWeb(p, src, dst, tgt)) ==> p' == p && table' == table)
  }

  /** What happens to a leaving frame: towards a source in the table it comes from the destination kept
      there; any other is left alone. */
  ghost predicate Restored(p: Packet, p': Packet, table: Table) {
    && (forall src, dst :: TcpFrame(p, src, dst) && dst in table ==>
          TcpFrame(p', table[dst], dst) && SameElsewhere(p, p', 26, 0))
    && ((forall src, dst :: !(TcpFrame(p, src, dst) && dst in table)) ==> p' == p)
  }

  lemma {:induction false} IngressMeans(p: Packet, table: Table, tgt: Endpoint)
    requires InRange(tgt)
    ensures Redirected(p, Ingress(p, tgt), table, Record(table, p, tgt), tgt)
  {
    InterceptedIff(p, tgt);
    if Intercepted(p, tgt) {
      RewriteEffect(p, IP_DADDR, Tcp(p) + 2, tgt);
      FrameIff(Ingress(p, tgt), Source(p), tgt);
      ChangedElsewhere(p, Ingress(p, tgt), IP_DADDR, Tcp(p) + 2, tgt);
    }
  }

  lemma {:induction false} ChangedElsewhere(p: Packet, r: Packet, addrOff: nat, portOff: nat, to: Endpoint)
    requires IsTcp(p) && Paired(p, addrOff, portOff) && EndpointChanged(r, p, addrOff, portOff, to)
    ensures SameElsewhere(p, r, addrOff, portOff - Tcp(p))
  {}

  lemma {:induction false} EgressMeans(p: Packet, table: Table)
    requires TableInRange(table)
    ensures Restored(p, Egress(p, table), table)
  {
    forall src, dst ensures TcpFrame(p, src, dst) <==> IsTcp(p) && src == Source(p) && dst == Destination(p) {
      FrameIff(p, src, dst);
    }
    if IsTcp(p) && Destination(p) in table {
      var to := table[Destination(p)];
      RewriteEffect(p, IP_SADDR, Tcp(p), to);
      FrameIff(Egress(p, table), to, Destination(p));
      ChangedElsewhere(p, Egress(p, table), IP_SADDR, Tcp(p), to);
      assert TcpFrame(p, Source(p), Destination(p));
    }
  }

  // ----- checksum validity --------------------------------------------------------------------------------

  /** The segment the IP header announces lies within the frame and holds a TCP header. */
  predicate WellSized(p: Packet) {
    IsTcp(p) && IpHeaderLen(p) + 20 <= Read16(p, IP_TOTLEN) && ETH_HLEN + Read16(p, IP_TOTLEN) <= |p|
  }

  function IpHeader(p: Packet): seq<Byte>
    requires IsTcp(p)
  {
    p[ETH_HLEN..Tcp(p)]
  }

  function Segment(p: Packet): seq<Byte>
    requires WellSized(p)
  {
    p[Tcp(p)..ETH_HLEN + Read16(p, IP_TOTLEN)]
  }

  /** RFC 9293 section 3.1: addresses, protocol and segment length. */
  function PseudoHeaderSum(p: Packet): nat
    requires WellSized(p)
  {
    Halves(Read32(p, IP_SADDR)) + Halves(Read32(p, IP_DADDR)) + IPPROTO_TCP + |Segment(p)|
  }

  /** It is the sum of the pseudo header's words. */
  lemma {:induction false} PseudoHeaderWords(p: Packet)
    requires WellSized(p)
    ensures PseudoHeaderSum(p) == WordSum(p[26..30]) + WordSum(p[30..34]) + WordSum([0, 6]) + WordSum(BE16(|Segment(p)|))
  {
    SumOfLong(p[26..30]);
    SumOfLong(p[30..34]);
    assert Read32(p[26..30], 0) == Read32(p, 26) && Read32(p[30..34], 0) == Read32(p, 30);
    assert WordSum(BE16(|Segment(p)|)) == |Segment(p)| by {
      assert BE16(|Segment(p)|)[2..] == [];
    }
    assert [0 as Byte, 6][2..] == [];
  }

  lemma {:induction false} SumOfLong(s: seq<Byte>)
    requires |s| == 4
    ensures WordSum(s) == Halves(Read32(s, 0))
  {
    assert WordSum(s[2..]) == Read16(s[2..], 0) + WordSum(s[2..][2..]);
    assert Read16(s[2..], 0) == Read16(s, 2) && s[2..][2..] == [];
  }

  function TcpSum(p: Packet): (n: nat)
    requires WellSized(p)
    ensures n > 0
  {
    PseudoHeaderSum(p) + WordSum(Segment(p))
  }

  predicate IpChecksumValid(p: Packet)
    requires IsTcp(p)
  {
    Accepts(WordSum(IpHeader(p)))
  }

  predicate TcpChecksumValid(p: Packet)
    requires WellSized(p)
  {
    Accepts(TcpSum(p))
  }

  /** Five writes, whatever they write: seen from the IP header only two of them are left. */
  lemma {:induction false} HeaderOfWrites(p: Packet, c1: nat, c2: nat, c3: nat, addrOff: nat, portOff: nat, to: Endpoint)
    requires IsTcp(p) && InRange(to) && Paired(p, addrOff, portOff)
    requires c1 <= ALL_ONES && c2 <= ALL_ONES && c3 <= ALL_ONES
    ensures Writes(p, c1, c2, c3, addrOff, portOff, to)[ETH_HLEN..Tcp(p)] ==
            Write32(Write16(IpHeader(p), 10, c1), addrOff - ETH_HLEN, to.ip)
  {
    var lo, hi, csum := ETH_HLEN as nat, Tcp(p), Tcp(p) + 16;
    var p1 := Write16(p, IP_CHECK, c1);
    var p2 := Write16(p1, csum, c2);
    var p3 := Write16(p2, csum, c3);
    SliceWrite16(p, IP_CHECK, c1, lo, hi);
    SliceWrite16(p1, csum, c2, lo, hi);
    SliceWrite16(p2, csum, c3, lo, hi);
    SliceWrite32(p3, addrOff, to.ip, lo, hi);
    SliceWrite16(Write32(p3, addrOff, to.ip), portOff, to.port, lo, hi);
  }

  /** Seen from the TCP segment three of them are left. */
  lemma {:induction false} SegmentOfWrites(p: Packet, c1: nat, c2: nat, c3: nat, addrOff: nat, portOff: nat, to: Endpoint)
    requires WellSized(p) && InRange(to) && Paired(p, addrOff, portOff)
    requires c1 <= ALL_ONES && c2 <= ALL_ONES && c3 <= ALL_ONES
    ensures Writes(p, c1, c2, c3, addrOff, portOff, to)[Tcp(p)..ETH_HLEN + Read16(p, IP_TOTLEN)] ==
            Write16(Write16(Write16(Segment(p), 16, c2), 16, c3), portOff - Tcp(p), to.port)
  {
    var lo, hi, csum := Tcp(p), ETH_HLEN + Read16(p, IP_TOTLEN), Tcp(p) + 16;
    var p1 := Write16(p, IP_CHECK, c1);
    var p2 := Write16(p1, csum, c2);
    var p3 := Write16(p2, csum, c3);
    SliceWrite16(p, IP_CHECK, c1, lo, hi);
    SliceWrite16(p1, csum, c2, lo, hi);
    SliceWrite16(p2, csum, c3, lo, hi);
    SliceWrite32(p3, addrOff, to.ip, lo, hi);
    SliceWrite16(Write32(p3, addrOff, to.ip), portOff, to.port, lo, hi);
  }

  /** What checksum validity of a rewritten frame `r` depends on. */
  predicate RewrittenFrom(r: Packet, p: Packet, addrOff: nat, portOff: nat, to: Endpoint)
    requires IsTcp(p) && InRange(to) && Paired(p, addrOff, portOff)
  {
    && IsTcp(r) && Tcp(r) == Tcp(p) && Read16(r, IP_TOTLEN) == Read16(p, IP_TOTLEN) && |r| == |p|
    && Halves(Read32(r, IP_SADDR)) + Halves(Read32(r, IP_DADDR)) + Halves(Read32(p, addrOff)) ==
       Halves(Read32(p, IP_SADDR)) + Halves(Read32(p, IP_DADDR)) + Halves(to.ip)
    && IpHeader(r) == UpdateHeader(IpHeader(p), addrOff - ETH_HLEN, to.ip)
    && (WellSized(p) ==>
          Segment(r) == UpdateSegment(Segment(p), Read32(p, addrOff), to.ip, portOff - Tcp(p), to.port))
  }

  lemma {:induction false} WritesAreRewritten(r: Packet, p: Packet, c1: nat, c2: nat, c3: nat, addrOff: nat, portOff: nat, to: Endpoint)
    requires IsTcp(p) && InRange(to) && Paired(p, addrOff, portOff)
    requires c1 == Replace32(Read16(p, IP_CHECK), Read32(p, addrOff), to.ip)
    requires c2 == Replace32(Read16(p, Tcp(p) + 16), Read32(p, addrOff), to.ip)
    requires c3 == Replace16(c2, Read16(p, portOff), to.port)
    requires r == Writes(p, c1, c2, c3, addrOff, portOff, to)
    ensures RewrittenFrom(r, p, addrOff, portOff, to)
  {
    WritesEffect(r, p, c1, c2, c3, addrOff, portOff, to);
    assert IpHeader(r) == UpdateHeader(IpHeader(p), addrOff - ETH_HLEN, to.ip) by {
      HeaderOfWrites(p, c1, c2, c3, addrOff, portOff, to);
      HeaderFields(p, addrOff);
    }
    if WellSized(p) {
      SegmentRewritten(r, p, c1, c2, c3, addrOff, portOff, to);
    }
  }

  lemma {:induction false} SegmentRewritten(r: Packet, p: Packet, c1: nat, c2: nat, c3: nat, addrOff: nat, portOff: nat, to: Endpoint)
    requires IsTcp(p) && WellSized(p) && InRange(to) && Paired(p, addrOff, portOff)
    requires c1 == Replace32(Read16(p, IP_CHECK), Read32(p, addrOff), to.ip)
    requires c2 == Replace32(Read16(p, Tcp(p) + 16), Read32(p, addrOff), to.ip)
    requires c3 == Replace16(c2, Read16(p, portOff), to.port)
    requires r == Writes(p, c1, c2, c3, addrOff, portOff, to)
    requires IsTcp(r) && Tcp(r) == Tcp(p) && |r| == |p| && Read16(r, IP_TOTLEN) == Read16(p, IP_TOTLEN)
    ensures Segment(r) == UpdateSegment(Segment(p), Read32(p, addrOff), to.ip, portOff - Tcp(p), to.port)
  {
    SegmentOfWrites(p, c1, c2, c3, addrOff, portOff, to);
    SegmentFields(p, portOff);
  }

  lemma {:induction false} HeaderFields(p: Packet, addrOff: nat)
    requires IsTcp(p) && addrOff in {IP_SADDR, IP_DADDR}
    ensures |IpHeader(p)| >= 20 && IpHeader(p)[0] > 0
    ensures Read16(IpHeader(p), 10) == Read16(p, IP_CHECK)
    ensures Read32(IpHeader(p), addrOff - ETH_HLEN) == Read32(p, addrOff)
  {
    assert IpHeader(p)[0] == p[ETH_HLEN];
    assert p[ETH_HLEN] != 0;
  }

  lemma {:induction false} SegmentFields(p: Packet, portOff: nat)
    requires WellSized(p) && portOff in {Tcp(p), Tcp(p) + 2}
    ensures Read16(Segment(p), 16) == Read16(p, Tcp(p) + 16)
    ensures Read16(Segment(p), portOff - Tcp(p)) == Read16(p, portOff)
  {}

  lemma {:induction false} RewriteIsRewritten(p: Packet, addrOff: nat, portOff: nat, to: Endpoint)
    requires IsTcp(p) && InRange(to) && Paired(p, addrOff, portOff)
    ensures RewrittenFrom(Rewrite(p, addrOff, portOff, to), p, addrOff, portOff, to)
  {
    var c1 := Replace32(Read16(p, IP_CHECK), Read32(p, addrOff), to.ip);
    var c2 := Replace32(Read16(p, Tcp(p) + 16), Read32(p, addrOff), to.ip);
    var c3 := Replace16(c2, Read16(p, portOff), to.port);
    RewriteIsWrites(p, addrOff, portOff, to);
    WritesAreRewritten(Rewrite(p, addrOff, portOff, to), p, c1, c2, c3, addrOff, portOff, to);
  }

  /** Incremental updating keeps a valid IP header checksum valid, and an invalid one invalid. */
  lemma {:induction false} IpChecksumKept(r: Packet, p: Packet, addrOff: nat, portOff: nat, to: Endpoint)
    requires IsTcp(p) && InRange(to) && Paired(p, addrOff, portOff) && RewrittenFrom(r, p, addrOff, portOff, to)
    ensures IpChecksumValid(r) <==> IpChecksumValid(p)
  {
    HeaderFields(p, addrOff);
    HeaderUpdate(IpHeader(p), IpHeader(r), addrOff - ETH_HLEN, to.ip);
  }

  lemma {:induction false} PseudoHeaderKept(r: Packet, p: Packet, addrOff: nat, portOff: nat, to: Endpoint)
    requires WellSized(p) && InRange(to) && Paired(p, addrOff, portOff) && RewrittenFrom(r, p, addrOff, portOff, to)
    ensures WellSized(r)
    ensures PseudoHeaderSum(r) == PseudoHeaderSum(p) - Halves(Read32(p, addrOff)) + Halves(to.ip)
  {
    assert |Segment(r)| == |Segment(p)|;
  }

  /** The same for the TCP checksum over pseudo header and segment, of any payload. */
  lemma {:induction false} TcpChecksumKept(r: Packet, p: Packet, addrOff: nat, off: nat, to: Endpoint)
    requires WellSized(p) && WellSized(r) && InRange(to) && addrOff in {IP_SADDR, IP_DADDR} && (off == 0 || off == 2)
    requires PseudoHeaderSum(r) == PseudoHeaderSum(p) - Halves(Read32(p, addrOff)) + Halves(to.ip)
    requires Segment(r) == UpdateSegment(Segment(p), Read32(p, addrOff), to.ip, off, to.port)
    ensures TcpChecksumValid(r) <==> TcpChecksumValid(p)
  {
    SegmentUpdate(Segment(p), Segment(r), PseudoHeaderSum(p), PseudoHeaderSum(r), Read32(p, addrOff), to.ip, off, to.port);
    AcceptsCongruent(TcpSum(r), TcpSum(p));
  }

  lemma {:induction false} ChecksumsKept(r: Packet, p: Packet, addrOff: nat, portOff: nat, to: Endpoint)
    requires IsTcp(p) && InRange(to) && Paired(p, addrOff, portOff) && RewrittenFrom(r, p, addrOff, portOff, to)
    ensures IpChecksumValid(r) <==> IpChecksumValid(p)
    ensures WellSized(r) <==> WellSized(p)
    ensures WellSized(p) ==> (TcpChecksumValid(r) <==> TcpChecksumValid(p))
  {
    IpChecksumKept(r, p, addrOff, portOff, to);
    if WellSized(p) {
      PseudoHeaderKept(r, p, addrOff, portOff, to);
      TcpChecksumKept(r, p, addrOff, portOff - Tcp(p), to);
    }
  }

  /** Both programs hand on packets whose checksums are as valid as they were: the IP header's of every
      frame that gets past the filters, TCP's if the announced segment lies within the frame. */
  lemma {:induction false} IngressKeepsChecksums(p: Packet, tgt: Endpoint)
    requires IsTcp(p) && InRange(tgt)
    ensures IsTcp(Ingress(p, tgt))
    ensures IpChecksumValid(Ingress(p, tgt)) <==> IpChecksumValid(p)
    ensures WellSized(Ingress(p, tgt)) <==> WellSized(p)
    ensures WellSized(p) ==> (TcpChecksumValid(Ingress(p, tgt)) <==> TcpChecksumValid(p))
  {
    if Intercepted(p, tgt) {
      RewriteIsRewritten(p, IP_DADDR, Tcp(p) + 2, tgt);
      ChecksumsKept(Ingress(p, tgt), p, IP_DADDR, Tcp(p) + 2, tgt);
    }
  }

  lemma {:induction false} EgressKeepsChecksums(p: Packet, table: Table)
    requires IsTcp(p) && TableInRange(table)
    ensures IsTcp(Egress(p, table))
    ensures IpChecksumValid(Egress(p, table)) <==> IpChecksumValid(p)
    ensures WellSized(Egress(p, table)) <==> WellSized(p)
    ensures WellSized(p) ==> (TcpChecksumValid(Egress(p, table)) <==> TcpChecksumValid(p))
  {
    if Destination(p) in table {
      var to := table[Destination(p)];
      RewriteIsRewritten(p, IP_SADDR, Tcp(p), to);
      ChecksumsKept(Egress(p, table), p, IP_SADDR, Tcp(p), to);
    }
  }

  // ----- every run of the two programs ------------------------------------------------------------------

  /** `Lose(keep)`: the kernel drops all entries but those of `keep`. */
  datatype Event = InPacket(p: Packet) | OutPacket(p: Packet) | Lose(keep: set<Endpoint>)

  function Step(table: Table, ev: Event, tgt: Endpoint): Table {
    match ev
    case InPacket(p) => Record(table, p, tgt)
    case OutPacket(_) => table
    case Lose(keep) => map k | k in table && k in keep :: table[k]
  }

  function Run(trace: seq<Event>, tgt: Endpoint): Table {
    if |trace| == 0 then map[]
    else Step(Run(trace[..|trace| - 1], tgt), trace[|trace| - 1], tgt)
  }

  /** The last intercepted packet a source sent, read off the trace alone. */
  function LastFrom(trace: seq<Event>, tgt: Endpoint, source: Endpoint): Option<Packet> {
    if |trace| == 0 then None
    else
      var ev := trace[|trace| - 1];
      if ev.InPacket? && Intercepted(ev.p, tgt) && Source(ev.p) == source then Some(ev.p)
      else LastFrom(trace[..|trace| - 1], tgt, source)
  }

  /** Whatever the kernel dropped: an entry that is present is the destination of the last
      intercepted packet of that source. */
  lemma {:induction false} EntryIsLastDestination(trace: seq<Event>, tgt: Endpoint)
    ensures TableInRange(Run(trace, tgt))
    ensures forall k :: k in Run(trace, tgt) ==>
      && LastFrom(trace, tgt, k).Some?
      && Intercepted(LastFrom(trace, tgt, k).value, tgt)
      && Source(LastFrom(trace, tgt, k).value) == k
      && Run(trace, tgt)[k] == Destination(LastFrom(trace, tgt, k).value)
  {
    if |trace| > 0 {
      EntryIsLastDestination(trace[..|trace| - 1], tgt);
    }
  }

  /** The packet at `i` is the last one of `source` that belongs to the proxy, and it was going to `dst`. */
  ghost predicate LastAt(trace: seq<Event>, tgt: Endpoint, source: Endpoint, dst: Endpoint, i: nat) {
    && i < |trace| && trace[i].InPacket? && ToWeb(trace[i].p, source, dst, tgt)
    && forall j, d :: i < j < |trace| && trace[j].InPacket? ==> !ToWeb(trace[j].p, source, d, tgt)
  }

  lemma {:induction false} LastFromAt(trace: seq<Event>, tgt: Endpoint, source: Endpoint)
    requires LastFrom(trace, tgt, source).Some?
    ensures IsTcp(LastFrom(trace, tgt, source).value)
    ensures exists i :: LastAt(trace, tgt, source, Destination(LastFrom(trace, tgt, source).value), i)
  {
    var n := |trace| - 1;
    var ev := trace[n];
    if ev.InPacket? {
      InterceptedIff(ev.p, tgt);
    }
    if ev.InPacket? && Intercepted(ev.p, tgt) && Source(ev.p) == source {
      assert LastAt(trace, tgt, source, Destination(ev.p), n);
    } else {
      LastFromAt(trace[..n], tgt, source);
      var d := Destination(LastFrom(trace, tgt, source).value);
      var i :| LastAt(trace[..n], tgt, source, d, i);
      assert LastAt(trace, tgt, source, d, i);
    }
  }

  /** The same, byte by byte: an entry is what the last packet of its source to a web port was going to. */
  lemma {:induction false} EntryIsLastWebPacket(trace: seq<Event>, tgt: Endpoint, source: Endpoint)
    requires source in Run(trace, tgt)
    ensures exists i :: LastAt(trace, tgt, source, Run(trace, tgt)[source], i)
  {
    EntryIsLastDestination(trace, tgt);
    LastFromAt(trace, tgt, source);
  }

  lemma {:induction false} EgressEffect(p: Packet, table: Table)
    requires TableInRange(table) && IsTcp(p) && Destination(p) in table
    ensures IsTcp(Egress(p, table))
    ensures Source(Egress(p, table)) == table[Destination(p)] && Destination(Egress(p, table)) == Destination(p)
  {
    RewriteEffect(p, IP_SADDR, Tcp(p), table[Destination(p)]);
  }

  lemma {:induction false} IngressEffect(p: Packet, tgt: Endpoint)
    requires InRange(tgt) && Intercepted(p, tgt)
    ensures IsTcp(Ingress(p, tgt))
    ensures Source(Ingress(p, tgt)) == Source(p) && Destination(Ingress(p, tgt)) == tgt
  {
    RewriteEffect(p, IP_DADDR, Tcp(p) + 2, tgt);
  }

  /** The address translation is undone: a reply towards a source that has an entry leaves with the
      reversed endpoints of the last packet intercepted from that source. */
  lemma {:induction false} ReplyReversesTuple(trace: seq<Event>, tgt: Endpoint, reply: Packet)
    requires TableInRange(Run(trace, tgt)) && IsTcp(reply) && Destination(reply) in Run(trace, tgt)
    ensures var last, out := LastFrom(trace, tgt, Destination(reply)), Egress(reply, Run(trace, tgt));
            && last.Some? && IsTcp(last.value) && IsTcp(out)
            && Source(out) == Destination(last.value) && Destination(out) == Source(last.value)
  {
    EntryIsLastDestination(trace, tgt);
    EgressEffect(reply, Run(trace, tgt));
  }

  /** The proxy, which sees the redirected packet come from the same source, looks up the
      destination the packet had before it was redirected. */
  lemma {:induction false} ProxyFindsDestination(trace: seq<Event>, tgt: Endpoint, source: Endpoint)
    requires InRange(tgt) && source in Run(trace, tgt)
    ensures var last := LastFrom(trace, tgt, source);
            && last.Some? && IsTcp(last.value) && IsTcp(Ingress(last.value, tgt))
            && Destination(Ingress(last.value, tgt)) == tgt
            && ProxyLookup(Run(trace, tgt), Source(Ingress(last.value, tgt))) == Some(Destination(last.value))
  {
    EntryIsLastDestination(trace, tgt);
    IngressEffect(LastFrom(trace, tgt, source).value, tgt);
  }

  /** Whatever has happened, only replies towards a source from which a packet was intercepted before
      are changed on the way out. */
  lemma {:induction false} OnlyRecordedFlowsChange(trace: seq<Event>, tgt: Endpoint, p: Packet)
    requires TableInRange(Run(trace, tgt)) && Egress(p, Run(trace, tgt)) != p
    ensures IsTcp(p) && LastFrom(trace, tgt, Destination(p)).Some?
    ensures Intercepted(LastFrom(trace, tgt, Destination(p)).value, tgt)
    ensures Source(LastFrom(trace, tgt, Destination(p)).value) == Destination(p)
  {
    EntryIsLastDestination(trace, tgt);
  }

  // ----- the programs -----------------------------------------------------------------------------------

  /** `bpf_l3_csum_replace` / `bpf_l4_csum_replace` with a 4-byte value. */
  method CsumReplace4(pkt: array<Byte>, off: nat, from: nat, to: nat)
    requires off + 2 <= pkt.Length && from < 0x1_0000_0000 && to < 0x1_0000_0000
    modifies pkt
    ensures pkt[..] == Write16(old(pkt[..]), off, Replace32(Read16(old(pkt[..]), off), from, to))
  {
    var v := Replace32(Read16(pkt[..], off), from, to);
    StoreShort(pkt, off, v);
  }

  method CsumReplace2(pkt: array<Byte>, off: nat, from: nat, to: nat)
    requires off + 2 <= pkt.Length && from <= ALL_ONES && to <= ALL_ONES
    modifies pkt
    ensures pkt[..] == Write16(old(pkt[..]), off, Replace16(Read16(old(pkt[..]), off), from, to))
  {
    var v := Replace16(Read16(pkt[..], off), from, to);
    StoreShort(pkt, off, v);
  }

  /** `bpf_skb_store_bytes` of two and of four bytes. */
  method StoreShort(pkt: array<Byte>, off: nat, v: nat)
    requires off + 2 <= pkt.Length && v <= ALL_ONES
    modifies pkt
    ensures pkt[..] == Write16(old(pkt[..]), off, v)
  {
    pkt[off] := v / 256;
    pkt[off + 1] := v % 256;
  }

  method StoreLong(pkt: array<Byte>, off: nat, v: nat)
    requires off + 4 <= pkt.Length && v < 0x1_0000_0000
    modifies pkt
    ensures pkt[..] == Write32(old(pkt[..]), off, v)
  {
    StoreShort(pkt, off, v / 0x1_0000);
    StoreShort(pkt, off + 2, v % 0x1_0000);
  }

  /** The checks both programs begin with: the IP header length of a TCP packet, else 0. */
  method ParseTcp(pkt: array<Byte>) returns (ihl: nat)
    ensures ihl == if IsTcp(pkt[..]) then IpHeaderLen(pkt[..]) else 0
  {
    if pkt.Length < ETH_HLEN || Read16(pkt[..], 12) != 0x0800 {
      return 0;
    }
    if pkt.Length < ETH_HLEN + 20 || pkt[IP_PROTO] != IPPROTO_TCP {
      return 0;
    }
    ihl := IpHeaderLen(pkt[..]);
    if ihl == 0 || pkt.Length < ETH_HLEN + ihl + 20 {
      return 0;
    }
  }

  /** The filter of the ingress program: a packet to a web port, and a proxy is configured. */
  method ParseIntercepted(pkt: array<Byte>, tgt: Endpoint) returns (ihl: nat)
    ensures ihl == if Intercepted(pkt[..], tgt) then IpHeaderLen(pkt[..]) else 0
  {
    ihl := ParseTcp(pkt);
    if ihl == 0 {
      return;
    }
    var dstPort := Read16(pkt[..], ETH_HLEN + ihl + 2);
    if dstPort != INTERCEPT_PORT && dstPort != INTERCEPT_PORT_TLS {
      return 0;
    }
    if tgt.ip == 0 {
      return 0;
    }
  }

  method FixChecksums(pkt: array<Byte>, ihl: nat, addrOff: nat, oldIp: nat, oldPort: nat, to: Endpoint)
    requires IsTcp(pkt[..]) && ihl == IpHeaderLen(pkt[..]) && InRange(to)
    requires oldIp < 0x1_0000_0000 && oldPort <= ALL_ONES
    modifies pkt
    ensures pkt[..] == WithChecksums(old(pkt[..]), oldIp, oldPort, to)
  {
    CsumReplace4(pkt, IP_CHECK, oldIp, to.ip);
    CsumReplace4(pkt, ETH_HLEN + ihl + 16, oldIp, to.ip);
    CsumReplace2(pkt, ETH_HLEN + ihl + 16, oldPort, to.port);
  }

  /** Checksums are updated from the old values, then the new values are stored. */
  method Redirect(pkt: array<Byte>, ihl: nat, addrOff: nat, portOff: nat, to: Endpoint)
    requires IsTcp(pkt[..]) && ihl == IpHeaderLen(pkt[..])
    requires Paired(pkt[..], addrOff, portOff) && InRange(to)
    modifies pkt
    ensures pkt[..] == Rewrite(old(pkt[..]), addrOff, portOff, to)
  {
    var oldIp := Read32(pkt[..], addrOff);
    var oldPort := Read16(pkt[..], portOff);
    FixChecksums(pkt, ihl, addrOff, oldIp, oldPort, to);
    StoreLong(pkt, addrOff, to.ip);
    StoreShort(pkt, portOff, to.port);
  }

  class Programs {
    var origDst: Table
    const proxyTgt: Endpoint
    ghost var trace: seq<Event>

    ghost predicate Valid()
      reads this
    {
      InRange(proxyTgt) && origDst == Run(trace, proxyTgt) && TableInRange(origDst)
    }

    constructor (tgt: Endpoint)
      requires InRange(tgt)
      ensures Valid() && proxyTgt == tgt && trace == []
    {
      proxyTgt, origDst, trace := tgt, map[], [];
    }

    method TcIngress(pkt: array<Byte>)
      requires InRange(proxyTgt)
      modifies pkt, `origDst
      ensures pkt[..] == Ingress(old(pkt[..]), proxyTgt)
      ensures origDst == Record(old(origDst), old(pkt[..]), proxyTgt)
      ensures Redirected(old(pkt[..]), pkt[..], old(origDst), origDst, proxyTgt)
    {
      IngressMeans(pkt[..], origDst, proxyTgt);
      var ihl := ParseIntercepted(pkt, proxyTgt);
      if ihl == 0 {
        return;
      }
      var ck := Endpoint(Read32(pkt[..], IP_SADDR), Read16(pkt[..], ETH_HLEN + ihl));
      var cv := Endpoint(Read32(pkt[..], IP_DADDR), Read16(pkt[..], ETH_HLEN + ihl + 2));
      assert ck == Source(pkt[..]) && cv == Destination(pkt[..]) && ETH_HLEN + ihl == Tcp(pkt[..]);
      origDst := origDst[ck := cv];
      Redirect(pkt, ihl, IP_DADDR, ETH_HLEN + ihl + 2, proxyTgt);
    }

    method TcEgress(pkt: array<Byte>)
      requires TableInRange(origDst)
      modifies pkt
      ensures pkt[..] == Egress(old(pkt[..]), origDst)
      ensures Restored(old(pkt[..]), pkt[..], origDst)
    {
      EgressMeans(pkt[..], origDst);
      var ihl := ParseTcp(pkt);
      if ihl == 0 {
        return;
      }
      var ck := Endpoint(Read32(pkt[..], IP_DADDR), Read16(pkt[..], ETH_HLEN + ihl + 2));
      assert ck == Destination(pkt[..]) && ETH_HLEN + ihl == Tcp(pkt[..]);
      if ck !in origDst {
        return;
      }
      Redirect(pkt, ihl, IP_SADDR, ETH_HLEN + ihl, origDst[ck]);
    }

    /** A frame enters or leaves through the interface. */
    method Receive(pkt: array<Byte>)
      requires Valid()
      modifies pkt, this
      ensures Valid() && trace == old(trace) + [InPacket(old(pkt[..]))]
      ensures pkt[..] == Ingress(old(pkt[..]), proxyTgt)
    {
      trace := trace + [InPacket(pkt[..])];
      assert trace[..|trace| - 1] == old(trace);
      EntryIsLastDestination(trace, proxyTgt);
      TcIngress(pkt);
    }

    method Transmit(pkt: array<Byte>)
      requires Valid()
      modifies pkt, `trace
      ensures Valid() && trace == old(trace) + [OutPacket(old(pkt[..]))]
      ensures pkt[..] == Egress(old(pkt[..]), origDst)
    {
      trace := trace + [OutPacket(pkt[..])];
      assert trace[..|trace| - 1] == old(trace);
      TcEgress(pkt);
    }

    /** The kernel's LRU drops entries. */
    method Evict(keep: set<Endpoint>)
      requires Valid()
      modifies this
      ensures Valid() && trace == old(trace) + [Lose(keep)]
    {
      trace := trace + [Lose(keep)];
      assert trace[..|trace| - 1] == old(trace);
      origDst := map k | k in origDst && k in keep :: origDst[k];
    }

    /** internal/origdst. */
    method Lookup(peer: Endpoint) returns (dst: Option<Endpoint>)
      requires Valid()
      ensures dst == ProxyLookup(origDst, peer)
      ensures (dst.Some? <==> peer in origDst) && (dst.Some? ==> dst.value == origDst[peer])
      ensures dst.Some? ==> LastFrom(trace, proxyTgt, peer).Some?
      ensures dst.Some? ==> IsTcp(LastFrom(trace, proxyTgt, peer).value)
      ensures dst.Some? ==> dst.value == Destination(LastFrom(trace, proxyTgt, peer).value)
    {
      EntryIsLastDestination(trace, proxyTgt);
      dst := if peer in origDst then Some(origDst[peer]) else None;
    }
  }
}
