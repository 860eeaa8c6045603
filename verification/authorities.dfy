/**
 Name-server candidates: the fixed root hints, the query an authority issues
 about a name, the glue search over an additional section, and the
 extraction of the next generation of candidates from a referral.
 */
module Authorities {
  import opened Records

  /** A name-server candidate; `addr` is absent when no glue was found. */
  datatype Authority = Authority(name: Name, addr: Option<SocketAddr>)

  /** The letters of the root servers, in the order of the hint table. */
  const RootLetters: string := "abcdefghij"

  function RootServerName(letter: char): Name
  {
    [letter] + ".root-servers.net."
  }

  function RootHint(letter: char, o0: Byte, o1: Byte, o2: Byte, o3: Byte): Authority
  {
    Authority(RootServerName(letter), Some(SocketAddr(V4(Ipv4Addr(o0, o1, o2, o3)), DnsPort)))
  }

  /** The authority a fresh trace queries first: the last root hint. */
  const JRoot: Authority :=
    Authority(RootServerName('j'), Some(SocketAddr(V4(Ipv4Addr(192, 58, 128, 30)), 53)))

  /**
   The ten root servers a. through j., in that order, each at its published
   IPv4 address on port 53.
   */
  function RootHints(): (r: seq<Authority>)
    ensures |r| == |RootLetters| == 10
    ensures forall i :: 0 <= i < |r| ==> r[i].name == RootServerName(RootLetters[i])
    ensures forall i :: 0 <= i < |r| ==>
              r[i].addr.Some? && r[i].addr.value.ip.V4? && r[i].addr.value.port == DnsPort
    ensures r[|r| - 1] == JRoot
  {
    [ RootHint('a', 198, 41, 0, 4),
      RootHint('b', 199, 9, 14, 201),
      RootHint('c', 192, 33, 4, 12),
      RootHint('d', 199, 7, 91, 13),
      RootHint('e', 192, 203, 230, 10),
      RootHint('f', 192, 5, 5, 241),
      RootHint('g', 192, 112, 36, 4),
      RootHint('h', 198, 97, 190, 53),
      RootHint('i', 192, 36, 148, 17),
      RootHint('j', 192, 58, 128, 30) ]
  }

  /**
   The in-flight query an authority starts. Without an address it is a
   future that fails at once, and no UDP stream is built; otherwise it is an
   A-record query of class IN for `qname` sent to the address.
   */
  datatype Query =
    | FailFast(error: ClientError)
    | UdpQuery(server: SocketAddr, qname: Name)

  function Lookup(a: Authority, qname: Name): (q: Query)
    ensures a.addr.None? <==> q.FailFast?
    ensures a.addr.None? ==> q.error == NoAddrForAuthority
    ensures a.addr.Some? ==> q.server == a.addr.value && q.qname == qname
  {
    match a.addr
    case None => FailFast(NoAddrForAuthority)
    case Some(addr) => UdpQuery(addr, qname)
  }

  /** `rec` is an address record (IPv4 or IPv6) owned by `query`. */
  predicate IsGlueFor(query: Name, rec: Record)
  {
    rec.name == query && (rec.rdata.A? || rec.rdata.AAAA?)
  }

  /** The socket address an address record names, always on port 53. */
  function GlueAddr(rec: Record): (sa: SocketAddr)
    requires rec.rdata.A? || rec.rdata.AAAA?
    ensures sa.port == DnsPort
    ensures rec.rdata.A? ==> sa.ip == V4(rec.rdata.ipv4)
    ensures rec.rdata.AAAA? ==> sa.ip == V6(rec.rdata.ipv6)
  {
    match rec.rdata
    case A(ip) => SocketAddr(V4(ip), DnsPort)
    case AAAA(ip) => SocketAddr(V6(ip), DnsPort)
  }

  /** What the search closure yields for one record. */
  function GlueOf(query: Name, rec: Record): Option<SocketAddr>
  {
    if IsGlueFor(query, rec) then Some(GlueAddr(rec)) else None
  }

  /**
   The glue address of `query`: the first record, in scan order, that is an
   address record owned by `query`. Records owned by `query` with other data
   are skipped. Absent exactly when no such record exists.
   */
  function FindSocketAddrForName(query: Name, recs: seq<Record>): (r: Option<SocketAddr>)
    ensures r.None? <==> forall i :: 0 <= i < |recs| ==> !IsGlueFor(query, recs[i])
    ensures r.Some? ==>
              exists i :: 0 <= i < |recs| && IsGlueFor(query, recs[i])
                       && r.value == GlueAddr(recs[i])
                       && forall j :: 0 <= j < i ==> !IsGlueFor(query, recs[j])
    ensures r.Some? ==> r.value.port == DnsPort
    decreases |recs|
  {
    if |recs| == 0 then None
    else
      match GlueOf(query, recs[0])
      case Some(addr) => Some(addr)
      case None =>
        var rest := FindSocketAddrForName(query, recs[1..]);
        assert forall i :: 1 <= i < |recs| ==> recs[i] == recs[1..][i - 1];
        rest
  }

  /** What the referral closure yields for one name-server record. */
  function ReferralOf(rec: Record, additional: seq<Record>): Option<Authority>
  {
    match rec.rdata
    case NS(target) => Some(Authority(target, FindSocketAddrForName(target, additional)))
    case _ => None
  }

  /**
   One authority per NS record of `nameServers`, in order, named by the NS
   target and carrying the target's glue address from `additional`; other
   records are dropped.
   */
  function NsToAuthorities(nameServers: seq<Record>, additional: seq<Record>): (r: seq<Authority>)
    ensures |r| <= |nameServers|
    ensures forall k :: 0 <= k < |r| ==>
              r[k].addr == FindSocketAddrForName(r[k].name, additional)
    ensures forall k :: 0 <= k < |r| ==>
              exists i :: 0 <= i < |nameServers| && nameServers[i].rdata == NS(r[k].name)
    ensures r == [] <==> forall i :: 0 <= i < |nameServers| ==> !nameServers[i].rdata.NS?
    decreases |nameServers|
  {
    if |nameServers| == 0 then []
    else
      var rest := NsToAuthorities(nameServers[1..], additional);
      assert forall i :: 1 <= i < |nameServers| ==> nameServers[i] == nameServers[1..][i - 1];
      match ReferralOf(nameServers[0], additional)
      case Some(a) => [a] + rest
      case None => rest
  }

  /** The next generation of candidates a referral response names. */
  function DnsResponseToNs(res: Response): seq<Authority>
  {
    NsToAuthorities(res.nameServers, res.additionals)
  }

  /** Extraction is order-preserving: it distributes over concatenation. */
  lemma {:induction false} NsToAuthoritiesAppend(a: seq<Record>, b: seq<Record>, additional: seq<Record>)
    ensures NsToAuthorities(a + b, additional)
         == NsToAuthorities(a, additional) + NsToAuthorities(b, additional)
    decreases |a|
  {
    if |a| == 0 {
      assert a + b == b;
    } else {
      assert (a + b)[1..] == a[1..] + b;
      NsToAuthoritiesAppend(a[1..], b, additional);
    }
  }

  /** A single NS record yields one authority; any other record yields none. */
  lemma NsToAuthoritiesSingle(rec: Record, additional: seq<Record>)
    ensures rec.rdata.NS? ==>
              NsToAuthorities([rec], additional)
              == [Authority(rec.rdata.target, FindSocketAddrForName(rec.rdata.target, additional))]
    ensures !rec.rdata.NS? ==> NsToAuthorities([rec], additional) == []
  {
  }

  /** The targets of the NS records of a section, in section order. */
  function NsTargets(recs: seq<Record>): seq<Name>
    decreases |recs|
  {
    if |recs| == 0 then []
    else (if recs[0].rdata.NS? then [recs[0].rdata.target] else []) + NsTargets(recs[1..])
  }

  /** The names of a list of candidates, in order. */
  function NamesOf(authorities: seq<Authority>): seq<Name>
    decreases |authorities|
  {
    if |authorities| == 0 then [] else [authorities[0].name] + NamesOf(authorities[1..])
  }

  /**
   The candidates are named by the NS targets of the section, one per NS
   record and in section order.
   */
  lemma {:induction false} NsToAuthoritiesNames(nameServers: seq<Record>, additional: seq<Record>)
    ensures NamesOf(NsToAuthorities(nameServers, additional)) == NsTargets(nameServers)
    decreases |nameServers|
  {
    if |nameServers| > 0 {
      var rest := NsToAuthorities(nameServers[1..], additional);
      NsToAuthoritiesNames(nameServers[1..], additional);
      if nameServers[0].rdata.NS? {
        var a := Authority(nameServers[0].rdata.target,
                           FindSocketAddrForName(nameServers[0].rdata.target, additional));
        assert NsToAuthorities(nameServers, additional) == [a] + rest;
        assert ([a] + rest)[1..] == rest;
      } else {
        assert NsToAuthorities(nameServers, additional) == rest;
      }
    }
  }

  /**
   A referral naming X and Y whose additional section carries glue for X
   only yields X with its address and Y without one, in that order.
   */
  lemma GlueOnlyForFirstDelegation(x: Name, y: Name, ip: Ipv4Addr)
    requires x != y
    ensures NsToAuthorities([Record("", NS(x)), Record("", NS(y))], [Record(x, A(ip))])
         == [Authority(x, Some(SocketAddr(V4(ip), DnsPort))), Authority(y, None)]
  {
  }
}
