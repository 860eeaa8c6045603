/**
 The values the trace engine reads from the DNS client library: names,
 addresses, resource records, responses and client errors. Wire encoding
 and name parsing belong to the library and are not modelled; a name is an
 opaque string compared by equality.
 */
module Records {

  datatype Option<+T> = None | Some(value: T)

  datatype Result<+T, +E> = Ok(value: T) | Err(error: E)

  /** A fully-qualified domain name, compared by equality only. */
  type Name = string

  newtype Byte = x: int | 0 <= x < 256

  type Ipv6Octets = s: seq<Byte> | |s| == 16
    witness [0, 0, 0, 0, 0, 0, 0, 0, 0, 0, 0, 0, 0, 0, 0, 0]

  datatype Ipv4Addr = Ipv4Addr(o0: Byte, o1: Byte, o2: Byte, o3: Byte)

  datatype Ipv6Addr = Ipv6Addr(octets: Ipv6Octets)

  datatype IpAddr = V4(v4: Ipv4Addr) | V6(v6: Ipv6Addr)

  /** A port is a 16-bit unsigned number. */
  type Port = p: nat | p < 0x1_0000

  datatype SocketAddr = SocketAddr(ip: IpAddr, port: Port)

  /** Every query of the trace goes to the standard DNS port. */
  const DnsPort: Port := 53

  /** Record data, reduced to the kinds the engine distinguishes. */
  datatype RData =
    | A(ipv4: Ipv4Addr)
    | AAAA(ipv6: Ipv6Addr)
    | NS(target: Name)
    | Other

  datatype Record = Record(name: Name, rdata: RData)

  /** Response code "no error". */
  const NoError: nat := 0

  /**
   A decoded response. The section counts of the header are taken to be the
   lengths of the decoded sections.
   */
  datatype Response = Response(
    rcode: nat,
    answers: seq<Record>,
    nameServers: seq<Record>,
    additionals: seq<Record>)
  {
    function AnswerCount(): nat { |answers| }
    function NameServerCount(): nat { |nameServers| }
  }

  /**
   Errors of the client library. `NoAddrForAuthority` is the one the trace
   itself raises; every transport, timeout or protocol failure of the library
   is folded into `ClientFailure`.
   */
  datatype ClientError = NoAddrForAuthority | ClientFailure(message: string)
}
