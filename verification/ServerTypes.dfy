/** The records shared by the whole daemon: addresses, networks and upstream DNS servers. */
module ServerTypes {

  datatype Option<+T> = None | Some(value: T)

  type Byte = b: int | 0 <= b < 256

  /** The C `int` that holds a priority. */
  type Int32 = p: int | -0x8000_0000 <= p <= 0x7fff_ffff

  type Port = p: int | 0 <= p <= 65535

  type Octets4 = s: seq<Byte> | |s| == 4 witness [0, 0, 0, 0]

  type Octets16 = s: seq<Byte> | |s| == 16 witness [0, 0, 0, 0, 0, 0, 0, 0, 0, 0, 0, 0, 0, 0, 0, 0]

  /** The two families an address parser can produce. */
  datatype Address = V4(v4: Octets4) | V6(v6: Octets16)

  /** An address with a CIDR prefix, which the C struct keeps in an `unsigned char`. */
  datatype Network = Network(address: Address, prefix: Byte)

  datatype Protocol = Udp | Tcp | Tls

  /** Resolution modes, in the order of the C enumeration. */
  datatype Mode = Backup | Prefer | Exclusive

  /** One upstream server. An empty `interface` means the server may be used globally,
      port 0 means that no port was given. */
  datatype Server = Server(
    address: Address,
    port: Port,
    priority: Int32,
    interface: string,
    dnssec: bool,
    protocol: Protocol,
    ca: Option<string>,
    name: Option<string>,
    routingDomains: seq<string>,
    searchDomains: seq<string>,
    networks: seq<Network>)

  const ROOT := "."

  function ProtocolRank(p: Protocol): (r: nat)
    ensures r <= 2
  {
    match p
    case Udp => 0
    case Tcp => 1
    case Tls => 2
  }

  /** A server bound to an interface is left out of the root domain in every mode above
      backup, and out of every domain in exclusive mode. */
  predicate Eligible(s: Server, mode: Mode, domain: string) {
    s.interface == "" || !((mode != Backup && domain == ROOT) || mode == Exclusive)
  }

  /** `q` lists every element of `s` exactly once: one possible iteration order of a hash
      table whose keys are `s`. */
  ghost predicate Enumerates(q: seq<string>, s: set<string>) {
    && (forall x :: x in q <==> x in s)
    && (forall i, j :: 0 <= i < j < |q| ==> q[i] != q[j])
  }

  /** The order in which a hash table with the given keys is walked. */
  type HashOrder = set<string> -> seq<string>

  ghost predicate IsHashOrder(order: HashOrder) {
    forall keys: set<string> :: Enumerates(order(keys), keys)
  }
}
