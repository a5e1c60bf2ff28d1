/** The host records the backend serves and the dashboard reads.

    JavaScript's `undefined`, `null` and `""` are all falsy. The model writes
    an absent string field as `""`: the fields it tests for truthiness then
    behave as in the code, and the keys, services and addresses it compares
    with each other are never empty in the records the backend produces, so
    the folding changes no comparison the code makes on them. */
module Hosts {

  datatype Option<T> = None | Some(value: T)

  /** One `<port>` of a host: `portId`, `protocol`, `state`, `service` and the
      first script output, each `""` when absent. */
  datatype Port = Port(portId: string, protocol: string, state: string, service: string, script: string)

  /** A host record. The backend fills `address`, `status`, `ports` and
      `timestamp`; the dashboard adds the three service-scan fields locally. */
  datatype Host = Host(
    address: string,
    status: string,
    ports: seq<Port>,
    timestamp: string,
    serviceScanned: bool,
    serviceScannedTime: string,
    serviceScannedTimeStr: string)

  /** `protocol || 'tcp'`. */
  function DefaultProtocol(protocol: string): (r: string)
    ensures r != ""
    ensures protocol != "" ==> r == protocol
    ensures protocol == "" ==> r == "tcp"
  {
    if protocol == "" then "tcp" else protocol
  }

  /** The `protocol/portId` key both selector chains and the grouping use. */
  function PortKey(p: Port): string
  {
    DefaultProtocol(p.protocol) + "/" + p.portId
  }

  /** The key splits into the defaulted protocol, `/` and the port id. */
  lemma PortKeyShape(p: Port)
    ensures var n := |DefaultProtocol(p.protocol)|;
      && |PortKey(p)| == n + 1 + |p.portId|
      && PortKey(p)[..n] == DefaultProtocol(p.protocol)
      && PortKey(p)[n] == '/'
      && PortKey(p)[n + 1..] == p.portId
  {
  }

  /** As long as no protocol contains `/`, the key determines the defaulted
      protocol and the port id: two ports share a group exactly when both
      agree. */
  lemma PortKeyInjective(p: Port, q: Port)
    requires '/' !in DefaultProtocol(p.protocol) && '/' !in DefaultProtocol(q.protocol)
    requires PortKey(p) == PortKey(q)
    ensures DefaultProtocol(p.protocol) == DefaultProtocol(q.protocol) && p.portId == q.portId
  {
    var a, b := DefaultProtocol(p.protocol), DefaultProtocol(q.protocol);
    PortKeyShape(p);
    PortKeyShape(q);
    if |a| < |b| {
      assert false;
    } else if |b| < |a| {
      assert false;
    }
  }

  predicate IsOpen(p: Port)
  {
    p.state == "open"
  }

  /** `ports.filter(port => port.state === 'open').map(portKey)`. */
  function OpenPortKeys(ports: seq<Port>): (r: seq<string>)
    ensures forall k :: k in r <==> exists p :: p in ports && IsOpen(p) && PortKey(p) == k
  {
    if ports == [] then []
    else
      assert forall p :: p in ports <==> p == ports[0] || p in ports[1..];
      (if IsOpen(ports[0]) then [PortKey(ports[0])] else []) + OpenPortKeys(ports[1..])
  }

  /** `new Set(hosts.map(host => host.address))`. */
  function Addresses(hosts: seq<Host>): (r: set<string>)
    ensures forall a :: a in r <==> exists i :: 0 <= i < |hosts| && hosts[i].address == a
  {
    set h | h in hosts :: h.address
  }

  /** A host record as the hooks' unit tests write it: an address and its
      ports, every other field absent. */
  function MockHost(address: string, ports: seq<Port>): Host
  {
    Host(address, "", ports, "", false, "", "")
  }
}
