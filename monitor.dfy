/** The dashboard component's own logic: the combination of the port and the
    service chains, the grouping of open ports across the filtered hosts, and
    the text and file name of a group's export. */
module Monitor {
  import opened Hosts
  import opened Strings
  import opened Selectors
  import PortFilters
  import ServiceFilters

  /** `getFilteredHosts`: decided on the two base values only. With neither
      base every address; with one base that chain's result; with both the
      intersection. Extras of a chain without a base are not looked at. */
  function GetFilteredHosts(
    hosts: seq<Host>,
    basePort: string, portFilters: seq<PortFilters.PortFilter>,
    baseService: string, serviceFilters: seq<ServiceFilters.ServiceFilter>): (r: set<string>)
    ensures forall a :: a in r <==>
      && a in Addresses(hosts)
      && (basePort == "" || a in PortFilters.Filtered(hosts, basePort, portFilters))
      && (baseService == "" || a in ServiceFilters.Filtered(hosts, baseService, serviceFilters))
  {
    PortFilters.FilteredWithinAddresses(hosts, basePort, portFilters);
    ServiceFilters.FilteredWithinAddresses(hosts, baseService, serviceFilters);
    if basePort == "" && baseService == "" then set h | h in hosts :: h.address
    else if basePort == "" then ServiceFilters.Filtered(hosts, baseService, serviceFilters)
    else if baseService == "" then PortFilters.Filtered(hosts, basePort, portFilters)
    else set a | a in PortFilters.Filtered(hosts, basePort, portFilters)
                 && a in ServiceFilters.Filtered(hosts, baseService, serviceFilters)
  }

  /** In every state the selector handlers can reach (no port extras without
      a port base) the combination is the plain intersection of the two
      chains' results. */
  lemma CombinedIsIntersection(
    hosts: seq<Host>,
    basePort: string, portFilters: seq<PortFilters.PortFilter>,
    baseService: string, serviceFilters: seq<ServiceFilters.ServiceFilter>)
    requires basePort == "" ==> portFilters == []
    ensures GetFilteredHosts(hosts, basePort, portFilters, baseService, serviceFilters)
         == PortFilters.Filtered(hosts, basePort, portFilters) * ServiceFilters.Filtered(hosts, baseService, serviceFilters)
  {
    PortFilters.FilteredWithinAddresses(hosts, basePort, portFilters);
    ServiceFilters.FilteredWithinAddresses(hosts, baseService, serviceFilters);
    if basePort == "" {
      PortFilters.NoSelectionKeepsAll(hosts);
    }
    if baseService == "" {
      ServiceFilters.NoBaseKeepsAll(hosts, serviceFilters);
    }
  }

  /** `{ address, status }` as pushed onto a group's host list. */
  datatype HostRef = HostRef(address: string, status: string)

  /** One value of the port map: the first host's `portId`, protocol (with
      the `tcp` default) and `service`, and the hosts having the port open. */
  datatype PortGroup = PortGroup(portId: string, protocol: string, service: string, hosts: seq<HostRef>)

  /** One push onto a group: the port key, the port it came from, the host. */
  datatype Entry = Entry(key: string, port: Port, ref: HostRef)

  function RefOf(h: Host): HostRef
  {
    HostRef(h.address, h.status)
  }

  function GroupKey(g: PortGroup): string
  {
    g.protocol + "/" + g.portId
  }

  /** The ports of OR extras. */
  function OrPorts(filters: seq<PortFilters.PortFilter>): set<string>
  {
    set f | f in filters && f.operation == Or :: f.port
  }

  /** `allowedPorts`: empty without a base port, otherwise the base port and
      the ports of the OR extras. */
  function AllowedPorts(basePort: string, filters: seq<PortFilters.PortFilter>): (r: set<string>)
    ensures forall k :: k in r <==>
      basePort != "" && (k == basePort || exists f :: f in filters && f.operation == Or && f.port == k)
  {
    if basePort == "" then {} else {basePort} + OrPorts(filters)
  }

  /** `!basePort || allowedPorts.has(portKey)`. */
  predicate Admits(basePort: string, allowed: set<string>, key: string)
  {
    basePort == "" || key in allowed
  }

  /** The pushes one host makes, in `host.ports` order. */
  function PortEntries(host: Host, ports: seq<Port>, basePort: string, allowed: set<string>): seq<Entry>
    decreases |ports|
  {
    if ports == [] then []
    else
      var p := ports[|ports| - 1];
      PortEntries(host, ports[..|ports| - 1], basePort, allowed)
      + (if IsOpen(p) && Admits(basePort, allowed, PortKey(p)) then [Entry(PortKey(p), p, RefOf(host))] else [])
  }

  /** Every push of the grouping, in `scannedHosts` order; hosts outside
      `filtered` push nothing. */
  function Entries(hosts: seq<Host>, filtered: set<string>, basePort: string, allowed: set<string>): seq<Entry>
    decreases |hosts|
  {
    if hosts == [] then []
    else
      var h := hosts[|hosts| - 1];
      Entries(hosts[..|hosts| - 1], filtered, basePort, allowed)
      + (if h.address in filtered then PortEntries(h, h.ports, basePort, allowed) else [])
  }

  /** The distinct keys of a list of pushes in order of first appearance:
      the insertion order of the port map. */
  function Keys(entries: seq<Entry>): seq<string>
    decreases |entries|
  {
    if entries == [] then []
    else
      var rest := Keys(entries[..|entries| - 1]);
      var k := entries[|entries| - 1].key;
      if k in rest then rest else rest + [k]
  }

  /** The first push with key `k`. */
  function FirstWith(entries: seq<Entry>, k: string): Option<Entry>
    decreases |entries|
  {
    if entries == [] then None
    else
      var prev := FirstWith(entries[..|entries| - 1], k);
      if prev.Some? then prev
      else if entries[|entries| - 1].key == k then Some(entries[|entries| - 1])
      else None
  }

  /** The hosts pushed with key `k`, in push order. */
  function RefsWith(entries: seq<Entry>, k: string): seq<HostRef>
    decreases |entries|
  {
    if entries == [] then []
    else
      RefsWith(entries[..|entries| - 1], k)
      + (if entries[|entries| - 1].key == k then [entries[|entries| - 1].ref] else [])
  }

  /** The map value under key `k` once all pushes are done. */
  function GroupOf(entries: seq<Entry>, k: string): PortGroup
  {
    match FirstWith(entries, k)
    case None => PortGroup("", "", "", [])
    case Some(e) => PortGroup(e.port.portId, DefaultProtocol(e.port.protocol), e.port.service, RefsWith(entries, k))
  }

  /** What `groupByPorts` returns, as a function of its inputs. */
  function Grouped(hosts: seq<Host>, filtered: set<string>, basePort: string, allowed: set<string>): seq<PortGroup>
  {
    var entries := Entries(hosts, filtered, basePort, allowed);
    var keys := Keys(entries);
    seq(|keys|, i requires 0 <= i < |keys| => GroupOf(entries, keys[i]))
  }

  lemma EntrySnoc(entries: seq<Entry>, e: Entry, k: string)
    ensures Keys(entries + [e]) == if e.key in Keys(entries) then Keys(entries) else Keys(entries) + [e.key]
    ensures FirstWith(entries + [e], k)
         == if FirstWith(entries, k).Some? then FirstWith(entries, k) else if e.key == k then Some(e) else None
    ensures RefsWith(entries + [e], k) == RefsWith(entries, k) + (if e.key == k then [e.ref] else [])
  {
    assert (entries + [e])[..|entries|] == entries;
  }

  lemma {:induction false} KeysMembership(entries: seq<Entry>, k: string)
    ensures k in Keys(entries) <==> FirstWith(entries, k).Some?
    ensures k in Keys(entries) <==> exists m :: 0 <= m < |entries| && entries[m].key == k
    decreases |entries|
  {
    if entries != [] {
      var init := entries[..|entries| - 1];
      KeysMembership(init, k);
      if exists m :: 0 <= m < |init| && init[m].key == k {
        var m :| 0 <= m < |init| && init[m].key == k;
        assert entries[m].key == k;
      }
      if exists m :: 0 <= m < |entries| && entries[m].key == k {
        var m :| 0 <= m < |entries| && entries[m].key == k;
        if m < |init| {
          assert init[m].key == k;
        }
      }
    }
  }

  lemma {:induction false} KeysDistinct(entries: seq<Entry>)
    ensures forall i, j :: 0 <= i < j < |Keys(entries)| ==> Keys(entries)[i] != Keys(entries)[j]
    decreases |entries|
  {
    if entries != [] {
      KeysDistinct(entries[..|entries| - 1]);
    }
  }

  lemma {:induction false} FirstWithIsFirst(entries: seq<Entry>, k: string)
    requires FirstWith(entries, k).Some?
    ensures exists m :: && 0 <= m < |entries|
                        && entries[m] == FirstWith(entries, k).value
                        && entries[m].key == k
                        && forall m' :: 0 <= m' < m ==> entries[m'].key != k
    decreases |entries|
  {
    var init := entries[..|entries| - 1];
    if FirstWith(init, k).Some? {
      FirstWithIsFirst(init, k);
      var m :| && 0 <= m < |init| && init[m] == FirstWith(init, k).value && init[m].key == k
               && forall m' :: 0 <= m' < m ==> init[m'].key != k;
      assert entries[m] == init[m];
      assert forall m' :: 0 <= m' < m ==> entries[m'] == init[m'];
    } else {
      KeysMembership(init, k);
      var m := |entries| - 1;
      assert forall m' :: 0 <= m' < m ==> entries[m'] == init[m'];
    }
  }

  lemma {:induction false} RefsWithMembership(entries: seq<Entry>, k: string)
    ensures forall r :: r in RefsWith(entries, k) <==> exists m :: 0 <= m < |entries| && entries[m].key == k && entries[m].ref == r
    decreases |entries|
  {
    if entries != [] {
      var init := entries[..|entries| - 1];
      RefsWithMembership(init, k);
      forall r
        ensures r in RefsWith(entries, k) <==> exists m :: 0 <= m < |entries| && entries[m].key == k && entries[m].ref == r
      {
        if r in RefsWith(init, k) {
          var m :| 0 <= m < |init| && init[m].key == k && init[m].ref == r;
          assert entries[m] == init[m];
        }
        if exists m :: 0 <= m < |entries| && entries[m].key == k && entries[m].ref == r {
          var m :| 0 <= m < |entries| && entries[m].key == k && entries[m].ref == r;
          if m < |init| {
            assert init[m] == entries[m];
          }
        }
      }
    }
  }

  lemma {:induction false} RefsWithNone(entries: seq<Entry>, k: string)
    requires forall m :: 0 <= m < |entries| ==> entries[m].key != k
    ensures RefsWith(entries, k) == []
    decreases |entries|
  {
    if entries != [] {
      var init := entries[..|entries| - 1];
      assert forall m :: 0 <= m < |init| ==> init[m] == entries[m];
      RefsWithNone(init, k);
    }
  }

  /** Every push comes from an open, admitted port of the host it names. */
  lemma {:induction false} PortEntriesSound(host: Host, ports: seq<Port>, basePort: string, allowed: set<string>)
    ensures forall e :: e in PortEntries(host, ports, basePort, allowed) ==>
      && e.key == PortKey(e.port) && IsOpen(e.port) && Admits(basePort, allowed, e.key)
      && e.port in ports && e.ref == RefOf(host)
    decreases |ports|
  {
    if ports != [] {
      var init := ports[..|ports| - 1];
      PortEntriesSound(host, init, basePort, allowed);
      assert forall p :: p in init ==> p in ports;
    }
  }

  lemma {:induction false} PortEntriesComplete(host: Host, ports: seq<Port>, basePort: string, allowed: set<string>)
    ensures forall p :: p in ports && IsOpen(p) && Admits(basePort, allowed, PortKey(p)) ==>
      Entry(PortKey(p), p, RefOf(host)) in PortEntries(host, ports, basePort, allowed)
    decreases |ports|
  {
    if ports != [] {
      var init := ports[..|ports| - 1];
      PortEntriesComplete(host, init, basePort, allowed);
      assert ports == init + [ports[|ports| - 1]];
      assert forall p :: p in ports ==> p in init || p == ports[|ports| - 1];
    }
  }

  lemma {:induction false} EntriesSound(hosts: seq<Host>, filtered: set<string>, basePort: string, allowed: set<string>)
    ensures forall e :: e in Entries(hosts, filtered, basePort, allowed) ==>
      && e.key == PortKey(e.port) && IsOpen(e.port) && Admits(basePort, allowed, e.key)
      && exists h :: h in hosts && h.address in filtered && e.port in h.ports && e.ref == RefOf(h)
    decreases |hosts|
  {
    if hosts != [] {
      var init := hosts[..|hosts| - 1];
      var h := hosts[|hosts| - 1];
      EntriesSound(init, filtered, basePort, allowed);
      PortEntriesSound(h, h.ports, basePort, allowed);
      assert forall x :: x in init ==> x in hosts;
    }
  }

  lemma {:induction false} EntriesComplete(hosts: seq<Host>, filtered: set<string>, basePort: string, allowed: set<string>)
    ensures forall h, p :: h in hosts && h.address in filtered && p in h.ports && IsOpen(p) && Admits(basePort, allowed, PortKey(p)) ==>
      Entry(PortKey(p), p, RefOf(h)) in Entries(hosts, filtered, basePort, allowed)
    decreases |hosts|
  {
    if hosts != [] {
      var init := hosts[..|hosts| - 1];
      var last := hosts[|hosts| - 1];
      EntriesComplete(init, filtered, basePort, allowed);
      PortEntriesComplete(last, last.ports, basePort, allowed);
      assert hosts == init + [last];
      assert forall x :: x in hosts ==> x in init || x == last;
    }
  }

  /** A group's key is the key it is stored under. */
  lemma GroupKeyOf(entries: seq<Entry>, k: string)
    requires forall e :: e in entries ==> e.key == PortKey(e.port)
    requires k in Keys(entries)
    ensures GroupKey(GroupOf(entries, k)) == k
  {
    KeysMembership(entries, k);
    FirstWithIsFirst(entries, k);
  }

  /** Every listed host is in the filtered set and has the group's port open. */
  lemma GroupedSound(hosts: seq<Host>, filtered: set<string>, basePort: string, allowed: set<string>)
    ensures forall g, r :: g in Grouped(hosts, filtered, basePort, allowed) && r in g.hosts ==>
      exists h :: && h in hosts && h.address in filtered && RefOf(h) == r
                  && exists p :: p in h.ports && IsOpen(p) && PortKey(p) == GroupKey(g)
  {
    var entries := Entries(hosts, filtered, basePort, allowed);
    var groups := Grouped(hosts, filtered, basePort, allowed);
    EntriesSound(hosts, filtered, basePort, allowed);
    forall g, r | g in groups && r in g.hosts
      ensures exists h :: && h in hosts && h.address in filtered && RefOf(h) == r
                          && exists p :: p in h.ports && IsOpen(p) && PortKey(p) == GroupKey(g)
    {
      var i :| 0 <= i < |groups| && groups[i] == g;
      var k := Keys(entries)[i];
      KeysMembership(entries, k);
      GroupKeyOf(entries, k);
      RefsWithMembership(entries, k);
      var m :| 0 <= m < |entries| && entries[m].key == k && entries[m].ref == r;
      var e := entries[m];
      var h :| h in hosts && h.address in filtered && e.port in h.ports && e.ref == RefOf(h);
    }
  }

  /** With a base port every group key is an allowed port. */
  lemma GroupedAllowed(hosts: seq<Host>, filtered: set<string>, basePort: string, allowed: set<string>)
    requires basePort != ""
    ensures forall g :: g in Grouped(hosts, filtered, basePort, allowed) ==> GroupKey(g) in allowed
  {
    var entries := Entries(hosts, filtered, basePort, allowed);
    var groups := Grouped(hosts, filtered, basePort, allowed);
    EntriesSound(hosts, filtered, basePort, allowed);
    forall g | g in groups
      ensures GroupKey(g) in allowed
    {
      var i :| 0 <= i < |groups| && groups[i] == g;
      var k := Keys(entries)[i];
      KeysMembership(entries, k);
      GroupKeyOf(entries, k);
      var m :| 0 <= m < |entries| && entries[m].key == k;
      assert entries[m] in entries;
    }
  }

  /** Group keys are unique. */
  lemma GroupedKeysDistinct(hosts: seq<Host>, filtered: set<string>, basePort: string, allowed: set<string>)
    ensures forall i, j :: 0 <= i < j < |Grouped(hosts, filtered, basePort, allowed)| ==>
      GroupKey(Grouped(hosts, filtered, basePort, allowed)[i]) != GroupKey(Grouped(hosts, filtered, basePort, allowed)[j])
  {
    var entries := Entries(hosts, filtered, basePort, allowed);
    var groups := Grouped(hosts, filtered, basePort, allowed);
    EntriesSound(hosts, filtered, basePort, allowed);
    KeysDistinct(entries);
    forall i | 0 <= i < |groups|
      ensures GroupKey(groups[i]) == Keys(entries)[i]
    {
      GroupKeyOf(entries, Keys(entries)[i]);
    }
  }

  /** Every group lists at least one host. */
  lemma GroupedNonEmpty(hosts: seq<Host>, filtered: set<string>, basePort: string, allowed: set<string>)
    ensures forall g :: g in Grouped(hosts, filtered, basePort, allowed) ==> |g.hosts| > 0
  {
    var entries := Entries(hosts, filtered, basePort, allowed);
    var groups := Grouped(hosts, filtered, basePort, allowed);
    forall g | g in groups
      ensures |g.hosts| > 0
    {
      var i :| 0 <= i < |groups| && groups[i] == g;
      var k := Keys(entries)[i];
      KeysMembership(entries, k);
      RefsWithMembership(entries, k);
      var m :| 0 <= m < |entries| && entries[m].key == k;
      assert entries[m].ref in RefsWith(entries, k);
    }
  }

  /** Every open, admitted port of a filtered host is listed under its key. */
  lemma GroupedComplete(hosts: seq<Host>, filtered: set<string>, basePort: string, allowed: set<string>)
    ensures forall h, p :: h in hosts && h.address in filtered && p in h.ports && IsOpen(p) && Admits(basePort, allowed, PortKey(p)) ==>
      exists g :: g in Grouped(hosts, filtered, basePort, allowed) && GroupKey(g) == PortKey(p) && RefOf(h) in g.hosts
  {
    var entries := Entries(hosts, filtered, basePort, allowed);
    var groups := Grouped(hosts, filtered, basePort, allowed);
    EntriesComplete(hosts, filtered, basePort, allowed);
    EntriesSound(hosts, filtered, basePort, allowed);
    forall h, p | h in hosts && h.address in filtered && p in h.ports && IsOpen(p) && Admits(basePort, allowed, PortKey(p))
      ensures exists g :: g in groups && GroupKey(g) == PortKey(p) && RefOf(h) in g.hosts
    {
      var e := Entry(PortKey(p), p, RefOf(h));
      var m :| 0 <= m < |entries| && entries[m] == e;
      KeysMembership(entries, e.key);
      var i :| 0 <= i < |Keys(entries)| && Keys(entries)[i] == e.key;
      GroupKeyOf(entries, e.key);
      RefsWithMembership(entries, e.key);
      assert groups[i] in groups;
    }
  }

  /** A group's `portId`, protocol and `service` are those of the first push
      under its key, that is of the first host, in `scannedHosts` order,
      having that port open; its hosts are all pushes under the key, in order. */
  lemma GroupOfFirstSeen(entries: seq<Entry>, k: string)
    requires k in Keys(entries)
    ensures exists m :: && 0 <= m < |entries|
                        && entries[m].key == k
                        && (forall m' :: 0 <= m' < m ==> entries[m'].key != k)
                        && GroupOf(entries, k).portId == entries[m].port.portId
                        && GroupOf(entries, k).protocol == DefaultProtocol(entries[m].port.protocol)
                        && GroupOf(entries, k).service == entries[m].port.service
                        && GroupOf(entries, k).hosts == RefsWith(entries, k)
  {
    KeysMembership(entries, k);
    FirstWithIsFirst(entries, k);
  }

  /** Groups come in order of first appearance: wherever the key of a later
      group is pushed, the key of an earlier group has been pushed before. */
  lemma {:induction false} KeysInFirstAppearanceOrder(entries: seq<Entry>, i: int, j: int, m: int)
    requires 0 <= i < j < |Keys(entries)|
    requires 0 <= m < |entries| && entries[m].key == Keys(entries)[j]
    ensures exists m' :: 0 <= m' < m && entries[m'].key == Keys(entries)[i]
    decreases |entries|
  {
    var init := entries[..|entries| - 1];
    var last := entries[|entries| - 1];
    assert entries == init + [last];
    EntrySnoc(init, last, "");
    if last.key in Keys(init) {
      if m < |init| {
        assert init[m] == entries[m];
        KeysInFirstAppearanceOrder(init, i, j, m);
        var m' :| 0 <= m' < m && init[m'].key == Keys(init)[i];
        assert entries[m'] == init[m'];
      } else {
        KeysMembership(init, last.key);
        var m0 :| 0 <= m0 < |init| && init[m0].key == last.key;
        KeysInFirstAppearanceOrder(init, i, j, m0);
        var m' :| 0 <= m' < m0 && init[m'].key == Keys(init)[i];
        assert entries[m'] == init[m'];
      }
    } else if j < |Keys(init)| {
      if m < |init| {
        assert init[m] == entries[m];
        KeysInFirstAppearanceOrder(init, i, j, m);
        var m' :| 0 <= m' < m && init[m'].key == Keys(init)[i];
        assert entries[m'] == init[m'];
      } else {
        assert false;
      }
    } else {
      var k := Keys(init)[i];
      KeysMembership(init, k);
      var m' :| 0 <= m' < |init| && init[m'].key == k;
      assert entries[m'] == init[m'];
      if m < |init| {
        assert init[m].key == last.key;
        KeysMembership(init, last.key);
      }
    }
  }

  lemma OrPortsSnoc(filters: seq<PortFilters.PortFilter>, f: PortFilters.PortFilter)
    ensures OrPorts(filters + [f]) == OrPorts(filters) + (if f.operation == Or then {f.port} else {})
  {
    assert forall x :: x in filters + [f] <==> x in filters || x == f;
  }

  /** The current map and its insertion order hold the groups of `entries`. */
  ghost predicate Holds(portMap: map<string, PortGroup>, order: seq<string>, entries: seq<Entry>)
  {
    && order == Keys(entries)
    && (forall k :: k in portMap <==> k in order)
    && (forall k :: k in portMap ==> portMap[k] == GroupOf(entries, k))
  }

  /** One push: create the group on first sight, then append the host. */
  lemma PushHolds(portMap: map<string, PortGroup>, order: seq<string>, entries: seq<Entry>, e: Entry)
    requires Holds(portMap, order, entries)
    requires e.key == PortKey(e.port)
    ensures var g := if e.key in portMap then portMap[e.key]
                     else PortGroup(e.port.portId, DefaultProtocol(e.port.protocol), e.port.service, []);
            Holds(portMap[e.key := g.(hosts := g.hosts + [e.ref])],
                  if e.key in portMap then order else order + [e.key],
                  entries + [e])
  {
    EntrySnoc(entries, e, e.key);
    KeysMembership(entries, e.key);
    if e.key !in portMap {
      RefsWithNone(entries, e.key);
    }
    forall k | k != e.key
      ensures GroupOf(entries + [e], k) == GroupOf(entries, k)
    {
      EntrySnoc(entries, e, k);
    }
  }

  /** `Array.from(portMap.values()).filter(portData => portData.hosts.length > 0)`. */
  function NonEmptyGroups(groups: seq<PortGroup>): (r: seq<PortGroup>)
    ensures forall g :: g in r <==> g in groups && |g.hosts| > 0
    ensures (forall g :: g in groups ==> |g.hosts| > 0) ==> r == groups
  {
    if groups == [] then []
    else
      assert forall g :: g in groups <==> g == groups[0] || g in groups[1..];
      assert groups == [groups[0]] + groups[1..];
      (if |groups[0].hosts| > 0 then [groups[0]] else []) + NonEmptyGroups(groups[1..])
  }

  /** The `allowedPorts` set: the base port and every OR extra's port, or
      nothing without a base port. */
  method CollectAllowedPorts(basePort: string, portFilters: seq<PortFilters.PortFilter>) returns (allowed: set<string>)
    ensures allowed == AllowedPorts(basePort, portFilters)
  {
    allowed := {};
    if basePort != "" {
      allowed := {basePort};
      var i := 0;
      while i < |portFilters|
        invariant 0 <= i <= |portFilters|
        invariant allowed == {basePort} + OrPorts(portFilters[..i])
      {
        var filter := portFilters[i];
        if filter.operation == Or {
          allowed := allowed + {filter.port};
        }
        assert portFilters[..i + 1] == portFilters[..i] + [filter];
        OrPortsSnoc(portFilters[..i], filter);
        i := i + 1;
      }
      assert portFilters[..i] == portFilters;
    }
  }

  /** One more port of the host: its push, if any, goes last. */
  lemma PortEntriesStep(host: Host, j: int, basePort: string, allowed: set<string>)
    requires 0 <= j < |host.ports|
    ensures var p := host.ports[j];
      PortEntries(host, host.ports[..j + 1], basePort, allowed)
      == PortEntries(host, host.ports[..j], basePort, allowed)
         + (if IsOpen(p) && Admits(basePort, allowed, PortKey(p)) then [Entry(PortKey(p), p, RefOf(host))] else [])
  {
    assert host.ports[..j + 1][..j] == host.ports[..j];
  }

  /** The `host.ports?.forEach` body for one filtered host: every open,
      admitted port is pushed onto its group, the group created first when
      the key is new. */
  method PushHostPorts(
    portMap: map<string, PortGroup>, order: seq<string>, ghost entries: seq<Entry>,
    host: Host, basePort: string, allowed: set<string>)
    returns (portMap': map<string, PortGroup>, order': seq<string>)
    requires Holds(portMap, order, entries)
    ensures Holds(portMap', order', entries + PortEntries(host, host.ports, basePort, allowed))
  {
    portMap', order' := portMap, order;
    ghost var pushed: seq<Entry> := entries;
    var j := 0;
    while j < |host.ports|
      invariant 0 <= j <= |host.ports|
      invariant pushed == entries + PortEntries(host, host.ports[..j], basePort, allowed)
      invariant Holds(portMap', order', pushed)
    {
      var port := host.ports[j];
      PortEntriesStep(host, j, basePort, allowed);
      if IsOpen(port) {
        var portKey := DefaultProtocol(port.protocol) + "/" + port.portId;
        if basePort == "" || portKey in allowed {
          ghost var e := Entry(portKey, port, HostRef(host.address, host.status));
          PushHolds(portMap', order', pushed, e);
          if portKey !in portMap' {
            portMap' := portMap'[portKey := PortGroup(port.portId, DefaultProtocol(port.protocol), port.service, [])];
            order' := order' + [portKey];
          }
          var group := portMap'[portKey];
          portMap' := portMap'[portKey := group.(hosts := group.hosts + [HostRef(host.address, host.status)])];
          pushed := pushed + [e];
        }
      }
      j := j + 1;
    }
    assert host.ports[..j] == host.ports;
  }

  /** `groupByPorts`: the allowed set, then a walk over the filtered hosts
      that fills the port map (a JavaScript `Map`, kept here as a map and its
      insertion order), then the map's values with the empty ones dropped. */
  method GroupByPorts(
    hosts: seq<Host>,
    basePort: string, portFilters: seq<PortFilters.PortFilter>,
    baseService: string, serviceFilters: seq<ServiceFilters.ServiceFilter>) returns (groups: seq<PortGroup>)
    ensures groups == Grouped(hosts, GetFilteredHosts(hosts, basePort, portFilters, baseService, serviceFilters),
                              basePort, AllowedPorts(basePort, portFilters))
  {
    var filteredSet := GetFilteredHosts(hosts, basePort, portFilters, baseService, serviceFilters);
    var allowed := CollectAllowedPorts(basePort, portFilters);
    var portMap: map<string, PortGroup> := map[];
    var order: seq<string> := [];
    ghost var entries: seq<Entry> := [];
    var i := 0;
    while i < |hosts|
      invariant 0 <= i <= |hosts|
      invariant entries == Entries(hosts[..i], filteredSet, basePort, allowed)
      invariant Holds(portMap, order, entries)
    {
      var host := hosts[i];
      if host.address in filteredSet {
        portMap, order := PushHostPorts(portMap, order, entries, host, basePort, allowed);
        entries := entries + PortEntries(host, host.ports, basePort, allowed);
      }
      assert hosts[..i + 1][..i] == hosts[..i];
      i := i + 1;
    }
    assert hosts[..i] == hosts;
    var values := seq(|order|, k requires 0 <= k < |order| => portMap[order[k]]);
    assert values == Grouped(hosts, filteredSet, basePort, allowed);
    GroupedNonEmpty(hosts, filteredSet, basePort, allowed);
    groups := NonEmptyGroups(values);
  }

  /** The addresses of a group's hosts, in order. */
  function AddressList(refs: seq<HostRef>): (r: seq<string>)
    ensures |r| == |refs| && forall i :: 0 <= i < |refs| ==> r[i] == refs[i].address
  {
    seq(|refs|, i requires 0 <= i < |refs| => refs[i].address)
  }

  /** The exported text: one address per line, no trailing newline. */
  function ExportContent(g: PortGroup): (r: string)
    ensures g.hosts == [] ==> r == ""
    ensures g.hosts != [] ==> |g.hosts[0].address| <= |r| && r[..|g.hosts[0].address|] == g.hosts[0].address
  {
    var lines := AddressList(g.hosts);
    var r := Join(lines, '\n');
    assert |lines| > 1 ==> r == lines[0] + (['\n'] + Join(lines[1..], '\n'));
    r
  }

  /** Splitting the exported text at newlines gives back exactly the group's
      addresses, so it holds one line per host and nothing after the last. */
  lemma ExportLines(g: PortGroup)
    requires |g.hosts| > 0
    requires forall r :: r in g.hosts ==> '\n' !in r.address
    ensures Split(ExportContent(g), '\n') == AddressList(g.hosts)
  {
    var lines := AddressList(g.hosts);
    forall x | x in lines
      ensures '\n' !in x
    {
      var i :| 0 <= i < |lines| && lines[i] == x;
      assert g.hosts[i] in g.hosts;
    }
    SplitJoin(lines, '\n');
  }

  /** `hosts_{protocol}_{portId}.txt`. */
  function ExportFileName(g: PortGroup): (r: string)
    ensures var n := 6 + |g.protocol|;
      && |r| == n + 1 + |g.portId| + 4
      && r[..6] == "hosts_" && r[6..n] == g.protocol && r[n] == '_'
      && r[n + 1..|r| - 4] == g.portId && r[|r| - 4..] == ".txt"
  {
    "hosts_" + g.protocol + "_" + g.portId + ".txt"
  }

  /** Different protocol/port pairs give different file names as long as no
      protocol contains `_`. */
  lemma ExportFileNameInjective(g1: PortGroup, g2: PortGroup)
    requires '_' !in g1.protocol && '_' !in g2.protocol
    requires ExportFileName(g1) == ExportFileName(g2)
    ensures g1.protocol == g2.protocol && g1.portId == g2.portId
  {
    var s1 := g1.protocol + "_" + g1.portId;
    var s2 := g2.protocol + "_" + g2.portId;
    var n1, n2 := ExportFileName(g1), ExportFileName(g2);
    assert n1 == "hosts_" + s1 + ".txt" && n2 == "hosts_" + s2 + ".txt";
    assert |s1| == |s2|;
    assert s1 == n1[6..6 + |s1|] == n2[6..6 + |s2|] == s2;
    var k1 := |g1.protocol|;
    var k2 := |g2.protocol|;
    assert s1[k1] == '_' && s1[..k1] == g1.protocol;
    assert s2[k2] == '_' && s2[..k2] == g2.protocol;
    assert IndexOf(s1, '_') == k1;
    assert IndexOf(s2, '_') == k2;
    assert g1.portId == s1[k1 + 1..];
    assert g2.portId == s2[k2 + 1..];
  }

  /** The groups of one `groupByPorts` result export to pairwise different
      files. */
  lemma GroupedFileNamesDistinct(hosts: seq<Host>, filtered: set<string>, basePort: string, allowed: set<string>)
    requires forall g :: g in Grouped(hosts, filtered, basePort, allowed) ==> '_' !in g.protocol
    ensures forall i, j :: 0 <= i < j < |Grouped(hosts, filtered, basePort, allowed)| ==>
      ExportFileName(Grouped(hosts, filtered, basePort, allowed)[i]) != ExportFileName(Grouped(hosts, filtered, basePort, allowed)[j])
  {
    var groups := Grouped(hosts, filtered, basePort, allowed);
    GroupedKeysDistinct(hosts, filtered, basePort, allowed);
    forall i, j | 0 <= i < j < |groups|
      ensures ExportFileName(groups[i]) != ExportFileName(groups[j])
    {
      assert groups[i] in groups && groups[j] in groups;
      if ExportFileName(groups[i]) == ExportFileName(groups[j]) {
        ExportFileNameInjective(groups[i], groups[j]);
      }
    }
  }
}
