/** The port selector chain of the dashboard: a base `protocol/portId` key
    plus an ordered list of extra keys, each with an AND, OR or NOT operation,
    and the list of keys a user can pick from. */
module PortFilters {
  import opened Hosts
  import opened Strings
  import opened Selectors

  /** `{ port, operation }`. */
  datatype PortFilter = PortFilter(port: string, operation: Op)

  /** Some extra selector already names `port` (`filters.some(f => f.port === port)`). */
  predicate HasPort(filters: seq<PortFilter>, port: string)
  {
    exists i :: 0 <= i < |filters| && filters[i].port == port
  }

  /** The inclusion rule, stated on a host's open port keys: the host passes
      the base (no base, or the base key is open) or, failing that, has some
      OR key open; it has every AND key open; it has no NOT key open. OR
      entries only rescue a host that fails the base; AND and NOT entries
      apply wherever they stand in the list. */
  predicate Included(keys: seq<string>, basePort: string, filters: seq<PortFilter>)
  {
    && (basePort == "" || basePort in keys
        || exists f :: f in filters && f.operation == Or && f.port in keys)
    && (forall f :: f in filters && f.operation == And ==> f.port in keys)
    && (forall f :: f in filters && f.operation == Not ==> f.port !in keys)
  }

  /** The addresses the port chain lets through. */
  function Filtered(hosts: seq<Host>, basePort: string, filters: seq<PortFilter>): set<string>
  {
    set h | h in hosts && Included(OpenPortKeys(h.ports), basePort, filters) :: h.address
  }

  /** Every `protocol/portId` key of an open port of some host. */
  function OpenKeySet(hosts: seq<Host>): set<string>
  {
    set h, p | h in hosts && p in h.ports && IsOpen(p) :: PortKey(p)
  }

  /** The keys of the open ports of one host. */
  function OpenKeysOf(ports: seq<Port>): set<string>
  {
    set p | p in ports && IsOpen(p) :: PortKey(p)
  }

  lemma OpenKeysOfList(ports: seq<Port>)
    ensures OpenKeysOf(ports) == set k | k in OpenPortKeys(ports)
  {
  }

  /** `additionalFilters.filter(f => f.operation === 'OR')`. */
  function OrFilters(filters: seq<PortFilter>): (r: seq<PortFilter>)
    ensures forall f :: f in r <==> f in filters && f.operation == Or
  {
    if filters == [] then []
    else
      assert forall f :: f in filters <==> f == filters[0] || f in filters[1..];
      (if filters[0].operation == Or then [filters[0]] else []) + OrFilters(filters[1..])
  }

  /** `additionalFilters.filter(f => f.operation !== 'OR')`. */
  function OtherFilters(filters: seq<PortFilter>): (r: seq<PortFilter>)
    ensures forall f :: f in r <==> f in filters && f.operation != Or
  {
    if filters == [] then []
    else
      assert forall f :: f in filters <==> f == filters[0] || f in filters[1..];
      (if filters[0].operation != Or then [filters[0]] else []) + OtherFilters(filters[1..])
  }

  /** The `useEffect` body that derives the selectable keys: a Set filled
      host by host and port by port, then sorted. */
  method CollectPortKeys(hosts: seq<Host>) returns (keys: seq<string>)
    ensures StrictlySorted(keys)
    ensures forall k :: k in keys <==> k in OpenKeySet(hosts)
  {
    var ports: set<string> := {};
    var i := 0;
    while i < |hosts|
      invariant 0 <= i <= |hosts|
      invariant ports == OpenKeySet(hosts[..i])
    {
      var host := hosts[i];
      var j := 0;
      while j < |host.ports|
        invariant 0 <= j <= |host.ports|
        invariant ports == OpenKeySet(hosts[..i]) + OpenKeysOf(host.ports[..j])
      {
        var port := host.ports[j];
        if IsOpen(port) {
          ports := ports + {PortKey(port)};
        }
        assert host.ports[..j + 1] == host.ports[..j] + [port];
        OpenKeysOfSnoc(host.ports[..j], port);
        j := j + 1;
      }
      assert host.ports[..j] == host.ports;
      assert hosts[..i + 1] == hosts[..i] + [host];
      OpenKeySetSnoc(hosts[..i], host);
      i := i + 1;
    }
    assert hosts[..i] == hosts;
    keys := SortSet(ports);
  }

  lemma OpenKeysOfSnoc(ports: seq<Port>, port: Port)
    ensures OpenKeysOf(ports + [port]) == OpenKeysOf(ports) + (if IsOpen(port) then {PortKey(port)} else {})
  {
    assert forall p :: p in ports + [port] <==> p in ports || p == port;
  }

  lemma OpenKeySetSnoc(hosts: seq<Host>, host: Host)
    ensures OpenKeySet(hosts + [host]) == OpenKeySet(hosts) + OpenKeysOf(host.ports)
  {
    forall k | k in OpenKeySet(hosts + [host])
      ensures k in OpenKeySet(hosts) + OpenKeysOf(host.ports)
    {
      var h, p :| h in hosts + [host] && p in h.ports && IsOpen(p) && PortKey(p) == k;
      if h != host {
        assert h in hosts;
      }
    }
  }

  lemma FilteredSnoc(hosts: seq<Host>, host: Host, basePort: string, filters: seq<PortFilter>)
    ensures Filtered(hosts + [host], basePort, filters)
         == Filtered(hosts, basePort, filters)
            + (if Included(OpenPortKeys(host.ports), basePort, filters) then {host.address} else {})
  {
    forall a | a in Filtered(hosts + [host], basePort, filters)
      ensures a in Filtered(hosts, basePort, filters)
                   + (if Included(OpenPortKeys(host.ports), basePort, filters) then {host.address} else {})
    {
      var h :| h in hosts + [host] && Included(OpenPortKeys(h.ports), basePort, filters) && h.address == a;
      if h != host {
        assert h in hosts;
      }
    }
  }

  /** The per-host body of the `filteredHosts` loop: the base check, the OR
      rescue for a host that failed it, then the AND/NOT entries in list
      order, stopping at the first one that fails. */
  method DecideHost(hostPorts: seq<string>, basePort: string, filters: seq<PortFilter>)
    returns (shouldIncludeHost: bool)
    ensures shouldIncludeHost == Included(hostPorts, basePort, filters)
  {
    shouldIncludeHost := if basePort != "" then basePort in hostPorts else true;
    var orFilters := OrFilters(filters);
    var otherFilters := OtherFilters(filters);
    if !shouldIncludeHost && |orFilters| > 0 {
      shouldIncludeHost := exists f :: f in orFilters && f.port in hostPorts;
    }
    if shouldIncludeHost && |otherFilters| > 0 {
      var j := 0;
      while j < |otherFilters|
        invariant 0 <= j <= |otherFilters|
        invariant shouldIncludeHost
        invariant forall k :: 0 <= k < j && otherFilters[k].operation == And ==> otherFilters[k].port in hostPorts
        invariant forall k :: 0 <= k < j && otherFilters[k].operation == Not ==> otherFilters[k].port !in hostPorts
      {
        var filter := otherFilters[j];
        var hasPort := filter.port in hostPorts;
        if filter.operation == And && !hasPort {
          shouldIncludeHost := false;
          break;
        }
        if filter.operation == Not && hasPort {
          shouldIncludeHost := false;
          break;
        }
        j := j + 1;
      }
    }
    if shouldIncludeHost {
      forall f | f in filters && f.operation != Or
        ensures f.operation == And ==> f.port in hostPorts
        ensures f.operation == Not ==> f.port !in hostPorts
      {
        assert f in otherFilters;
        var k :| 0 <= k < |otherFilters| && otherFilters[k] == f;
      }
    }
  }

  /** `prev.map((filter, i) => i === index ? { ...filter, operation: next } : filter)`. */
  function ToggleAt(filters: seq<PortFilter>, index: int): (r: seq<PortFilter>)
    ensures |r| == |filters|
    ensures forall i :: 0 <= i < |r| && i != index ==> r[i] == filters[i]
    ensures 0 <= index < |r| ==> r[index] == filters[index].(operation := NextOp(filters[index].operation))
  {
    if filters == [] then []
    else
      var head := if index == 0 then filters[0].(operation := NextOp(filters[0].operation)) else filters[0];
      [head] + ToggleAt(filters[1..], index - 1)
  }

  /** The toggle the hook's unit test performs: a fresh AND entry becomes OR,
      its port kept. With `Selectors.NextOpCycle` this fixes the whole cycle
      AND -> OR -> NOT -> AND. */
  lemma ToggleAndToOr(port: string)
    ensures ToggleAt([PortFilter(port, And)], 0) == [PortFilter(port, Or)]
  {
  }

  /** With no base and no extras the chain lets every host through. */
  lemma NoSelectionKeepsAll(hosts: seq<Host>)
    ensures Filtered(hosts, "", []) == Addresses(hosts)
  {
  }

  /** The chain only removes hosts. */
  lemma FilteredWithinAddresses(hosts: seq<Host>, basePort: string, filters: seq<PortFilter>)
    ensures Filtered(hosts, basePort, filters) <= Addresses(hosts)
  {
  }

  /** Unlike a left-to-right set algebra, the result depends only on which
      entries are present, not on their order. */
  lemma {:induction false} FilterOrderIrrelevant(hosts: seq<Host>, basePort: string, a: seq<PortFilter>, b: seq<PortFilter>)
    requires multiset(a) == multiset(b)
    ensures Filtered(hosts, basePort, a) == Filtered(hosts, basePort, b)
  {
    assert forall f :: f in a <==> f in b by {
      forall f ensures f in a <==> f in b {
        assert f in a <==> f in multiset(a);
        assert f in b <==> f in multiset(b);
      }
    }
    forall keys: seq<string> ensures Included(keys, basePort, a) == Included(keys, basePort, b) {
    }
  }

  /** A host that passes the base check ignores every OR entry. */
  lemma OrOnlyRescues(keys: seq<string>, basePort: string, filters: seq<PortFilter>)
    requires basePort != "" && basePort in keys
    ensures Included(keys, basePort, filters) == Included(keys, basePort, OtherFilters(filters))
  {
  }

  /** The two hosts of the hook's unit test: .1 has tcp/80 and tcp/443 open,
      .2 has tcp/80 and tcp/22 open. */
  function TestHosts(): seq<Host>
  {
    [ MockHost("192.168.1.1", [Port("80", "tcp", "open", "", ""), Port("443", "tcp", "open", "", "")]),
      MockHost("192.168.1.2", [Port("80", "tcp", "open", "", ""), Port("22", "tcp", "open", "", "")]) ]
  }

  lemma TestHostKeys()
    ensures OpenPortKeys(TestHosts()[0].ports) == ["tcp/80", "tcp/443"]
    ensures OpenPortKeys(TestHosts()[1].ports) == ["tcp/80", "tcp/22"]
  {
    var h1, h2 := TestHosts()[0], TestHosts()[1];
    assert PortKey(h1.ports[0]) == "tcp/80" && PortKey(h1.ports[1]) == "tcp/443";
    assert PortKey(h2.ports[0]) == "tcp/80" && PortKey(h2.ports[1]) == "tcp/22";
    assert h1.ports[1..] == [h1.ports[1]] && h1.ports[1..][1..] == [];
    assert h2.ports[1..] == [h2.ports[1]] && h2.ports[1..][1..] == [];
  }

  /** The filtered set of the two test hosts, host by host. */
  lemma TestFiltered(basePort: string, filters: seq<PortFilter>)
    ensures Filtered(TestHosts(), basePort, filters)
         == (if Included(["tcp/80", "tcp/443"], basePort, filters) then {"192.168.1.1"} else {})
            + (if Included(["tcp/80", "tcp/22"], basePort, filters) then {"192.168.1.2"} else {})
  {
    var h1, h2 := TestHosts()[0], TestHosts()[1];
    TestHostKeys();
    assert TestHosts() == [] + [h1] + [h2];
    FilteredSnoc([], h1, basePort, filters);
    FilteredSnoc([h1], h2, basePort, filters);
  }

  /** Base tcp/80 keeps both test hosts. */
  lemma TestBaseOnly()
    ensures Filtered(TestHosts(), "tcp/80", []) == {"192.168.1.1", "192.168.1.2"}
  {
    TestFiltered("tcp/80", []);
  }

  /** Adding tcp/443 as an AND entry keeps only .1. */
  lemma TestAnd()
    ensures Filtered(TestHosts(), "tcp/80", [PortFilter("tcp/443", And)]) == {"192.168.1.1"}
  {
    TestFiltered("tcp/80", [PortFilter("tcp/443", And)]);
  }

  /** Toggled to OR it keeps both: both already passed the base. */
  lemma TestOr()
    ensures Filtered(TestHosts(), "tcp/80", [PortFilter("tcp/443", Or)]) == {"192.168.1.1", "192.168.1.2"}
  {
    TestFiltered("tcp/80", [PortFilter("tcp/443", Or)]);
  }

  /** Toggled to NOT it keeps only .2. */
  lemma TestNot()
    ensures Filtered(TestHosts(), "tcp/80", [PortFilter("tcp/443", Not)]) == {"192.168.1.2"}
  {
    TestFiltered("tcp/80", [PortFilter("tcp/443", Not)]);
  }

  /** With AND tcp/443 and OR tcp/22 under base tcp/80 only .1 passes, in
      either order; set algebra applied left to right would give both hosts
      for the order AND-then-OR. */
  lemma TestAndThenOr()
    ensures Filtered(TestHosts(), "tcp/80", [PortFilter("tcp/443", And), PortFilter("tcp/22", Or)]) == {"192.168.1.1"}
  {
    var filters := [PortFilter("tcp/443", And), PortFilter("tcp/22", Or)];
    assert Included(["tcp/80", "tcp/443"], "tcp/80", filters);
    assert !Included(["tcp/80", "tcp/22"], "tcp/80", filters) by {
      assert filters[0] in filters;
      assert "tcp/443" != "tcp/80" && "tcp/443" != "tcp/22";
    }
    TestFiltered("tcp/80", filters);
  }

  /** The keys the code derives for the test hosts are in string order,
      tcp/22, tcp/443, tcp/80; the list the unit test expects (tcp/22,
      tcp/80, tcp/443) is not sorted in that order, so no run of the code
      produces it. */
  lemma TestAvailablePorts(keys: seq<string>)
    requires StrictlySorted(keys)
    requires forall k :: k in keys <==> k in OpenKeySet(TestHosts())
    ensures keys == ["tcp/22", "tcp/443", "tcp/80"]
    ensures keys != ["tcp/22", "tcp/80", "tcp/443"]
  {
    TestOpenKeySet();
    TestKeysSorted();
    SortedUnique(keys, ["tcp/22", "tcp/443", "tcp/80"]);
  }

  lemma TestKeysSorted()
    ensures StrictlySorted(["tcp/22", "tcp/443", "tcp/80"])
  {
    LessAt("tcp/22", "tcp/443", 4);
    LessAt("tcp/443", "tcp/80", 4);
    LessAt("tcp/22", "tcp/80", 4);
  }

  lemma TestOpenKeySet()
    ensures OpenKeySet(TestHosts()) == {"tcp/22", "tcp/443", "tcp/80"}
  {
    var h1, h2 := TestHosts()[0], TestHosts()[1];
    assert OpenKeysOf(h1.ports) == {"tcp/80", "tcp/443"} by {
      TestHostKeys();
      OpenKeysOfList(h1.ports);
    }
    assert OpenKeysOf(h2.ports) == {"tcp/80", "tcp/22"} by {
      TestHostKeys();
      OpenKeysOfList(h2.ports);
    }
    assert OpenKeySet([h1]) == {"tcp/80", "tcp/443"} by {
      OpenKeySetSnoc([], h1);
      assert [] + [h1] == [h1];
    }
    assert TestHosts() == [h1] + [h2];
    OpenKeySetSnoc([h1], h2);
  }

  /** The state `usePortFilters` keeps: `basePort` (`""` for null),
      `additionalFilters` and `availablePorts`. */
  class PortFilterState {
    var basePort: string
    var additionalFilters: seq<PortFilter>
    var availablePorts: seq<string>

    /** What every handler keeps: extras exist only under a base (the base
        is set first and is cleared only together with the extras), and no
        two extras name the same key. */
    ghost predicate Valid()
      reads this
    {
      && (basePort == "" ==> additionalFilters == [])
      && forall i, j :: 0 <= i < j < |additionalFilters| ==> additionalFilters[i].port != additionalFilters[j].port
    }

    constructor ()
      ensures Valid()
      ensures basePort == "" && additionalFilters == [] && availablePorts == []
    {
      basePort := "";
      additionalFilters := [];
      availablePorts := [];
    }

    /** The effect on `scannedHosts`: recomputed only for a non-empty list. */
    method UpdateAvailablePorts(hosts: seq<Host>)
      modifies this`availablePorts
      ensures |hosts| > 0 ==>
        StrictlySorted(availablePorts) && forall k :: k in availablePorts <==> k in OpenKeySet(hosts)
      ensures |hosts| == 0 ==> availablePorts == old(availablePorts)
    {
      if |hosts| > 0 {
        availablePorts := CollectPortKeys(hosts);
      }
    }

    /** The first selection becomes the base; later ones are appended as AND
        entries unless an extra already names the key. */
    method HandlePortSelect(port: string)
      requires Valid()
      modifies this`basePort, this`additionalFilters
      ensures Valid()
      ensures old(basePort) == "" ==> basePort == port && additionalFilters == old(additionalFilters)
      ensures old(basePort) != "" ==> basePort == old(basePort)
      ensures old(basePort) != "" && HasPort(old(additionalFilters), port) ==> additionalFilters == old(additionalFilters)
      ensures old(basePort) != "" && !HasPort(old(additionalFilters), port) ==>
        additionalFilters == old(additionalFilters) + [PortFilter(port, And)]
    {
      if basePort == "" {
        basePort := port;
      } else if !HasPort(additionalFilters, port) {
        additionalFilters := additionalFilters + [PortFilter(port, And)];
      }
    }

    /** Advances the operation of entry `index` only. */
    method ToggleOperation(index: int)
      requires Valid()
      modifies this`additionalFilters
      ensures Valid()
      ensures |additionalFilters| == |old(additionalFilters)|
      ensures forall i :: 0 <= i < |additionalFilters| && i != index ==> additionalFilters[i] == old(additionalFilters)[i]
      ensures 0 <= index < |additionalFilters| ==>
                additionalFilters[index] == old(additionalFilters)[index].(operation := NextOp(old(additionalFilters)[index].operation))
    {
      additionalFilters := ToggleAt(additionalFilters, index);
    }

    /** Deletes entry `index`, keeping the order of the rest. */
    method RemoveFilter(index: int)
      requires Valid()
      modifies this`additionalFilters
      ensures Valid()
      ensures additionalFilters == DropIndex(old(additionalFilters), index)
    {
      additionalFilters := DropIndex(additionalFilters, index);
    }

    method ClearAllFilters()
      modifies this`basePort, this`additionalFilters
      ensures Valid()
      ensures basePort == "" && additionalFilters == []
    {
      basePort := "";
      additionalFilters := [];
    }

    /** The `filteredHosts` memo: every address when nothing is selected,
        otherwise the addresses of the hosts that `DecideHost` lets through. */
    method FilteredHosts(hosts: seq<Host>) returns (r: set<string>)
      ensures r == Filtered(hosts, basePort, additionalFilters)
    {
      var base, filters := basePort, additionalFilters;
      if base == "" && |filters| == 0 {
        NoSelectionKeepsAll(hosts);
        return Addresses(hosts);
      }
      r := {};
      var i := 0;
      while i < |hosts|
        invariant 0 <= i <= |hosts|
        invariant r == Filtered(hosts[..i], base, filters)
      {
        var host := hosts[i];
        var shouldIncludeHost := DecideHost(OpenPortKeys(host.ports), base, filters);
        if shouldIncludeHost {
          r := r + {host.address};
        }
        assert hosts[..i + 1] == hosts[..i] + [host];
        FilteredSnoc(hosts[..i], host, base, filters);
        i := i + 1;
      }
      assert hosts[..i] == hosts;
    }
  }
}
