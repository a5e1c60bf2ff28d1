/** The service selector chain of the dashboard: a base service name plus an
    ordered list of extra names with AND, OR or NOT, and the list of names a
    user can pick from. Its matching rule differs from the port chain's:
    without a base nothing is filtered, and OR entries have no effect. */
module ServiceFilters {
  import opened Hosts
  import opened Strings
  import opened Selectors

  /** `{ service, operation }`. */
  datatype ServiceFilter = ServiceFilter(service: string, operation: Op)

  /** Some extra selector already names `service`. */
  predicate HasService(filters: seq<ServiceFilter>, service: string)
  {
    exists i :: 0 <= i < |filters| && filters[i].service == service
  }

  /** The services of a host's open ports that have a service name at all;
      `unknown` counts here like any other name. */
  function HostServices(ports: seq<Port>): set<string>
  {
    set p | p in ports && IsOpen(p) && p.service != "" :: p.service
  }

  /** The inclusion rule: with no base every host passes; with a base the
      host offers the base, every AND service and no NOT service. */
  predicate Included(services: set<string>, baseService: string, filters: seq<ServiceFilter>)
  {
    baseService == ""
    || (&& baseService in services
        && (forall f :: f in filters && f.operation == And ==> f.service in services)
        && (forall f :: f in filters && f.operation == Not ==> f.service !in services))
  }

  /** The addresses the service chain lets through. */
  function Filtered(hosts: seq<Host>, baseService: string, filters: seq<ServiceFilter>): set<string>
  {
    set h | h in hosts && Included(HostServices(h.ports), baseService, filters) :: h.address
  }

  /** The names offered for selection: open ports' services other than empty
      and `unknown`. */
  function SelectableServices(hosts: seq<Host>): set<string>
  {
    set h, p | h in hosts && p in h.ports && IsOpen(p) && p.service != "" && p.service != "unknown" :: p.service
  }

  function SelectableOf(ports: seq<Port>): set<string>
  {
    set p | p in ports && IsOpen(p) && p.service != "" && p.service != "unknown" :: p.service
  }

  lemma SelectableOfSnoc(ports: seq<Port>, port: Port)
    ensures SelectableOf(ports + [port])
         == SelectableOf(ports)
            + (if IsOpen(port) && port.service != "" && port.service != "unknown" then {port.service} else {})
  {
    assert forall p :: p in ports + [port] <==> p in ports || p == port;
  }

  lemma SelectableSnoc(hosts: seq<Host>, host: Host)
    ensures SelectableServices(hosts + [host]) == SelectableServices(hosts) + SelectableOf(host.ports)
  {
    forall s | s in SelectableServices(hosts + [host])
      ensures s in SelectableServices(hosts) + SelectableOf(host.ports)
    {
      var h, p :| h in hosts + [host] && p in h.ports && IsOpen(p) && p.service != "" && p.service != "unknown" && p.service == s;
      if h != host {
        assert h in hosts;
      }
    }
  }

  lemma HostServicesSnoc(ports: seq<Port>, port: Port)
    ensures HostServices(ports + [port])
         == HostServices(ports) + (if IsOpen(port) && port.service != "" then {port.service} else {})
  {
    assert forall p :: p in ports + [port] <==> p in ports || p == port;
  }

  lemma FilteredSnoc(hosts: seq<Host>, host: Host, baseService: string, filters: seq<ServiceFilter>)
    ensures Filtered(hosts + [host], baseService, filters)
         == Filtered(hosts, baseService, filters)
            + (if Included(HostServices(host.ports), baseService, filters) then {host.address} else {})
  {
    forall a | a in Filtered(hosts + [host], baseService, filters)
      ensures a in Filtered(hosts, baseService, filters)
                   + (if Included(HostServices(host.ports), baseService, filters) then {host.address} else {})
    {
      var h :| h in hosts + [host] && Included(HostServices(h.ports), baseService, filters) && h.address == a;
      if h != host {
        assert h in hosts;
      }
    }
  }

  /** The `useEffect` body that derives the selectable names: a Set filled
      host by host and port by port, then sorted. */
  method CollectServices(hosts: seq<Host>) returns (names: seq<string>)
    ensures StrictlySorted(names)
    ensures forall s :: s in names <==> s in SelectableServices(hosts)
  {
    var services: set<string> := {};
    var i := 0;
    while i < |hosts|
      invariant 0 <= i <= |hosts|
      invariant services == SelectableServices(hosts[..i])
    {
      var host := hosts[i];
      var j := 0;
      while j < |host.ports|
        invariant 0 <= j <= |host.ports|
        invariant services == SelectableServices(hosts[..i]) + SelectableOf(host.ports[..j])
      {
        var port := host.ports[j];
        if IsOpen(port) && port.service != "" && port.service != "unknown" {
          services := services + {port.service};
        }
        assert host.ports[..j + 1] == host.ports[..j] + [port];
        SelectableOfSnoc(host.ports[..j], port);
        j := j + 1;
      }
      assert host.ports[..j] == host.ports;
      assert hosts[..i + 1] == hosts[..i] + [host];
      SelectableSnoc(hosts[..i], host);
      i := i + 1;
    }
    assert hosts[..i] == hosts;
    names := SortSet(services);
  }

  /** The `reduce` that gathers one host's services into a Set. */
  method CollectHostServices(ports: seq<Port>) returns (services: set<string>)
    ensures services == HostServices(ports)
  {
    services := {};
    var j := 0;
    while j < |ports|
      invariant 0 <= j <= |ports|
      invariant services == HostServices(ports[..j])
    {
      var port := ports[j];
      if IsOpen(port) && port.service != "" {
        services := services + {port.service};
      }
      assert ports[..j + 1] == ports[..j] + [port];
      HostServicesSnoc(ports[..j], port);
      j := j + 1;
    }
    assert ports[..j] == ports;
  }

  /** The per-host body of the `filteredHostsByService` loop: with a base,
      leave at the first check that fails (the base, an AND entry that is
      missing, a NOT entry that is present); OR entries are passed over. */
  method DecideHost(hostServices: set<string>, baseService: string, filters: seq<ServiceFilter>)
    returns (includeHost: bool)
    ensures includeHost == Included(hostServices, baseService, filters)
  {
    if baseService != "" {
      if baseService !in hostServices {
        return false;
      }
      var j := 0;
      while j < |filters|
        invariant 0 <= j <= |filters|
        invariant forall k :: 0 <= k < j && filters[k].operation == And ==> filters[k].service in hostServices
        invariant forall k :: 0 <= k < j && filters[k].operation == Not ==> filters[k].service !in hostServices
      {
        var filter := filters[j];
        var hasService := filter.service in hostServices;
        if filter.operation == And && !hasService {
          return false;
        }
        if filter.operation == Not && hasService {
          return false;
        }
        j := j + 1;
      }
      forall f | f in filters
        ensures f.operation == And ==> f.service in hostServices
        ensures f.operation == Not ==> f.service !in hostServices
      {
        var k :| 0 <= k < |filters| && filters[k] == f;
      }
    }
    return true;
  }

  /** `prev.map` that advances the operation of entry `index` only. The
      service hook keeps its own entry shape `{service, operation}` and its
      own copy of the toggle, so this mirrors `PortFilters.ToggleAt` over
      `ServiceFilter` entries. */
  function ToggleAt(filters: seq<ServiceFilter>, index: int): (r: seq<ServiceFilter>)
    ensures |r| == |filters|
    ensures forall i :: 0 <= i < |r| && i != index ==> r[i] == filters[i]
    ensures 0 <= index < |r| ==> r[index] == filters[index].(operation := NextOp(filters[index].operation))
  {
    if filters == [] then []
    else
      var head := if index == 0 then filters[0].(operation := NextOp(filters[0].operation)) else filters[0];
      [head] + ToggleAt(filters[1..], index - 1)
  }

  /** The toggle the hook's unit test performs: a fresh AND entry becomes OR,
      its service kept. */
  lemma ToggleAndToOr(service: string)
    ensures ToggleAt([ServiceFilter(service, And)], 0) == [ServiceFilter(service, Or)]
  {
  }

  /** Whenever there is no base service every host is included, whatever
      extras the list holds. */
  lemma NoBaseKeepsAll(hosts: seq<Host>, filters: seq<ServiceFilter>)
    ensures Filtered(hosts, "", filters) == Addresses(hosts)
  {
  }

  /** The chain only removes hosts. */
  lemma FilteredWithinAddresses(hosts: seq<Host>, baseService: string, filters: seq<ServiceFilter>)
    ensures Filtered(hosts, baseService, filters) <= Addresses(hosts)
  {
  }

  /** The extras without their OR entries: the entries the service chain
      reads. It mirrors `PortFilters.OtherFilters` over `ServiceFilter`
      entries, the type of the service hook's own list. */
  function WithoutOr(filters: seq<ServiceFilter>): (r: seq<ServiceFilter>)
    ensures forall f :: f in r <==> f in filters && f.operation != Or
  {
    if filters == [] then []
    else
      assert forall f :: f in filters <==> f == filters[0] || f in filters[1..];
      (if filters[0].operation != Or then [filters[0]] else []) + WithoutOr(filters[1..])
  }

  /** OR entries never change the result. */
  lemma OrIgnored(hosts: seq<Host>, baseService: string, filters: seq<ServiceFilter>)
    ensures Filtered(hosts, baseService, filters) == Filtered(hosts, baseService, WithoutOr(filters))
  {
    forall services: set<string>
      ensures Included(services, baseService, filters) == Included(services, baseService, WithoutOr(filters))
    {
    }
  }

  /** A host whose only open port reports `unknown` matches the base
      `unknown`, although `unknown` is never offered for selection. */
  lemma UnknownCountsForHosts(address: string, portId: string)
    ensures address in Filtered([Host(address, "", [Port(portId, "", "open", "unknown", "")], "", false, "", "")], "unknown", [])
    ensures "unknown" !in SelectableServices([Host(address, "", [Port(portId, "", "open", "unknown", "")], "", false, "", "")])
  {
    var h := Host(address, "", [Port(portId, "", "open", "unknown", "")], "", false, "", "");
    assert h.ports[0] in h.ports;
    assert "unknown" in HostServices(h.ports);
  }

  /** The hosts of the hook's unit test: .1 offers http and https, .2 offers
      http and ssh. */
  function TestHosts(): seq<Host>
  {
    [ MockHost("192.168.1.1", [Port("80", "tcp", "open", "http", ""), Port("443", "tcp", "open", "https", "")]),
      MockHost("192.168.1.2", [Port("80", "tcp", "open", "http", ""), Port("22", "tcp", "open", "ssh", "")]) ]
  }

  lemma TestHostServices()
    ensures HostServices(TestHosts()[0].ports) == {"http", "https"}
    ensures HostServices(TestHosts()[1].ports) == {"http", "ssh"}
  {
    var h1, h2 := TestHosts()[0], TestHosts()[1];
    assert h1.ports == [] + [h1.ports[0]] + [h1.ports[1]];
    assert h2.ports == [] + [h2.ports[0]] + [h2.ports[1]];
    HostServicesSnoc([], h1.ports[0]);
    HostServicesSnoc([h1.ports[0]], h1.ports[1]);
    HostServicesSnoc([], h2.ports[0]);
    HostServicesSnoc([h2.ports[0]], h2.ports[1]);
  }

  lemma TestFiltered(baseService: string, filters: seq<ServiceFilter>)
    ensures Filtered(TestHosts(), baseService, filters)
         == (if Included({"http", "https"}, baseService, filters) then {"192.168.1.1"} else {})
            + (if Included({"http", "ssh"}, baseService, filters) then {"192.168.1.2"} else {})
  {
    var h1, h2 := TestHosts()[0], TestHosts()[1];
    TestHostServices();
    assert TestHosts() == [] + [h1] + [h2];
    FilteredSnoc([], h1, baseService, filters);
    FilteredSnoc([h1], h2, baseService, filters);
  }

  /** Base http keeps both test hosts. */
  lemma TestBaseOnly()
    ensures Filtered(TestHosts(), "http", []) == {"192.168.1.1", "192.168.1.2"}
  {
    TestFiltered("http", []);
  }

  /** Adding https as AND keeps only .1. */
  lemma TestAnd()
    ensures Filtered(TestHosts(), "http", [ServiceFilter("https", And)]) == {"192.168.1.1"}
  {
    var filters := [ServiceFilter("https", And)];
    assert !Included({"http", "ssh"}, "http", filters) by {
      assert filters[0] in filters;
      assert "https" != "http" && "https" != "ssh";
    }
    TestFiltered("http", filters);
  }

  /** Toggled to OR it keeps both again: OR is passed over. */
  lemma TestOr()
    ensures Filtered(TestHosts(), "http", [ServiceFilter("https", Or)]) == {"192.168.1.1", "192.168.1.2"}
  {
    TestFiltered("http", [ServiceFilter("https", Or)]);
  }

  /** The names offered for the test hosts, in string order. */
  lemma TestAvailableServices(names: seq<string>)
    requires StrictlySorted(names)
    requires forall s :: s in names <==> s in SelectableServices(TestHosts())
    ensures names == ["http", "https", "ssh"]
  {
    TestSelectable();
    TestServicesSorted();
    SortedUnique(names, ["http", "https", "ssh"]);
  }

  lemma TestServicesSorted()
    ensures StrictlySorted(["http", "https", "ssh"])
  {
    LessAt("http", "ssh", 0);
    LessAt("https", "ssh", 0);
    assert Less("http", "https") by {
      assert "https"[1..] == "ttps";
      assert "ttps"[1..] == "tps";
      assert "tps"[1..] == "ps";
      assert "ps"[1..] == "s";
    }
  }

  lemma TestSelectableFirst()
    ensures SelectableOf(TestHosts()[0].ports) == {"http", "https"}
  {
    var ports := TestHosts()[0].ports;
    assert ports == [] + [ports[0]] + [ports[1]];
    SelectableOfSnoc([], ports[0]);
    SelectableOfSnoc([ports[0]], ports[1]);
  }

  lemma TestSelectableSecond()
    ensures SelectableOf(TestHosts()[1].ports) == {"http", "ssh"}
  {
    var ports := TestHosts()[1].ports;
    assert ports == [] + [ports[0]] + [ports[1]];
    SelectableOfSnoc([], ports[0]);
    SelectableOfSnoc([ports[0]], ports[1]);
  }

  lemma TestSelectable()
    ensures SelectableServices(TestHosts()) == {"http", "https", "ssh"}
  {
    var h1, h2 := TestHosts()[0], TestHosts()[1];
    TestSelectableFirst();
    TestSelectableSecond();
    assert SelectableServices([h1]) == {"http", "https"} by {
      SelectableSnoc([], h1);
      assert [] + [h1] == [h1];
    }
    assert TestHosts() == [h1] + [h2];
    SelectableSnoc([h1], h2);
  }

  /** The state `useServiceFilters` keeps: `baseService` (`""` for null),
      `additionalServiceFilters` and `availableServices`. */
  class ServiceFilterState {
    var baseService: string
    var additionalServiceFilters: seq<ServiceFilter>
    var availableServices: seq<string>

    /** What every handler keeps: extras exist only under a base, and no two
        extras name the same service. */
    ghost predicate Valid()
      reads this
    {
      && (baseService == "" ==> additionalServiceFilters == [])
      && forall i, j :: 0 <= i < j < |additionalServiceFilters| ==>
           additionalServiceFilters[i].service != additionalServiceFilters[j].service
    }

    constructor ()
      ensures Valid()
      ensures baseService == "" && additionalServiceFilters == [] && availableServices == []
    {
      baseService := "";
      additionalServiceFilters := [];
      availableServices := [];
    }

    /** The effect on `scannedHosts`: recomputed only for a non-empty list. */
    method UpdateAvailableServices(hosts: seq<Host>)
      modifies this`availableServices
      ensures |hosts| > 0 ==>
        StrictlySorted(availableServices) && forall s :: s in availableServices <==> s in SelectableServices(hosts)
      ensures |hosts| == 0 ==> availableServices == old(availableServices)
    {
      if |hosts| > 0 {
        availableServices := CollectServices(hosts);
      }
    }

    /** The first selection becomes the base; later ones are appended as AND
        entries unless an extra already names the service. */
    method HandleServiceSelect(service: string)
      requires Valid()
      modifies this`baseService, this`additionalServiceFilters
      ensures Valid()
      ensures old(baseService) == "" ==> baseService == service && additionalServiceFilters == old(additionalServiceFilters)
      ensures old(baseService) != "" ==> baseService == old(baseService)
      ensures old(baseService) != "" && HasService(old(additionalServiceFilters), service) ==>
        additionalServiceFilters == old(additionalServiceFilters)
      ensures old(baseService) != "" && !HasService(old(additionalServiceFilters), service) ==>
        additionalServiceFilters == old(additionalServiceFilters) + [ServiceFilter(service, And)]
    {
      if baseService == "" {
        baseService := service;
      } else if !HasService(additionalServiceFilters, service) {
        additionalServiceFilters := additionalServiceFilters + [ServiceFilter(service, And)];
      }
    }

    /** Advances the operation of entry `index` only. */
    method ToggleServiceOperation(index: int)
      requires Valid()
      modifies this`additionalServiceFilters
      ensures Valid()
      ensures additionalServiceFilters == ToggleAt(old(additionalServiceFilters), index)
    {
      additionalServiceFilters := ToggleAt(additionalServiceFilters, index);
    }

    /** Deletes entry `index`, keeping the order of the rest. */
    method RemoveServiceFilter(index: int)
      requires Valid()
      modifies this`additionalServiceFilters
      ensures Valid()
      ensures additionalServiceFilters == DropIndex(old(additionalServiceFilters), index)
    {
      additionalServiceFilters := DropIndex(additionalServiceFilters, index);
    }

    method ClearAllServiceFilters()
      modifies this`baseService, this`additionalServiceFilters
      ensures Valid()
      ensures baseService == "" && additionalServiceFilters == []
    {
      baseService := "";
      additionalServiceFilters := [];
    }

    /** The `filteredHostsByService` memo: every address when nothing is
        selected, otherwise the hosts `DecideHost` lets through. */
    method FilteredHostsByService(hosts: seq<Host>) returns (r: set<string>)
      ensures r == Filtered(hosts, baseService, additionalServiceFilters)
    {
      if baseService == "" && |additionalServiceFilters| == 0 {
        return set h | h in hosts :: h.address;
      }
      r := {};
      var i := 0;
      while i < |hosts|
        invariant 0 <= i <= |hosts|
        invariant r == Filtered(hosts[..i], baseService, additionalServiceFilters)
      {
        var host := hosts[i];
        var hostServices := CollectHostServices(host.ports);
        var includeHost := DecideHost(hostServices, baseService, additionalServiceFilters);
        if includeHost {
          r := r + {host.address};
        }
        assert hosts[..i + 1] == hosts[..i] + [host];
        FilteredSnoc(hosts[..i], host, baseService, additionalServiceFilters);
        i := i + 1;
      }
      assert hosts[..i] == hosts;
    }
  }
}
