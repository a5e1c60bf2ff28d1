/** The service-scan request the dashboard sends for one host: an nmap
    command line over the host's open ports, plus the address and the scan
    time. */
module ScannerService {
  import opened Hosts
  import opened Strings

  /** The port ids of the open ports, in `host.ports` order. */
  function OpenPortIds(ports: seq<Port>): (r: seq<string>)
    ensures |r| <= |ports|
    ensures forall id :: id in r <==> exists p :: p in ports && IsOpen(p) && p.portId == id
  {
    if ports == [] then []
    else
      assert forall p :: p in ports <==> p == ports[0] || p in ports[1..];
      (if IsOpen(ports[0]) then [ports[0].portId] else []) + OpenPortIds(ports[1..])
  }

  /** The file nmap writes: the address with every `.` turned into `_`,
      under `/watch/`. */
  function OutputPath(address: string): (r: string)
    ensures |r| == 7 + |address| + 16
    ensures r[..7] == "/watch/" && r[7 + |address|..] == "-ServiceScan.xml"
    ensures forall i :: 0 <= i < |address| ==> r[7 + i] == if address[i] == '.' then '_' else address[i]
  {
    var name := ReplaceChar(address, '.', '_');
    var r := "/watch/" + name + "-ServiceScan.xml";
    assert r[7..7 + |address|] == name;
    r
  }

  /** The command line: `nmap -sV -Pn -p <ports> <address> -oX <path>`. */
  function ScanCommand(host: Host): (r: string)
    ensures |r| >= 16 && r[..16] == "nmap -sV -Pn -p "
    ensures var n := 16 + |Join(OpenPortIds(host.ports), ',')|;
      && n + 1 + |host.address| <= |r|
      && r[16..n] == Join(OpenPortIds(host.ports), ',')
      && r[n..n + 1 + |host.address|] == " " + host.address
      && r[n + 1 + |host.address|..] == " -oX " + OutputPath(host.address)
  {
    var ports := Join(OpenPortIds(host.ports), ',');
    var r := "nmap -sV -Pn -p " + ports + " " + host.address + " -oX " + OutputPath(host.address);
    assert r == "nmap -sV -Pn -p " + ports + (" " + host.address) + (" -oX " + OutputPath(host.address));
    r
  }

  /** The body posted to `/api/execute-scan`. */
  datatype ScanRequest = ScanRequest(command: string, hostAddress: string, scanTime: string)

  /** The request for `host`, with the scan time passed through. */
  function ScanPayload(host: Host, scanTime: string): (r: ScanRequest)
    ensures r.hostAddress == host.address && r.scanTime == scanTime
    ensures r.command == ScanCommand(host)
  {
    ScanRequest(ScanCommand(host), host.address, scanTime)
  }

  /** The ids of a list of ports are the ids of its parts, in order: the
      filter and map keep `host.ports` order. */
  lemma {:induction false} OpenPortIdsAppend(a: seq<Port>, b: seq<Port>)
    ensures OpenPortIds(a + b) == OpenPortIds(a) + OpenPortIds(b)
    decreases |a|
  {
    if a == [] {
      assert a + b == b;
    } else {
      var head := if IsOpen(a[0]) then [a[0].portId] else [];
      assert (a + b)[0] == a[0];
      assert (a + b)[1..] == a[1..] + b;
      assert OpenPortIds(a + b) == head + OpenPortIds(a[1..] + b);
      assert OpenPortIds(a) == head + OpenPortIds(a[1..]);
      OpenPortIdsAppend(a[1..], b);
    }
  }

  /** One port gives its id exactly when it is open. */
  lemma OpenPortIdsSingle(p: Port)
    ensures OpenPortIds([p]) == if IsOpen(p) then [p.portId] else []
  {
    assert [p][1..] == [];
  }

  /** Splitting the port list back at commas gives exactly the open ports'
      ids, in order. */
  lemma PortListRoundTrip(host: Host)
    requires OpenPortIds(host.ports) != []
    requires forall p :: p in host.ports ==> ',' !in p.portId
    ensures Split(Join(OpenPortIds(host.ports), ','), ',') == OpenPortIds(host.ports)
  {
    forall id | id in OpenPortIds(host.ports)
      ensures ',' !in id
    {
    }
    SplitJoin(OpenPortIds(host.ports), ',');
  }

  /** A host without open ports still gets a command: the port list is empty. */
  lemma NoOpenPorts(host: Host)
    requires forall p :: p in host.ports ==> !IsOpen(p)
    ensures ScanCommand(host) == "nmap -sV -Pn -p  " + host.address + " -oX " + OutputPath(host.address)
  {
    if OpenPortIds(host.ports) != [] {
      assert OpenPortIds(host.ports)[0] in OpenPortIds(host.ports);
    }
  }

  /** The file name part holds no `.`, and for addresses without `_` the
      replacement is undone by turning every `_` back into `.`. */
  lemma OutputNameRoundTrip(address: string)
    ensures '.' !in ReplaceChar(address, '.', '_')
    ensures '_' !in address ==> ReplaceChar(ReplaceChar(address, '.', '_'), '_', '.') == address
  {
    var r := ReplaceChar(address, '.', '_');
    assert forall i :: 0 <= i < |r| ==> r[i] != '.';
  }

  /** Two addresses without `_` never share an output file. */
  lemma OutputPathInjective(a: string, b: string)
    requires '_' !in a && '_' !in b
    requires OutputPath(a) == OutputPath(b)
    ensures a == b
  {
    var ra, rb := ReplaceChar(a, '.', '_'), ReplaceChar(b, '.', '_');
    assert |ra| == |rb|;
    assert ra == OutputPath(a)[7..7 + |ra|];
    assert rb == OutputPath(b)[7..7 + |rb|];
    OutputNameRoundTrip(a);
    OutputNameRoundTrip(b);
  }

  /** The host of the hook's unit test, with a closed port added: the
      command lists ports 80 and 443, and nmap writes to
      `/watch/192_168_1_1-ServiceScan.xml`. */
  lemma CommandExample()
    ensures ScanCommand(ExampleHost())
         == "nmap -sV -Pn -p " + "80,443" + " " + ExampleHost().address + " -oX " + OutputPath(ExampleHost().address)
    ensures OutputPath(ExampleHost().address) == "/watch/" + ("192" + "_" + "168" + "_" + "1" + "_" + "1") + "-ServiceScan.xml"
  {
    var ids := OpenPortIds(ExamplePorts());
    assert ids == ["80", "443"] by {
      ExampleOpenPortIds();
    }
    assert Join(ids, ',') == "80,443" by {
      assert ids[1..] == ["443"];
    }
    ExampleOutputName();
  }

  function ExampleHost(): Host
  {
    Host("192" + "." + "168" + "." + "1" + "." + "1", "", ExamplePorts(), "", false, "", "")
  }

  function ExamplePorts(): seq<Port>
  {
    [Port("80", "", "open", "", ""), Port("22", "", "closed", "", ""), Port("443", "", "open", "", "")]
  }

  lemma ExampleOpenPortIds()
    ensures OpenPortIds(ExamplePorts()) == ["80", "443"]
  {
    var ports := ExamplePorts();
    assert ports[1..][1..] == [ports[2]];
    assert OpenPortIds(ports[1..][1..]) == ["443"];
    assert OpenPortIds(ports[1..]) == ["443"];
  }

  /** Replacing in two parts is replacing in the whole. */
  lemma {:induction false} ReplaceCharAppend(s: string, t: string, from: char, to: char)
    ensures ReplaceChar(s + t, from, to) == ReplaceChar(s, from, to) + ReplaceChar(t, from, to)
    decreases |s|
  {
    if s == [] {
      assert s + t == t;
    } else {
      assert (s + t)[0] == s[0];
      assert (s + t)[1..] == s[1..] + t;
      ReplaceCharAppend(s[1..], t, from, to);
    }
  }

  /** A string without `from` is left as it is. */
  lemma ReplaceCharAbsent(s: string, from: char, to: char)
    requires from !in s
    ensures ReplaceChar(s, from, to) == s
  {
    assert forall i :: 0 <= i < |s| ==> s[i] != from;
  }

  lemma ExampleOutputName()
    ensures ReplaceChar(ExampleHost().address, '.', '_') == "192" + "_" + "168" + "_" + "1" + "_" + "1"
  {
    var d := ".";
    assert ReplaceChar(d, '.', '_') == "_";
    ReplaceCharAbsent("192", '.', '_');
    ReplaceCharAbsent("168", '.', '_');
    ReplaceCharAbsent("1", '.', '_');
    ReplaceCharAppend("192", d, '.', '_');
    ReplaceCharAppend("192" + d, "168", '.', '_');
    ReplaceCharAppend("192" + d + "168", d, '.', '_');
    ReplaceCharAppend("192" + d + "168" + d, "1", '.', '_');
    ReplaceCharAppend("192" + d + "168" + d + "1", d, '.', '_');
    ReplaceCharAppend("192" + d + "168" + d + "1" + d, "1", '.', '_');
  }


}
