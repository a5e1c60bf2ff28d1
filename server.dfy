/** The backend: the list of scan results fed by the directory watcher, the
    test for a finished nmap report, the projection of a decoded report onto
    host records, and the input handling of `POST /api/watch`. File reads,
    the XML decoder and the watcher itself are replaced by their results,
    given as arguments. */
module Server {
  import opened Hosts
  import opened Strings

  /** Whether a report file is complete: its text (`None` when it cannot be
      read) contains the closing `</nmaprun>` tag. */
  function IsScanComplete(content: Option<string>): (r: bool)
    ensures r <==> content.Some? && exists i :: OccursAt(content.value, "</nmaprun>", i)
  {
    if content.None? then false
    else
      IncludesIff(content.value, "</nmaprun>");
      Includes(content.value, "</nmaprun>")
  }

  /** One decoded `<port>`: its `portid`, state, service name and first
      script output (`""` when absent). */
  datatype DecodedPort = DecodedPort(portid: string, state: string, service: string, script: string)

  /** One decoded `<host>`: its first address, its status, and the `<port>`
      children of its first `<ports>` (`None` when there is no `<ports>`
      element or it holds no `<port>`). */
  datatype DecodedHost = DecodedHost(address: string, status: string, ports: Option<seq<DecodedPort>>)

  /** The decoded document: no `nmaprun` root, or one with its `<host>`
      children (`None` when there are none). */
  datatype Decoded = NoRun | Run(hosts: Option<seq<DecodedHost>>)

  /** The result of reading and decoding a file: any read or decode error, or
      the document. */
  datatype ParseOutcome = ParseFailed | Parsed(doc: Decoded)

  /** A decoded port as a record; no protocol is taken over. */
  function ProjectPort(p: DecodedPort): (r: Port)
    ensures r.portId == p.portid && r.state == p.state && r.service == p.service && r.script == p.script
    ensures IsOpen(r) <==> p.state == "open"
    ensures r.protocol == "" && PortKey(r) == "tcp/" + p.portid
  {
    Port(p.portid, "", p.state, p.service, p.script)
  }

  function ProjectPorts(ports: seq<DecodedPort>): (r: seq<Port>)
    ensures |r| == |ports|
    ensures forall i :: 0 <= i < |ports| ==> r[i] == ProjectPort(ports[i])
  {
    if ports == [] then [] else [ProjectPort(ports[0])] + ProjectPorts(ports[1..])
  }

  /** A decoded host as a record stamped with `timestamp`; ports default to
      the empty list. */
  function ProjectHost(h: DecodedHost, timestamp: string): (r: Host)
    ensures r.address == h.address && r.status == h.status && r.timestamp == timestamp
    ensures !r.serviceScanned && r.serviceScannedTime == "" && r.serviceScannedTimeStr == ""
    ensures |r.ports| == if h.ports.Some? then |h.ports.value| else 0
    ensures h.ports.Some? ==> r.ports == ProjectPorts(h.ports.value)
    ensures forall p :: p in r.ports ==> p.protocol == ""
  {
    Host(h.address, h.status, if h.ports.Some? then ProjectPorts(h.ports.value) else [], timestamp, false, "", "")
  }

  function ProjectHosts(hosts: seq<DecodedHost>, timestamp: string): (r: seq<Host>)
    ensures |r| == |hosts|
    ensures forall i :: 0 <= i < |hosts| ==> r[i] == ProjectHost(hosts[i], timestamp)
  {
    if hosts == [] then [] else [ProjectHost(hosts[0], timestamp)] + ProjectHosts(hosts[1..], timestamp)
  }

  /** `parseNmapXML`: one record per `<host>`, in document order; nothing for
      a decode error, a missing root or a root without hosts. */
  function ParseNmapXML(outcome: ParseOutcome, timestamp: string): (r: seq<Host>)
    ensures r != [] ==> outcome.Parsed? && outcome.doc.Run? && outcome.doc.hosts.Some?
    ensures outcome.Parsed? && outcome.doc.Run? && outcome.doc.hosts.Some? ==> |r| == |outcome.doc.hosts.value|
    ensures forall h :: h in r ==> h.timestamp == timestamp && !h.serviceScanned
  {
    match outcome
    case ParseFailed => []
    case Parsed(NoRun) => []
    case Parsed(Run(None)) => []
    case Parsed(Run(Some(hosts))) => ProjectHosts(hosts, timestamp)
  }

  /** The records of a parsed file: one per host element, with its address,
      status, and ports in order (none when it has no ports), all stamped
      with the same time; and none at all when there is nothing to read. */
  lemma ParseShape(outcome: ParseOutcome, timestamp: string)
    ensures outcome.ParseFailed? || outcome.doc.NoRun? || outcome.doc.hosts.None? ==> ParseNmapXML(outcome, timestamp) == []
    ensures outcome.Parsed? && outcome.doc.Run? && outcome.doc.hosts.Some? ==>
      var hosts := outcome.doc.hosts.value;
      var r := ParseNmapXML(outcome, timestamp);
      && |r| == |hosts|
      && forall i :: 0 <= i < |hosts| ==>
           && r[i].address == hosts[i].address
           && r[i].status == hosts[i].status
           && r[i].timestamp == timestamp
           && (hosts[i].ports.None? ==> r[i].ports == [])
           && (hosts[i].ports.Some? ==> |r[i].ports| == |hosts[i].ports.value|)
           && (hosts[i].ports.Some? ==> forall j :: 0 <= j < |r[i].ports| ==>
                 r[i].ports[j] == ProjectPort(hosts[i].ports.value[j]))
  {
  }

  /** Every projected port carries no protocol, so the dashboard keys and
      labels it as `tcp`, whatever the report said. */
  lemma ProjectedPortsAreTcp(outcome: ParseOutcome, timestamp: string)
    ensures forall h, p :: h in ParseNmapXML(outcome, timestamp) && p in h.ports ==>
      p.protocol == "" && PortKey(p) == "tcp/" + p.portId
  {
    if outcome.Parsed? && outcome.doc.Run? && outcome.doc.hosts.Some? {
      var hosts := outcome.doc.hosts.value;
      var records := ProjectHosts(hosts, timestamp);
      forall h, p | h in records && p in h.ports
        ensures p.protocol == ""
      {
        var i :| 0 <= i < |hosts| && records[i] == h;
        if hosts[i].ports.Some? {
          var j :| 0 <= j < |h.ports| && h.ports[j] == p;
        }
      }
    }
  }

  /** What one watcher event contributes: the parsed records of a complete
      file, nothing otherwise. */
  function Ingested(content: Option<string>, parsed: ParseOutcome, timestamp: string): (r: seq<Host>)
    ensures r != [] ==> content.Some? && exists i :: OccursAt(content.value, "</nmaprun>", i)
    ensures IsScanComplete(content) ==> r == ParseNmapXML(parsed, timestamp)
    ensures forall h :: h in r ==> h.timestamp == timestamp
  {
    if IsScanComplete(content) then ParseNmapXML(parsed, timestamp) else []
  }

  /** One `add` or `change` event of the watcher: the file's text, what
      decoding it gives, and the time stamp. */
  datatype FileEvent = FileEvent(content: Option<string>, parsed: ParseOutcome, timestamp: string)

  /** The stored list after a sequence of events. */
  function Replay(start: seq<Host>, events: seq<FileEvent>): seq<Host>
    decreases |events|
  {
    if events == [] then start
    else
      var e := events[|events| - 1];
      Replay(start, events[..|events| - 1]) + Ingested(e.content, e.parsed, e.timestamp)
  }

  /** The list only grows: what was stored stays, in place. */
  lemma {:induction false} ReplayAppendOnly(start: seq<Host>, events: seq<FileEvent>)
    ensures |Replay(start, events)| >= |start|
    ensures Replay(start, events)[..|start|] == start
    decreases |events|
  {
    if events != [] {
      ReplayAppendOnly(start, events[..|events| - 1]);
    }
  }

  /** Replaying in two parts is replaying the whole. */
  lemma {:induction false} ReplayConcat(start: seq<Host>, a: seq<FileEvent>, b: seq<FileEvent>)
    ensures Replay(start, a + b) == Replay(Replay(start, a), b)
    decreases |b|
  {
    if b == [] {
      assert a + b == a;
    } else {
      var front, e := b[..|b| - 1], b[|b| - 1];
      assert (a + b)[..|a + b| - 1] == a + front;
      assert (a + b)[|a + b| - 1] == e;
      ReplayConcat(start, a, front);
      var step := Ingested(e.content, e.parsed, e.timestamp);
      assert Replay(start, a + b) == Replay(start, a + front) + step;
      assert Replay(Replay(start, a), b) == Replay(Replay(start, a), front) + step;
    }
  }

  /** An unreadable or unfinished file, or one that yields no host, leaves
      the list as it is. */
  lemma NothingToIngest(start: seq<Host>, e: FileEvent)
    requires !IsScanComplete(e.content) || ParseNmapXML(e.parsed, e.timestamp) == []
    ensures Replay(start, [e]) == start
  {
    assert [e][..0] == [];
  }

  /** No deduplication: an `add` then a `change` of the same complete file
      stores its hosts twice. */
  lemma NoDeduplication(start: seq<Host>, e: FileEvent)
    requires IsScanComplete(e.content)
    ensures Replay(start, [e, e]) == start + ParseNmapXML(e.parsed, e.timestamp) + ParseNmapXML(e.parsed, e.timestamp)
  {
    var r := Ingested(e.content, e.parsed, e.timestamp);
    assert r == ParseNmapXML(e.parsed, e.timestamp);
    assert [e, e][..1] == [e];
    assert [e][..0] == [];
    assert Replay(start, [e]) == start + r;
    assert Replay(start, [e, e]) == Replay(start, [e]) + r;
  }

  /** The answer of `POST /api/watch`. */
  datatype WatchResponse = WatchOk(directory: string) | BadRequest(error: string) | ServerError(error: string)

  /** The `directory` field of the request body: a string, or anything else
      (missing, null, a number, ...). */
  datatype DirectoryField = DirString(path: string) | NotAString

  /** The outcome of `setupWatcher`: done, or a thrown error's message. */
  datatype SetupOutcome = SetupDone | SetupFailed(message: string)

  const InvalidPath: string := "Invalid directory path provided"
  const Inaccessible: string := "Directory does not exist or is not accessible"

  /** The module state of the server that the modelled handlers change. */
  class ResultStore {
    var scanResults: seq<Host>
    var currentWatchDir: string

    /** Start-up: no results; the watched directory from the environment. */
    constructor (envWatchDir: string)
      ensures scanResults == [] && currentWatchDir == envWatchDir
    {
      scanResults := [];
      currentWatchDir := envWatchDir;
    }

    /** The body shared by the `add` and `change` handlers: a complete file
        with at least one host has its records appended after all stored
        ones; anything else leaves the list as it is. */
    method IngestFile(content: Option<string>, parsed: ParseOutcome, timestamp: string)
      modifies this`scanResults
      ensures scanResults == old(scanResults) + Ingested(content, parsed, timestamp)
    {
      if IsScanComplete(content) {
        var results := ParseNmapXML(parsed, timestamp);
        if |results| > 0 {
          scanResults := scanResults + results;
        }
      }
    }

    /** Applies a sequence of watcher events in order. */
    method IngestAll(events: seq<FileEvent>)
      modifies this`scanResults
      ensures scanResults == Replay(old(scanResults), events)
    {
      var i := 0;
      while i < |events|
        invariant 0 <= i <= |events|
        invariant scanResults == Replay(old(scanResults), events[..i])
      {
        IngestFile(events[i].content, events[i].parsed, events[i].timestamp);
        assert events[..i + 1][..i] == events[..i];
        i := i + 1;
      }
      assert events[..i] == events;
    }

    /** `POST /api/watch`: a missing, empty or non-string directory and an
        inaccessible one are refused before the watcher is touched; the
        watched directory changes only once the watcher is set up. */
    method Watch(directory: DirectoryField, isValid: bool, setup: SetupOutcome) returns (response: WatchResponse)
      modifies this`currentWatchDir
      ensures (directory.NotAString? || directory.path == "") ==>
        response == BadRequest(InvalidPath) && currentWatchDir == old(currentWatchDir)
      ensures directory.DirString? && directory.path != "" && !isValid ==>
        response == BadRequest(Inaccessible) && currentWatchDir == old(currentWatchDir)
      ensures directory.DirString? && directory.path != "" && isValid && setup.SetupFailed? ==>
        response == ServerError(setup.message) && currentWatchDir == old(currentWatchDir)
      ensures directory.DirString? && directory.path != "" && isValid && setup.SetupDone? ==>
        response == WatchOk(directory.path) && currentWatchDir == directory.path
    {
      if directory.NotAString? || directory.path == "" {
        return BadRequest(InvalidPath);
      }
      if !isValid {
        return BadRequest(Inaccessible);
      }
      match setup
      case SetupFailed(message) =>
        return ServerError(message);
      case SetupDone =>
        currentWatchDir := directory.path;
        return WatchOk(directory.path);
    }
  }
}
