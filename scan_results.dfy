/** The dashboard's scan-result state: the host list fetched from the
    backend, the map of addresses with a service scan in flight, and the last
    error; plus the start of a service scan for one host. Network calls are
    replaced by their outcome, given as an argument. */
module ScanResults {
  import opened Hosts
  import opened ScannerService
  import Formatters

  /** The outcome of one `GET /api/scan-results`: the decoded list, or any
      failure (a non-OK status, a network error, a body that is not JSON). */
  datatype FetchOutcome = Fetched(hosts: seq<Host>) | FetchFailed

  /** The outcome of one `POST /api/execute-scan`: accepted; refused with the
      body's `error` field (`""` when the body has none); or failed with the
      message of a thrown error, which covers a request that got no answer
      and a refusal whose body `response.json()` cannot decode. */
  datatype ScanResponse = Accepted | Refused(errorField: string) | Failed(message: string)

  const FetchError: string := "Failed to fetch scan results"
  const DefaultScanError: string := "Failed to start service scan"

  /** The message of the error a rejected scan throws. */
  function ScanErrorMessage(response: ScanResponse): (r: string)
    ensures response.Refused? ==> r != "" && (response.errorField != "" ==> r == response.errorField)
    ensures response.Refused? && response.errorField == "" ==> r == DefaultScanError
    ensures response.Failed? ==> r == response.message
  {
    match response
    case Accepted => ""
    case Refused(field) => if field == "" then DefaultScanError else field
    case Failed(message) => message
  }

  /** The error text the hook stores for a rejected scan. */
  function ScanError(response: ScanResponse): (r: string)
    ensures |r| == 30 + |ScanErrorMessage(response)|
    ensures r[..|DefaultScanError|] == DefaultScanError && r[|DefaultScanError|..30] == ": "
    ensures r[30..] == ScanErrorMessage(response)
  {
    "Failed to start service scan: " + ScanErrorMessage(response)
  }

  /** `prev.map(...)`: every host with `address` gets the service-scan flag
      and both time fields; every other host is kept as it is. */
  function MarkScanned(hosts: seq<Host>, address: string, timeISO: string, timeStr: string): (r: seq<Host>)
    ensures |r| == |hosts|
    ensures forall i :: 0 <= i < |hosts| && hosts[i].address != address ==> r[i] == hosts[i]
    ensures forall i :: 0 <= i < |hosts| && hosts[i].address == address ==>
      r[i] == hosts[i].(serviceScanned := true, serviceScannedTime := timeISO, serviceScannedTimeStr := timeStr)
  {
    if hosts == [] then []
    else
      var h := hosts[0];
      [if h.address == address then h.(serviceScanned := true, serviceScannedTime := timeISO, serviceScannedTimeStr := timeStr) else h]
      + MarkScanned(hosts[1..], address, timeISO, timeStr)
  }

  /** Marking keeps the list's addresses, in order, and marking twice is
      marking once. */
  lemma MarkScannedKeepsOrder(hosts: seq<Host>, address: string, timeISO: string, timeStr: string)
    ensures forall i :: 0 <= i < |hosts| ==>
      MarkScanned(hosts, address, timeISO, timeStr)[i].address == hosts[i].address
      && MarkScanned(hosts, address, timeISO, timeStr)[i].ports == hosts[i].ports
    ensures MarkScanned(MarkScanned(hosts, address, timeISO, timeStr), address, timeISO, timeStr)
         == MarkScanned(hosts, address, timeISO, timeStr)
  {
    var once := MarkScanned(hosts, address, timeISO, timeStr);
    var twice := MarkScanned(once, address, timeISO, timeStr);
    assert forall i :: 0 <= i < |hosts| ==> twice[i] == once[i];
  }

  /** After a scan is marked, the host view shows its time string for every
      host with that address (when nothing is stored for it). */
  lemma MarkedHostShowsTime(hosts: seq<Host>, address: string, timeISO: string, timeStr: string, localized: string, i: int)
    requires 0 <= i < |hosts| && hosts[i].address == address
    requires timeStr != ""
    ensures Formatters.FormatLastScanTime(None, MarkScanned(hosts, address, timeISO, timeStr)[i], localized) == timeStr
  {
  }

  /** The state `useScanResults` keeps. */
  class ScanResultsState {
    var scannedHosts: seq<Host>
    var scanningHosts: map<string, bool>
    var error: Option<string>

    /** The scanning map only ever holds `true`, so the views' truthiness
        test `scanningHosts[address]` is membership in the map, which is what
        `StartServiceScan`'s contract states. */
    ghost predicate Valid()
      reads this
    {
      forall a :: a in scanningHosts ==> scanningHosts[a]
    }

    /** No hosts, nothing scanning, no error. */
    constructor ()
      ensures Valid()
      ensures scannedHosts == [] && scanningHosts == map[] && error == None
    {
      scannedHosts := [];
      scanningHosts := map[];
      error := None;
    }

    /** One run of the polling fetch; nothing happens while not watching. A
        successful fetch replaces the list wholesale and clears the error; a
        failed one keeps the list and records the error. */
    method FetchScanResults(isWatching: bool, outcome: FetchOutcome)
      modifies this`scannedHosts, this`error
      ensures !isWatching ==> scannedHosts == old(scannedHosts) && error == old(error)
      ensures isWatching && outcome.Fetched? ==> scannedHosts == outcome.hosts && error == None
      ensures isWatching && outcome.FetchFailed? ==> scannedHosts == old(scannedHosts) && error == Some(FetchError)
    {
      if !isWatching {
        return;
      }
      match outcome
      case Fetched(hosts) =>
        scannedHosts := hosts;
        error := None;
      case FetchFailed =>
        error := Some(FetchError);
    }

    /** `startServiceScan`: marks the address as scanning, builds the request,
        and then, on acceptance, marks the host locally and answers `true`
        (the address stays marked); on any failure records the error, drops
        exactly that address from the scanning map and answers `false`. */
    method StartServiceScan(host: Host, scanTimeStr: string, scanTimeISO: string, response: ScanResponse)
      returns (started: bool, request: ScanRequest)
      requires Valid()
      modifies this`scanningHosts, this`scannedHosts, this`error
      ensures Valid()
      ensures request == ScanPayload(host, scanTimeISO)
      ensures started <==> response.Accepted?
      ensures response.Accepted? ==>
        && scanningHosts == old(scanningHosts)[host.address := true]
        && scannedHosts == MarkScanned(old(scannedHosts), host.address, scanTimeISO, scanTimeStr)
        && error == old(error)
      ensures !response.Accepted? ==>
        && scanningHosts == old(scanningHosts) - {host.address}
        && scannedHosts == old(scannedHosts)
        && error == Some(ScanError(response))
      ensures started ==> host.address in scanningHosts && scanningHosts[host.address]
      ensures !started ==> host.address !in scanningHosts
      ensures !started && host.address !in old(scanningHosts) ==> scanningHosts == old(scanningHosts)
    {
      scanningHosts := scanningHosts[host.address := true];
      var command := ScanCommand(host);
      request := ScanRequest(command, host.address, scanTimeISO);
      if response.Accepted? {
        scannedHosts := MarkScanned(scannedHosts, host.address, scanTimeISO, scanTimeStr);
        started := true;
      } else {
        error := Some(ScanError(response));
        scanningHosts := scanningHosts - {host.address};
        started := false;
      }
    }
  }
}
