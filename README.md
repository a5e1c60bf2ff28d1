# watcher: a Dafny model of the nmap dashboard's query layer

The watcher project watches a directory for nmap XML reports. Its backend
appends the hosts of every finished report to one list. A React dashboard
polls that list, filters the hosts with two selector chains (ports and
services), groups open ports across the filtered hosts, exports a group's
addresses, and starts service scans for single hosts.

This project models that logic in Dafny and proves what it promises. There
is one module per source file, plus three shared modules:

| module | file | models |
|---|---|---|
| `Hosts` | `hosts.dfy` | host and port records, the `protocol/portId` key with its `tcp` default |
| `Strings` | `strings.dfy` | JavaScript's default string sort order, `join`/`split`, `includes`, character replace, upper-casing |
| `Selectors` | `selectors.dfy` | the AND -> OR -> NOT toggle and removal by index, shared by both chains |
| `PortFilters` | `port_filters.dfy` | `usePortFilters.js` |
| `ServiceFilters` | `service_filters.dfy` | `useServiceFilters.js` |
| `Monitor` | `monitor.dfy` | `NmapMonitor.jsx`: the combined filter, `groupByPorts`, export text and file name |
| `Formatters` | `formatters.dfy` | `formatters.js` (and the identical local `formatProtocolPort` of `NmapMonitor.jsx`) |
| `ScannerService` | `scanner_service.dfy` | `scannerService.js` (and the identical command builder in `useScanResults.js`) |
| `ScanResults` | `scan_results.dfy` | `useScanResults.js` |
| `Server` | `server.dfy` | `backend/server.js`: the result list, `isScanComplete`, the report projection, `/api/watch` |

## How the model is built

The model keeps the source's form:

- Each React hook's state is a Dafny `class` whose fields the handler
  methods assign; the backend's module-level variables are the `ResultStore` class.
- Each loop (the `forEach` passes that fill a `Set` or a `Map`, the `for`
  loops with `break` or early `return`) is a `while` loop. Its invariants
  tie it to a declarative function: `Filtered`, `OpenKeySet`,
  `SelectableServices`, `Grouped` or `Replay`. The properties are then
  proved as lemmas about those functions.
- JavaScript's falsy values (`null`, `undefined`, `""`) are modelled as
  `""`, so "no base port" is `basePort == ""`. The code also compares
  fields with each other: a selected key with the extras' keys, a host's
  keys and services with the selected ones, an address with the filtered
  set. Those keys, services and addresses are never empty in the records
  the backend produces, so folding `null` and `undefined` into `""` changes
  none of these comparisons.
- A JavaScript `Map` keeps insertion order. It is modelled as a Dafny `map`
  together with the sequence of its keys in insertion order.
- Network calls, file reads, the XML decoder and clocks are replaced by
  their outcomes, passed in as arguments:
  - `FetchOutcome` and `ScanResponse` stand for the two HTTP calls;
  - `Option<string>` stands for a file's text, `None` when it cannot be read;
  - `ParseOutcome` stands for what `xml2js` returns;
  - `timestamp`, `scanTimeStr` and `scanTimeISO` are opaque strings.

## Where the code, its tests and its description differ

The model follows the code in each case below.

- **Port sort order.**
  - The selectable ports come from JavaScript's default `sort()`, which
    compares strings character by character. `tcp/443` therefore comes
    before `tcp/80`.
  - The unit test at `frontend/src/hooks/__tests__/usePortFilters.test.js:35-39`
    expects `tcp/22, tcp/80, tcp/443`.
  - `PortFilters.TestAvailablePorts` proves that the only list the code can
    produce for the test's hosts is `tcp/22, tcp/443, tcp/80`, and that it
    is not the one the test expects.
- **Port chain semantics.** The chain is not left-to-right set algebra.
  - An OR entry only rescues a host that fails the base check.
  - AND and NOT entries apply wherever they stand in the list.
  - `PortFilters.FilterOrderIrrelevant` proves that the order of the entries
    does not matter. `PortFilters.TestAndThenOr` gives an example where
    left-to-right algebra would disagree with the code.
- **Service chain semantics.**
  - The service chain ignores OR entries entirely (`ServiceFilters.OrIgnored`).
  - Without a base service it lets every host through, even when extras
    are present (`ServiceFilters.NoBaseKeepsAll`).
- **Backend storage.** The backend only appends:
  - there is no keyed merge and no per-port history;
  - the same file ingested twice is stored twice (`Server.NoDeduplication`);
  - changing the watched directory keeps the earlier results.
- **Scan marker.** The scan-in-flight marker is removed only when starting
  a scan fails. A successful scan leaves it set, and no timeout clears it.
- **Protocols from the backend.** `parseNmapXML` does not copy a port's
  protocol. Every port the backend serves is therefore keyed and labelled
  as `tcp` (`Server.ProjectedPortsAreTcp`).

## Model

| member | source | states |
|---|---|---|
| Hosts.DefaultProtocol | frontend/src/hooks/usePortFilters.js:15 | `protocol \|\| 'tcp'` is never empty, keeps a given protocol and turns an absent one into `tcp` |
| Hosts.PortKeyShape | frontend/src/components/NmapMonitor.jsx:152 | the key `protocol/portId` splits into the defaulted protocol, `/`, and the port id unchanged |
| Hosts.PortKeyInjective | frontend/src/components/NmapMonitor.jsx:152 | when protocols contain no `/`, two ports have the same key iff they agree on defaulted protocol and port id |
| Hosts.Addresses | frontend/src/hooks/usePortFilters.js:57-60 | an address is in the set iff some host has it |
| Hosts.OpenPortKeys | frontend/src/hooks/usePortFilters.js:65-67 | a key is listed iff some open port of the host has it |
| Strings.SortSet | frontend/src/hooks/usePortFilters.js:19 | `Array.from(set).sort()` is strictly sorted in string order and holds exactly the set's elements |
| Strings.SortedUnique | frontend/src/hooks/usePortFilters.js:19 | two strictly sorted lists with the same elements are equal, so the sorted list is fully determined |
| Strings.LessTransitive | frontend/src/hooks/usePortFilters.js:19 | the default string order is transitive |
| Strings.LessTotal | frontend/src/hooks/usePortFilters.js:19 | any two different strings are ordered one way or the other |
| PortFilters.CollectPortKeys | frontend/src/hooks/usePortFilters.js:10-19 | the derived list is strictly sorted and holds exactly the `protocol/portId` keys of open ports, protocol defaulting to `tcp` |
| PortFilters.PortFilterState.UpdateAvailablePorts | frontend/src/hooks/usePortFilters.js:9-21 | for a non-empty host list the available ports are recomputed as above; for an empty list they stay as they were |
| PortFilters.PortFilterState.constructor | frontend/src/hooks/usePortFilters.js:4-6 | no base, no extras, no available ports |
| PortFilters.PortFilterState.HandlePortSelect | frontend/src/hooks/usePortFilters.js:23-29 | without a base the port becomes the base and the extras stay; with a base `{port, AND}` is appended unless an extra has that port, otherwise nothing changes; no duplicate extra ports and no extras without a base |
| Selectors.NextOp | frontend/src/hooks/usePortFilters.js:34-36 | the next operation always differs from the current one |
| Selectors.NextOpCycle | frontend/src/hooks/usePortFilters.js:34-36 | three toggles return to the start, and two successive toggles give different operations |
| PortFilters.ToggleAndToOr | frontend/src/hooks/__tests__/usePortFilters.test.js:65-75 | toggling a fresh AND entry gives OR with the port kept; with `NextOpCycle` this fixes the cycle AND -> OR -> NOT -> AND |
| PortFilters.ToggleAt | frontend/src/hooks/usePortFilters.js:32-40 | same length, entry `index` gets the next operation with its port kept, every other entry unchanged |
| PortFilters.PortFilterState.ToggleOperation | frontend/src/hooks/usePortFilters.js:31-41 | the extras change as `ToggleAt` says, and the state invariant is kept |
| Selectors.DropIndex | frontend/src/hooks/usePortFilters.js:44 | removes exactly entry `index`, keeping the others in order; an out-of-range index changes nothing |
| PortFilters.PortFilterState.RemoveFilter | frontend/src/hooks/usePortFilters.js:43-45 | the extras lose exactly entry `index`, and the state invariant is kept |
| PortFilters.PortFilterState.ClearAllFilters | frontend/src/hooks/usePortFilters.js:47-50 | no base and no extras afterwards |
| PortFilters.NoSelectionKeepsAll | frontend/src/hooks/usePortFilters.js:57-60 | with no base and no extras every host address is in the result |
| PortFilters.OrFilters | frontend/src/hooks/usePortFilters.js:76 | holds exactly the OR entries |
| PortFilters.OtherFilters | frontend/src/hooks/usePortFilters.js:77 | holds exactly the AND and NOT entries |
| PortFilters.DecideHost | frontend/src/hooks/usePortFilters.js:71-105 | the per-host flag, with the base check, the OR rescue and the loop with `break`, is true iff the host passes the base or some OR key, has every AND key and no NOT key |
| PortFilters.PortFilterState.FilteredHosts | frontend/src/hooks/usePortFilters.js:53-115 | the memo's set is exactly the addresses of the hosts the inclusion rule admits |
| PortFilters.FilteredWithinAddresses | frontend/src/hooks/usePortFilters.js:62-111 | the filtered set only holds host addresses |
| PortFilters.FilterOrderIrrelevant | frontend/src/hooks/usePortFilters.js:76-105 | permuting the extras does not change the result |
| PortFilters.OrOnlyRescues | frontend/src/hooks/usePortFilters.js:79-86 | for a host with the base port open, dropping every OR entry changes nothing |
| PortFilters.TestBaseOnly | frontend/src/hooks/__tests__/usePortFilters.test.js:42-51 | base `tcp/80` keeps both test hosts |
| PortFilters.TestAnd | frontend/src/hooks/__tests__/usePortFilters.test.js:53-63 | adding `tcp/443` as AND keeps only `192.168.1.1` |
| PortFilters.TestOr | frontend/src/hooks/__tests__/usePortFilters.test.js:65-75 | toggled to OR, both hosts pass again, because both have the base |
| PortFilters.TestNot | frontend/src/hooks/usePortFilters.js:99-103 | toggled to NOT, only `192.168.1.2` passes |
| PortFilters.TestAndThenOr | frontend/src/hooks/usePortFilters.js:76-105 | AND `tcp/443` then OR `tcp/22` under base `tcp/80` keeps only `192.168.1.1` |
| PortFilters.TestAvailablePorts | frontend/src/hooks/__tests__/usePortFilters.test.js:35-39 | for the test hosts the code's list is `tcp/22, tcp/443, tcp/80`, not the expected `tcp/22, tcp/80, tcp/443` |
| ServiceFilters.CollectServices | frontend/src/hooks/useServiceFilters.js:10-19 | strictly sorted, and holds exactly the services of open ports other than empty and `unknown` |
| ServiceFilters.ServiceFilterState.UpdateAvailableServices | frontend/src/hooks/useServiceFilters.js:9-21 | recomputed as above for a non-empty host list only |
| ServiceFilters.ServiceFilterState.constructor | frontend/src/hooks/useServiceFilters.js:4-6 | no base, no extras, no available services |
| ServiceFilters.ServiceFilterState.HandleServiceSelect | frontend/src/hooks/useServiceFilters.js:23-29 | sets the base first, then appends `{service, AND}` only if no extra has that service; keeps the invariant |
| ServiceFilters.ToggleAt | frontend/src/hooks/useServiceFilters.js:32-40 | same length, entry `index` toggled, all others unchanged |
| ServiceFilters.ToggleAndToOr | frontend/src/hooks/__tests__/useServiceFilters.test.js:65-75 | toggling a fresh AND entry gives OR with the service kept |
| ServiceFilters.ServiceFilterState.ToggleServiceOperation | frontend/src/hooks/useServiceFilters.js:31-41 | the extras change as `ToggleAt` says |
| ServiceFilters.ServiceFilterState.RemoveServiceFilter | frontend/src/hooks/useServiceFilters.js:43-45 | exactly entry `index` is removed, order kept |
| ServiceFilters.ServiceFilterState.ClearAllServiceFilters | frontend/src/hooks/useServiceFilters.js:47-50 | no base and no extras afterwards |
| ServiceFilters.CollectHostServices | frontend/src/hooks/useServiceFilters.js:61-66 | the reduce gives exactly the non-empty services of open ports, `unknown` included |
| ServiceFilters.DecideHost | frontend/src/hooks/useServiceFilters.js:68-88 | the early-return loop admits a host iff there is no base, or it has the base, every AND service and no NOT service |
| ServiceFilters.ServiceFilterState.FilteredHostsByService | frontend/src/hooks/useServiceFilters.js:53-92 | the memo's set is exactly the addresses the service rule admits |
| ServiceFilters.NoBaseKeepsAll | frontend/src/hooks/useServiceFilters.js:54-56 | without a base service every host is included, whatever the extras |
| ServiceFilters.FilteredWithinAddresses | frontend/src/hooks/useServiceFilters.js:58-91 | the filtered set only holds host addresses |
| ServiceFilters.WithoutOr | frontend/src/hooks/useServiceFilters.js:75-85 | holds exactly the entries that are not OR |
| ServiceFilters.OrIgnored | frontend/src/hooks/useServiceFilters.js:75-85 | dropping every OR entry never changes the result |
| ServiceFilters.UnknownCountsForHosts | frontend/src/hooks/useServiceFilters.js:61-66 | a host whose only service is `unknown` matches base `unknown`, though `unknown` is never offered for selection (line 14) |
| ServiceFilters.TestBaseOnly | frontend/src/hooks/__tests__/useServiceFilters.test.js:42-51 | base `http` keeps both test hosts |
| ServiceFilters.TestAnd | frontend/src/hooks/__tests__/useServiceFilters.test.js:53-63 | adding `https` as AND keeps only `192.168.1.1` |
| ServiceFilters.TestOr | frontend/src/hooks/__tests__/useServiceFilters.test.js:65-75 | toggled to OR, the entry has no effect |
| ServiceFilters.TestAvailableServices | frontend/src/hooks/__tests__/useServiceFilters.test.js:32-40 | the list for the test hosts is `http, https, ssh` |
| Monitor.GetFilteredHosts | frontend/src/components/NmapMonitor.jsx:53-68 | an address is in the result iff it is a host's address, and it passes the port chain when a base port is set, and it passes the service chain when a base service is set |
| Monitor.CombinedIsIntersection | frontend/src/components/NmapMonitor.jsx:53-68 | in every state the handlers can reach, the result is the intersection of the two chains' results |
| Monitor.AllowedPorts | frontend/src/components/NmapMonitor.jsx:134-143 | a key is allowed iff a base port is set and the key is the base or the port of an OR extra |
| Monitor.CollectAllowedPorts | frontend/src/components/NmapMonitor.jsx:134-143 | the allowed set is empty without a base port, otherwise the base and the OR extras' ports |
| Monitor.PushHostPorts | frontend/src/components/NmapMonitor.jsx:150-173 | after one host's ports, the map and its key order hold the groups of all pushes so far |
| Monitor.GroupByPorts | frontend/src/components/NmapMonitor.jsx:127-184 | the result is `Grouped` of the hosts, the combined filter and the allowed set |
| Monitor.GroupedSound | frontend/src/components/NmapMonitor.jsx:147-168 | every host in a group is a filtered host that has the group's port open |
| Monitor.GroupedComplete | frontend/src/components/NmapMonitor.jsx:147-168 | every open, admitted port of a filtered host is listed in the group with its key |
| Monitor.GroupedAllowed | frontend/src/components/NmapMonitor.jsx:134-155 | with a base port every group key is the base or an OR extra's port |
| Monitor.GroupedKeysDistinct | frontend/src/components/NmapMonitor.jsx:152-164 | the groups' `protocol/portId` keys are pairwise different |
| Monitor.GroupOfFirstSeen | frontend/src/components/NmapMonitor.jsx:157-168 | a group's `portId`, protocol and `service` come from the first push under its key; its hosts are all pushes under the key, in push order |
| Monitor.KeysInFirstAppearanceOrder | frontend/src/components/NmapMonitor.jsx:157-164 | groups appear in order of first appearance: every push of a later group's key comes after some push of an earlier group's key |
| Monitor.GroupedNonEmpty | frontend/src/components/NmapMonitor.jsx:179-180 | every returned group has at least one host |
| Monitor.NonEmptyGroups | frontend/src/components/NmapMonitor.jsx:179-180 | keeps exactly the groups with hosts, and is the identity when all have hosts |
| Monitor.ExportContent | frontend/src/components/NmapMonitor.jsx:188-190 | an empty group exports the empty text; otherwise the text starts with the first host's address |
| Monitor.ExportLines | frontend/src/components/NmapMonitor.jsx:188-190 | splitting the export text at newlines gives back exactly the group's addresses, so there is one line per host and no trailing newline |
| Monitor.ExportFileName | frontend/src/components/NmapMonitor.jsx:201 | the name is `hosts_`, the protocol, `_`, the port id and `.txt`, each at a fixed position |
| Monitor.ExportFileNameInjective | frontend/src/components/NmapMonitor.jsx:201 | `hosts_{protocol}_{portId}.txt` determines protocol and port id when the protocol has no `_` |
| Monitor.GroupedFileNamesDistinct | frontend/src/components/NmapMonitor.jsx:201 | the groups of one result export to pairwise different file names |
| Strings.SplitJoin | frontend/src/components/NmapMonitor.jsx:188-190 | joining newline-free pieces and splitting again returns the pieces |
| Formatters.FormatProtocolPort | frontend/src/utils/formatters.js:1-3 | the label is the upper-cased protocol (`tcp` when missing), `/`, then the port id unchanged |
| Formatters.MissingProtocolIsTcp | frontend/src/components/NmapMonitor.jsx:122-124 | a missing protocol gives the same label as `tcp`: `TCP/` + port id |
| Formatters.LabelIgnoresProtocolCase | frontend/src/utils/formatters.js:2 | upper-casing the protocol first does not change the label |
| Formatters.LabelOfKey | frontend/src/utils/formatters.js:2 | for a port id without lower-case letters the label is the upper-cased grouping key |
| Formatters.LabelExample | frontend/src/components/monitor/__tests__/HostView.test.jsx:29 | `tcp`, `80` is shown as `TCP/80` |
| Formatters.FormatLastScanTime | frontend/src/utils/formatters.js:5-26 | a stored value wins; otherwise a time string; the result is always one of stored value, time string, rendered time, `Unknown` |
| Formatters.StoredValueWins | frontend/src/utils/formatters.js:7-10 | with a stored value the host's fields do not matter |
| Formatters.UnknownWhenNothingKnown | frontend/src/utils/formatters.js:17-25 | `Unknown` is returned exactly when there is no stored value, no time string and no time |
| Formatters.NeverEmpty | frontend/src/utils/formatters.js:5-26 | the text is never empty when the rendered time is not |
| ScannerService.OpenPortIds | frontend/src/services/scannerService.js:5-7 | an id is listed iff some open port has it; never more ids than ports |
| ScannerService.OpenPortIdsAppend | frontend/src/services/scannerService.js:5-7 | the ids of a concatenation are the ids of its parts in order, so the list follows `host.ports` order |
| ScannerService.OpenPortIdsSingle | frontend/src/services/scannerService.js:5-7 | a port contributes exactly its one id when open and nothing otherwise |
| ScannerService.OutputPath | frontend/src/services/scannerService.js:8 | `/watch/`, then the address with every `.` replaced by `_` and every other character kept, then `-ServiceScan.xml` |
| ScannerService.ScanCommand | frontend/src/services/scannerService.js:5-8 | the command starts with `nmap -sV -Pn -p `, then the open ports' ids joined by commas, in port order; the port list is followed by a space and the address verbatim, then ` -oX ` and the output path |
| ScannerService.PortListRoundTrip | frontend/src/services/scannerService.js:5-7 | splitting the port list at commas gives exactly the open ports' ids, in order |
| ScannerService.NoOpenPorts | frontend/src/services/scannerService.js:5-7 | without open ports the port list is empty and a command is still built |
| ScannerService.OutputNameRoundTrip | frontend/src/services/scannerService.js:8 | the output name has no `.`, and for addresses without `_` turning `_` back into `.` recovers the address |
| ScannerService.OutputPathInjective | frontend/src/services/scannerService.js:8 | two addresses without `_` never share an output file |
| ScannerService.ScanPayload | frontend/src/services/scannerService.js:10-14 | the payload carries the command, `hostAddress` = the host's address, and the scan time unchanged |
| ScannerService.CommandExample | frontend/src/services/scannerService.js:5-8 | ports 80 (open), 22 (closed), 443 (open) on `192.168.1.1` give the port list `80,443` and the output `/watch/192_168_1_1-ServiceScan.xml` |
| ScanResults.MarkScanned | frontend/src/hooks/useScanResults.js:74-84 | same length; hosts with the address get `serviceScanned` and both time fields; every other host is unchanged |
| ScanResults.MarkScannedKeepsOrder | frontend/src/hooks/useScanResults.js:74-84 | addresses and ports keep their positions, and marking twice is marking once |
| ScanResults.MarkedHostShowsTime | frontend/src/hooks/useScanResults.js:74-84 | after marking, a host without a stored value shows the scan's time string |
| ScanResults.ScanResultsState.constructor | frontend/src/hooks/useScanResults.js:4-6 | no hosts, an empty scanning map, no error |
| ScanResults.ScanResultsState.FetchScanResults | frontend/src/hooks/useScanResults.js:8-32 | nothing happens while not watching; a success replaces the list and clears the error; a failure keeps the list and sets `Failed to fetch scan results` |
| ScanResults.ScanErrorMessage | frontend/src/hooks/useScanResults.js:68-71 | a refusal gives the body's `error` when it has one and `Failed to start service scan` otherwise; a thrown error (no answer, or a body that is not JSON) gives its own message |
| ScanResults.ScanError | frontend/src/hooks/useScanResults.js:89 | the stored error is `Failed to start service scan`, `: `, then the message |
| ScanResults.ScanResultsState.StartServiceScan | frontend/src/hooks/useScanResults.js:34-100 | the request is the builder's payload; the result is true iff the scan was accepted. On success the address stays marked and only matching hosts are marked scanned. On failure the error is set, the list is kept and exactly that address leaves the scanning map, which is then as before the call when the address was not in it |
| Server.IsScanComplete | backend/server.js:30-38 | a file counts as complete iff it can be read and its text contains `</nmaprun>` |
| Strings.IncludesIff | backend/server.js:33 | `includes` holds iff the text occurs at some position |
| Server.ProjectPort | backend/server.js:54-59 | a port keeps its id, state, service and script and is open iff its state is `open`; it has no protocol, so its key is `tcp/` + id |
| Server.ProjectPorts | backend/server.js:54-59 | one port record per `<port>`, in order, with no protocol |
| Server.ProjectHost | backend/server.js:51-66 | a host keeps its address and status, takes the file's time stamp, is not marked scanned, and its ports are the `<port>` elements projected one by one, in order (none without `<ports>`) |
| Server.ProjectHosts | backend/server.js:51-67 | one host record per `<host>`, in order |
| Server.ParseNmapXML | backend/server.js:41-72 | records come only from a decoded `nmaprun` with hosts, one per host, all with the given time stamp and unscanned |
| Server.ParseShape | backend/server.js:41-72 | no records for a read or decode error, a missing root or no hosts; otherwise one record per host with its address, status and time stamp, and port `j` the projection of the host's `j`-th `<port>` (none without `<ports>`) |
| Server.ProjectedPortsAreTcp | backend/server.js:54-59 | every served port has no protocol and is keyed `tcp/` + port id |
| Server.Ingested | backend/server.js:88-91 | only a file whose text contains `</nmaprun>` contributes, and then its parsed records |
| Server.ResultStore.constructor | backend/server.js:26-27 | no results; the watched directory is the environment's |
| Server.ResultStore.IngestFile | backend/server.js:86-102 | the parsed records of a complete file are appended after all stored ones; anything else leaves the list |
| Server.ResultStore.IngestAll | backend/server.js:86-102 | a sequence of events leaves the list as `Replay` describes |
| Server.ReplayAppendOnly | backend/server.js:91 | earlier entries are never altered or removed |
| Server.ReplayConcat | backend/server.js:86-102 | ingesting two batches of events one after the other is ingesting them together |
| Server.NothingToIngest | backend/server.js:88-90 | an unreadable or unfinished file, or one with no hosts, leaves the list unchanged |
| Server.NoDeduplication | backend/server.js:86-102 | an `add` then a `change` of the same complete file stores its hosts twice |
| Server.ResultStore.Watch | backend/server.js:111-130 | a missing, empty or non-string directory and an inaccessible one get the two 400 answers; a failed setup gets a 500 with its message; the watched directory changes only after a successful setup |

## Left out

- Rendering: the JSX of `HostView.jsx`, `PortView.jsx`, `FilterPanel/*`,
  `App.jsx` and `main.jsx`, and the one-line display filters in them.
- `backend/src/services/FileWatcher.js`, `frontend/src/services/api.js`,
  `watcherService.js` and `useWatchDirectory.js`. These are process, file
  system and HTTP wrappers, not part of this model.
- `backend/utils/validator.js` is a wrapper over `fs.stat`; its result is
  the `isValid` argument of `Server.ResultStore.Watch`.
- Express routing and static serving, chokidar and the closing of the
  previous watcher, `xml2js` itself, and file reads. Their results are
  arguments, as described above.
- Timers and time: the 30-second polling interval, `new Date()`,
  `toISOString` and `toLocaleString`. Their values are opaque string arguments.
- `localStorage`: the write in `startServiceScan` is not modelled. The value
  it holds is the `stored` argument of `Formatters.FormatLastScanTime`.
- The Blob, URL and DOM mechanics of the export download, and all console logging.
- Concurrency: each watcher event and each handler call is one atomic
  step, applied to the state left by the previous one.
  - Interleaved async handlers are not modelled.
  - React's batching is not modelled, including the stale closure that two
    selections inside one `act` see in
    `frontend/src/hooks/__tests__/usePortFilters.test.js:56-59`.
- `host.ports` missing: the hooks' optional chaining treats it as no ports,
  and the model's hosts always carry a list. The scan command builder would
  throw on a missing list, and that path is not modelled.
- A host without an address: `host.address.replace(...)` throws, and
  `startServiceScan` then records the error and answers false. The model's
  hosts always have an address string, so it builds a command instead.
- Missing fields inside template strings render as `undefined` in
  JavaScript, for example the key `tcp/undefined`. The model uses `""` instead.
- Server.ParseShape: every record of one file carries one time stamp. The
  source calls `new Date()` once per host.
- Strings.Less: the order is on Dafny characters, while JavaScript compares
  UTF-16 code units. The two agree on text inside the Basic Multilingual Plane.
- Formatters.FormatProtocolPort: only ASCII `a`-`z` are upper-cased, while
  `toUpperCase` also maps other letters.
- Formatters.FormatLastScanTime: the `try`/`catch` around date rendering is
  not modelled, because `toLocaleString` of an invalid date returns text
  and does not throw.
- Monitor.GroupOfFirstSeen: the order of hosts within a group is stated as
  push order (`RefsWith`). It is not restated as a separate lemma about
  `scannedHosts` positions.
