/** Display helpers: the `PROTOCOL/portId` label and the choice of text shown
    as a host's last service-scan time. */
module Formatters {
  import opened Hosts
  import opened Strings

  /** The label of a port: the protocol, `tcp` when absent, upper-cased, then
      `/`, then the port id as it is. */
  function FormatProtocolPort(protocol: string, portId: string): (r: string)
    ensures |r| == |DefaultProtocol(protocol)| + 1 + |portId|
    ensures r[|DefaultProtocol(protocol)|] == '/'
    ensures r[|DefaultProtocol(protocol)| + 1..] == portId
    ensures forall i :: 0 <= i < |DefaultProtocol(protocol)| ==> r[i] == UpperChar(DefaultProtocol(protocol)[i])
  {
    ToUpper(DefaultProtocol(protocol)) + "/" + portId
  }

  /** A missing protocol is labelled exactly like `tcp`. */
  lemma MissingProtocolIsTcp(portId: string)
    ensures FormatProtocolPort("", portId) == FormatProtocolPort("tcp", portId) == "TCP/" + portId
  {
  }

  /** The label does not depend on the case of the protocol. */
  lemma LabelIgnoresProtocolCase(protocol: string, portId: string)
    ensures FormatProtocolPort(ToUpper(protocol), portId) == FormatProtocolPort(protocol, portId)
  {
    assert forall i :: 0 <= i < |protocol| ==> UpperChar(UpperChar(protocol[i])) == UpperChar(protocol[i]);
  }

  /** For a port id without lower-case letters the label is the upper-cased
      grouping key of the port. */
  lemma LabelOfKey(p: Port)
    requires NoLowerCase(p.portId)
    ensures FormatProtocolPort(p.protocol, p.portId) == ToUpper(PortKey(p))
  {
    ToUpperDistributes(DefaultProtocol(p.protocol) + "/", p.portId);
    ToUpperDistributes(DefaultProtocol(p.protocol), "/");
    ToUpperKeeps(p.portId);
    assert ToUpper("/") == "/";
  }

  /** The label the host view shows for port 80 over tcp. */
  lemma LabelExample()
    ensures FormatProtocolPort("tcp", "80") == "TCP/80"
  {
  }

  /** The text shown as the last service-scan time. `stored` is the value kept
      in local storage under `scanTime_` + the host's address (`None` when
      there is none); `localized` is the locale rendering of
      `serviceScannedTime`. The first non-empty of the stored value, the
      host's time string and the rendered time wins; `Unknown` otherwise. */
  function FormatLastScanTime(stored: Option<string>, host: Host, localized: string): (r: string)
    ensures stored.Some? && stored.value != "" ==> r == stored.value
    ensures (stored.None? || stored.value == "") && host.serviceScannedTimeStr != "" ==> r == host.serviceScannedTimeStr
    ensures r in {StoredText(stored), host.serviceScannedTimeStr, localized, "Unknown"}
  {
    if stored.Some? && stored.value != "" then stored.value
    else if host.serviceScannedTimeStr != "" then host.serviceScannedTimeStr
    else if host.serviceScannedTime != "" then localized
    else "Unknown"
  }

  function StoredText(stored: Option<string>): string
  {
    if stored.Some? then stored.value else ""
  }

  /** A stored value makes the host record irrelevant. */
  lemma StoredValueWins(value: string, h1: Host, h2: Host, l1: string, l2: string)
    requires value != ""
    ensures FormatLastScanTime(Some(value), h1, l1) == FormatLastScanTime(Some(value), h2, l2) == value
  {
  }

  /** `Unknown` is shown exactly when nothing says when the host was scanned,
      unless one of the sources holds the text `Unknown` itself. */
  lemma UnknownWhenNothingKnown(stored: Option<string>, host: Host, localized: string)
    requires localized != "Unknown"
    requires StoredText(stored) != "Unknown" && host.serviceScannedTimeStr != "Unknown"
    ensures FormatLastScanTime(stored, host, localized) == "Unknown" <==>
      StoredText(stored) == "" && host.serviceScannedTimeStr == "" && host.serviceScannedTime == ""
  {
  }

  /** The result is never empty as long as the time rendering is not. */
  lemma NeverEmpty(stored: Option<string>, host: Host, localized: string)
    requires localized != ""
    ensures FormatLastScanTime(stored, host, localized) != ""
  {
  }
}
