/** The durable claim marker and the sealed reports it carries. Sealing is a box that opens only
    for the identity key and the deployment it was made for. */
module ClaimReports {
  import opened Options
  import opened Dispatching
  import opened HostTree

  datatype Protocol = V1 | V2 | V3

  /** The empty token is 0. */
  datatype Report =
    | Result(protocol: Protocol, token: int, state: ResultState)
    | Cancelled(protocol: Protocol, token: int)
  {
    /** The reports that claim a confirmed cleanup. */
    predicate Ordinary() {
      Result? ==> state != ResultCleanupUnconfirmed
    }
  }

  datatype Pairing = Pairing(key: int, server: int, agent: int)

  datatype Sealed = Sealed(key: int, deployment: int, server: int, agent: int, report: Report)

  function Seal(pairing: Pairing, deployment: int, report: Report): Sealed {
    Sealed(pairing.key, deployment, pairing.server, pairing.agent, report)
  }

  function DecodeReport(pairing: Pairing, deployment: int, sealed: Sealed): Option<Report> {
    if sealed.key != pairing.key || sealed.deployment != deployment then None
    else if sealed.server != pairing.server || sealed.agent != pairing.agent then None
    else if sealed.report.Result? && sealed.report.state == ResultCleanupUnconfirmed
            && sealed.report.protocol != V3 then None
    else if sealed.report.token == 0 || sealed.report.protocol == V1 then None
    else Some(sealed.report)
  }

  function DecodeTerminalReport(pairing: Pairing, deployment: int, sealed: Sealed): Option<Report> {
    var report := DecodeReport(pairing, deployment, sealed);
    if report.Some? && !report.value.Ordinary() then None else report
  }

  function DecodeCleanupReport(pairing: Pairing, deployment: int, sealed: Sealed): Option<Report> {
    var report := DecodeReport(pairing, deployment, sealed);
    if report.Some? && (report.value.Ordinary() || report.value.protocol != V3) then None else report
  }

  /** A sealed report comes back for its own pairing and deployment and for no other, through
      exactly one of the two decoders. */
  lemma SealedReportComesBack(pairing: Pairing, deployment: int, report: Report,
                              other: Pairing, id: int)
    requires report.token != 0 && report.protocol != V1
    requires !report.Ordinary() ==> report.protocol == V3
    ensures var sealed := Seal(pairing, deployment, report);
            && (DecodeTerminalReport(other, id, sealed) == Some(report)
                <==> other == pairing && id == deployment && report.Ordinary())
            && (DecodeCleanupReport(other, id, sealed) == Some(report)
                <==> other == pairing && id == deployment && !report.Ordinary())
            && (DecodeTerminalReport(other, id, sealed).None? || DecodeCleanupReport(other, id, sealed).None?)
  {
  }

  /** `current-claim.json`. The token hash is injective, so the model keeps the token. */
  datatype Marker = Marker(
    deployment: int,
    token: int,
    cleanup: Option<Sealed>,
    runtime: int,
    cleanupAcknowledged: bool,
    hostCleanup: bool,
    hostRoots: seq<Root>,
    terminal: Option<Sealed>,
    terminalAcknowledged: bool)
  {
    predicate HasReport() {
      cleanup.Some? || terminal.Some?
    }

    /** The report the marker carries belongs to the claim the marker names. */
    predicate WellFormed() {
      && (cleanup.Some? ==>
            && terminal.None?
            && cleanup.value.deployment == deployment && cleanup.value.report.token == token
            && !cleanup.value.report.Ordinary())
      && (terminal.Some? ==>
            && terminal.value.deployment == deployment && terminal.value.report.token == token
            && terminal.value.report.Ordinary())
      && (hostCleanup ==> terminal.Some?)
      && (!hostCleanup ==> hostRoots == [])
    }

    /** How much of the recovery is left. */
    function Left(): nat {
      1 + |hostRoots| + (if hostCleanup then 1 else 0)
      + (if terminal.Some? && terminal.value.report.Result? then 1 else 0)
      + (if terminal.Some? && !terminalAcknowledged then 1 else 0)
      + (if cleanup.Some? && !cleanupAcknowledged then 1 else 0)
    }
  }

  function LegacyMarker(deployment: int, token: int): Marker {
    Marker(deployment, token, None, 0, false, false, [], None, false)
  }

  function CleanupMarker(deployment: int, token: int, sealed: Sealed, runtime: int, acknowledged: bool): Marker {
    Marker(deployment, token, Some(sealed), runtime, acknowledged, false, [], None, false)
  }

  function TerminalMarker(deployment: int, token: int, sealed: Sealed): Marker {
    Marker(deployment, token, None, 0, false, false, [], Some(sealed), false)
  }

  function HostCleanupMarker(deployment: int, token: int, sealed: Sealed, roots: seq<Root>): Marker {
    Marker(deployment, token, None, 0, false, true, roots, Some(sealed), false)
  }

  /** What is left of the recovery a marker stands for; nothing is left without a marker. */
  function Left(marker: Option<Marker>): nat {
    if marker.None? then 0 else marker.value.Left()
  }
}
