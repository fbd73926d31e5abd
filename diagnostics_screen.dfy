/**
 * The data logic of the hotspot-setup diagnostics screen: which fetches run, how the
 * disk value is classified, the eight rows shown, the support report or alert produced
 * on "send to support", what is rendered (loading or content) and where "close" leads.
 *
 * The screen's collaborators are parameters: `t` is the i18n lookup (a key and its
 * interpolation values), `animalName` the address-to-name generator, `supportEmailOf`
 * the makers module's `getMakerSupportEmail`. Results of the BLE/SDK fetches are
 * optional inputs.
 */
module HotspotSetupDiagnostics {
  import opened Wrappers
  import opened JsText
  import opened MacFormat

  type Translate = (string, map<string, string>) -> string

  /** `t(key)` with no interpolation values. */
  function T(t: Translate, key: string): string
  {
    t(key, map[])
  }

  // ---------------------------------------------------------------------------
  // Inputs

  /** What `getDiagnosticInfo` reports; every field may be missing. */
  datatype DiagnosticInfo = DiagnosticInfo(
    eth: Option<string>,
    wifi: Option<string>,
    disk: Option<string>,
    natType: Option<string>,
    ip: Option<string>,
    connected: Option<string>,
    dialable: Option<string>)

  /** What `checkFirmwareCurrent` reports, reduced to the field the screen reads. */
  datatype FirmwareCheck = FirmwareCheck(deviceFirmwareVersion: string)

  datatype Maker = Maker(id: int, name: string)

  datatype OnboardingRecord = OnboardingRecord(maker: Option<Maker>)

  /** `diagnostics?.eth` and its siblings. */
  function EthOf(d: Option<DiagnosticInfo>): Option<string> { if d.Some? then d.value.eth else None }
  function WifiOf(d: Option<DiagnosticInfo>): Option<string> { if d.Some? then d.value.wifi else None }
  function DiskOf(d: Option<DiagnosticInfo>): Option<string> { if d.Some? then d.value.disk else None }
  function NatTypeOf(d: Option<DiagnosticInfo>): Option<string> { if d.Some? then d.value.natType else None }
  function IpOf(d: Option<DiagnosticInfo>): Option<string> { if d.Some? then d.value.ip else None }

  /** `firmware?.deviceFirmwareVersion`. */
  function FirmwareVersionOf(f: Option<FirmwareCheck>): Option<string>
  {
    if f.Some? then Some(f.value.deviceFirmwareVersion) else None
  }

  /** `onboardingRecord?.maker?.name`. */
  function MakerNameOf(r: Option<OnboardingRecord>): Option<string>
  {
    if r.Some? && r.value.maker.Some? then Some(r.value.maker.value.name) else None
  }

  /** `onboardingRecord?.maker?.id`. */
  function MakerIdOf(r: Option<OnboardingRecord>): Option<int>
  {
    if r.Some? && r.value.maker.Some? then Some(r.value.maker.value.id) else None
  }

  // ---------------------------------------------------------------------------
  // Translation keys and fixed strings

  const UnavailableKey := "generic.unavailable"
  const OkKey := "generic.ok"
  const DiskReadOnlyKey := "hotspot_settings.diagnostics.disk_read_only"
  const DiskNoDataKey := "hotspot_settings.diagnostics.disk_no_data"
  const DiskInstructionsKey := "hotspot_settings.diagnostics.disk_read_only_instructions"
  const DescriptionInfoKey := "hotspot_settings.diagnostics.desc_info"
  const AlertMakerKey := "support_alert.maker"
  const AlertTitleKey := "support_alert.title"
  const AlertBodyKey := "support_alert.body"

  const ReadOnly := "read-only"
  const DiskOk := "ok"
  const UnknownMaker := "Unknown"
  const WalletNotLinked := "diagnostics_wallet_not_linked"
  const MainTabs := "MainTabs"

  /** The row labels, in the order the rows are shown. */
  const AttributeKeys: seq<string> := [
    "hotspot_settings.diagnostics.hotspot_type",
    "hotspot_settings.diagnostics.firmware",
    "hotspot_settings.diagnostics.app_version",
    "hotspot_settings.diagnostics.wifi_mac",
    "hotspot_settings.diagnostics.eth_mac",
    "hotspot_settings.diagnostics.disk",
    "hotspot_settings.diagnostics.nat_type",
    "hotspot_settings.diagnostics.ip"
  ]

  const HotspotTypeRow := 0
  const FirmwareRow := 1
  const AppVersionRow := 2
  const WifiRow := 3
  const EthRow := 4
  const DiskRow := 5
  const NatTypeRow := 6
  const IpRow := 7

  // ---------------------------------------------------------------------------
  // Fetch gates

  /** The diagnostics fetch runs only once both the address and the firmware check are in. */
  function ShouldFetchDiagnostics(address: Option<string>, firmware: Option<FirmwareCheck>): (b: bool)
    ensures b <==> address.Some? && address.value != "" && firmware.Some?
  {
    Present(address) && firmware.Some?
  }

  /** The onboarding record is looked up only once there is an address. */
  function ShouldFetchOnboardingRecord(address: Option<string>): (b: bool)
    ensures b <==> address.Some? && address.value != ""
  {
    Present(address)
  }

  /** The screen state the diagnostics fetch writes: its result and `diagnosticsError`. */
  datatype FetchState = FetchState(diagnostics: Option<DiagnosticInfo>, diagnosticsError: string)

  /**
   * One run of the diagnostics effect. `attempt` is what `getDiagnosticInfo` does when
   * called: return the info or throw (the thrown value already turned into its string).
   * `error` is `diagnosticsError` before the run.
   */
  function FetchDiagnostics(address: Option<string>, firmware: Option<FirmwareCheck>,
                            attempt: Result<DiagnosticInfo, string>, error: string): (s: FetchState)
    ensures !ShouldFetchDiagnostics(address, firmware) ==> s.diagnostics == None && s.diagnosticsError == error
    ensures ShouldFetchDiagnostics(address, firmware) && attempt.Ok? ==>
              s.diagnostics == Some(attempt.value) && s.diagnosticsError == error
    ensures ShouldFetchDiagnostics(address, firmware) && attempt.Err? ==>
              s.diagnostics == None && s.diagnosticsError == attempt.error
    ensures s.diagnostics.Some? ==> attempt.Ok? && s.diagnostics.value == attempt.value
  {
    if !ShouldFetchDiagnostics(address, firmware) then FetchState(None, error)
    else match attempt
      case Ok(info) => FetchState(Some(info), error)
      case Err(e) => FetchState(None, e)
  }

  // ---------------------------------------------------------------------------
  // Disk classification

  /** The translation key the `diskStatus` switch selects for a raw disk value. */
  function DiskStatusKey(disk: Option<string>): (key: string)
    ensures key == DiskReadOnlyKey <==> disk == Some(ReadOnly)
    ensures key == OkKey <==> disk == Some(DiskOk)
    ensures key == DiskNoDataKey <==> disk != Some(ReadOnly) && disk != Some(DiskOk)
  {
    match disk
    case Some(v) =>
      if v == ReadOnly then DiskReadOnlyKey
      else if v == DiskOk then OkKey
      else DiskNoDataKey
    case None => DiskNoDataKey
  }

  /** The `diskStatus` memo. */
  function DiskStatus(t: Translate, d: Option<DiagnosticInfo>): string
  {
    T(t, DiskStatusKey(DiskOf(d)))
  }

  /** The `diskIsReadOnly` memo; it agrees with the read-only branch of `diskStatus`. */
  function DiskIsReadOnly(d: Option<DiagnosticInfo>): (b: bool)
    ensures b <==> DiskOf(d) == Some(ReadOnly)
    ensures b <==> DiskStatusKey(DiskOf(d)) == DiskReadOnlyKey
  {
    OrElse(DiskOf(d), "") == ReadOnly
  }

  // ---------------------------------------------------------------------------
  // Rows

  /** One row of the "other info" card. */
  datatype LineItem = LineItem(attribute: string, value: string, showFailure: Option<bool>, description: Option<string>)

  /** A row without a failure flag or description. */
  function Row(t: Translate, index: nat, value: string): LineItem
    requires index < |AttributeKeys|
  {
    LineItem(T(t, AttributeKeys[index]), value, None, None)
  }

  /** `field ? format(field) : t('generic.unavailable')`. */
  function ShownOr(t: Translate, field: Option<string>, format: string -> string): string
  {
    if Present(field) then format(field.value) else T(t, UnavailableKey)
  }

  /**
   * The list the effect stores with `setLineItems`, from the effect's inputs
   * (the two disk memos are inputs, as in the effect's dependency list).
   */
  function DeriveLineItems(t: Translate, diagnostics: Option<DiagnosticInfo>, firmware: Option<FirmwareCheck>,
                           version: string, makerName: Option<string>,
                           diskIsReadOnly: bool, diskStatus: string): (items: seq<LineItem>)
    ensures |items| == |AttributeKeys| == 8
    ensures forall i :: 0 <= i < 8 ==> items[i].attribute == T(t, AttributeKeys[i])
    ensures forall i :: 0 <= i < 8 && i != DiskRow ==> items[i].showFailure == None && items[i].description == None
    ensures items[AppVersionRow].value == version
    ensures items[DiskRow].value == diskStatus
    ensures items[DiskRow].showFailure == Some(diskIsReadOnly)
    ensures items[DiskRow].description.Some? <==> diskIsReadOnly
    ensures diskIsReadOnly ==> items[DiskRow].description == Some(T(t, DiskInstructionsKey))
  {
    var wifi := WifiOf(diagnostics);
    var eth := EthOf(diagnostics);
    var natType := NatTypeOf(diagnostics);
    var ip := IpOf(diagnostics);
    [
      Row(t, HotspotTypeRow, OrElse(makerName, T(t, UnavailableKey))),
      Row(t, FirmwareRow, OrElse(FirmwareVersionOf(firmware), T(t, UnavailableKey))),
      Row(t, AppVersionRow, version),
      Row(t, WifiRow, ShownOr(t, wifi, FormatMac)),
      Row(t, EthRow, ShownOr(t, eth, FormatMac)),
      LineItem(T(t, AttributeKeys[DiskRow]), diskStatus, Some(diskIsReadOnly),
               if diskIsReadOnly then Some(T(t, DiskInstructionsKey)) else None),
      Row(t, NatTypeRow, ShownOr(t, natType, Capitalize)),
      Row(t, IpRow, ShownOr(t, ip, Capitalize))
    ]
  }

  /**
   * The rows as the screen computes them from its current state. Each optional row
   * shows `t('generic.unavailable')` when its source field is absent or empty, and
   * otherwise the field itself, formatted as a MAC, or capitalized. The disk row takes
   * one of three values and has the failure flag and the instructions exactly when the
   * raw disk value is "read-only".
   */
  function LineItems(t: Translate, d: Option<DiagnosticInfo>, f: Option<FirmwareCheck>,
                     version: string, record: Option<OnboardingRecord>): (items: seq<LineItem>)
    ensures |items| == 8
    ensures items[HotspotTypeRow].value ==
      (if Present(MakerNameOf(record)) then MakerNameOf(record).value else T(t, UnavailableKey))
    ensures items[FirmwareRow].value ==
      (if Present(FirmwareVersionOf(f)) then f.value.deviceFirmwareVersion else T(t, UnavailableKey))
    ensures items[AppVersionRow].value == version
    ensures items[WifiRow].value ==
      (if Present(WifiOf(d)) then FormatMac(d.value.wifi.value) else T(t, UnavailableKey))
    ensures items[EthRow].value ==
      (if Present(EthOf(d)) then FormatMac(d.value.eth.value) else T(t, UnavailableKey))
    ensures items[NatTypeRow].value ==
      (if Present(NatTypeOf(d)) then Capitalize(d.value.natType.value) else T(t, UnavailableKey))
    ensures items[IpRow].value ==
      (if Present(IpOf(d)) then Capitalize(d.value.ip.value) else T(t, UnavailableKey))
    ensures items[DiskRow].showFailure == Some(true) <==> DiskOf(d) == Some(ReadOnly)
    ensures items[DiskRow].description.Some? <==> DiskOf(d) == Some(ReadOnly)
    ensures DiskOf(d) == Some(ReadOnly) ==>
      items[DiskRow].value == T(t, DiskReadOnlyKey) && items[DiskRow].description == Some(T(t, DiskInstructionsKey))
    ensures DiskOf(d) == Some(DiskOk) ==>
      items[DiskRow].value == T(t, OkKey) && items[DiskRow].showFailure == Some(false)
    ensures DiskOf(d) != Some(ReadOnly) && DiskOf(d) != Some(DiskOk) ==>
      items[DiskRow].value == T(t, DiskNoDataKey) && items[DiskRow].showFailure == Some(false)
      && items[DiskRow].description == None
  {
    DeriveLineItems(t, d, f, version, MakerNameOf(record), DiskIsReadOnly(d), DiskStatus(t, d))
  }

  // ---------------------------------------------------------------------------
  // Support report

  /** The payload handed to `sendReport`. */
  datatype SupportReport = SupportReport(
    eth: string,
    wifi: string,
    fw: string,
    ip: string,
    disk: string,
    gateway: string,
    hotspotMaker: string,
    appVersion: string,
    supportEmail: string,
    descriptionInfo: string,
    diagnosticsError: string)

  /** What pressing "send to support" does: show an alert, or send exactly one report. */
  datatype SendOutcome = ShowAlert(title: string, body: string) | Send(report: SupportReport)

  /**
   * `handleSendReport`. No support email for the maker: an alert naming the maker (or
   * the generic maker text) and no report. Otherwise exactly one report, addressed to
   * that email.
   */
  function HandleSendReport(t: Translate, supportEmailOf: Option<int> -> Option<string>,
                            record: Option<OnboardingRecord>, diagnostics: Option<DiagnosticInfo>,
                            firmware: Option<FirmwareCheck>, address: Option<string>,
                            version: string, diagnosticsError: string): (out: SendOutcome)
    ensures out.ShowAlert? <==> !Present(supportEmailOf(MakerIdOf(record)))
    ensures out.ShowAlert? ==>
      var maker := if Present(MakerNameOf(record)) then MakerNameOf(record).value else T(t, AlertMakerKey);
      out.title == t(AlertTitleKey, map["maker" := maker]) && out.body == t(AlertBodyKey, map["maker" := maker])
    ensures out.Send? ==>
      out.report.supportEmail == supportEmailOf(MakerIdOf(record)).value && out.report.supportEmail != ""
  {
    var supportEmail := supportEmailOf(MakerIdOf(record));
    var descriptionInfo := T(t, DescriptionInfoKey);
    if !Present(supportEmail) then
      var maker := OrElse(MakerNameOf(record), T(t, AlertMakerKey));
      ShowAlert(t(AlertTitleKey, map["maker" := maker]), t(AlertBodyKey, map["maker" := maker]))
    else
      var eth := EthOf(diagnostics);
      var wifi := WifiOf(diagnostics);
      Send(SupportReport(
        eth := if Present(eth) then FormatMac(eth.value) else "",
        wifi := if Present(wifi) then FormatMac(wifi.value) else "",
        fw := OrElse(FirmwareVersionOf(firmware), ""),
        ip := Capitalize(OrElse(IpOf(diagnostics), "")),
        disk := OrElse(DiskOf(diagnostics), ""),
        gateway := OrElse(address, ""),
        hotspotMaker := OrElse(MakerNameOf(record), UnknownMaker),
        appVersion := version,
        supportEmail := supportEmail.value,
        descriptionInfo := descriptionInfo,
        diagnosticsError := diagnosticsError))
  }

  /**
   * The fields of a sent report and their defaults: a missing MAC, firmware, disk or
   * address gives '', a missing maker name gives 'Unknown'. A MAC field is empty
   * exactly when the MAC is missing, because a formatted MAC is never empty.
   */
  lemma {:induction false} ReportFields(t: Translate, supportEmailOf: Option<int> -> Option<string>,
                                        record: Option<OnboardingRecord>, d: Option<DiagnosticInfo>,
                                        f: Option<FirmwareCheck>, address: Option<string>,
                                        version: string, error: string)
    requires Present(supportEmailOf(MakerIdOf(record)))
    ensures var out := HandleSendReport(t, supportEmailOf, record, d, f, address, version, error);
      && out.Send?
      && (out.report.eth == "" <==> !Present(EthOf(d)))
      && (out.report.wifi == "" <==> !Present(WifiOf(d)))
      && (Present(EthOf(d)) ==> out.report.eth == FormatMac(EthOf(d).value))
      && (Present(WifiOf(d)) ==> out.report.wifi == FormatMac(WifiOf(d).value))
      && out.report.fw == (if Present(FirmwareVersionOf(f)) then f.value.deviceFirmwareVersion else "")
      && out.report.ip == (if Present(IpOf(d)) then Capitalize(IpOf(d).value) else "")
      && out.report.disk == (if Present(DiskOf(d)) then DiskOf(d).value else "")
      && out.report.gateway == (if Present(address) then address.value else "")
      && out.report.hotspotMaker == (if Present(MakerNameOf(record)) then MakerNameOf(record).value else UnknownMaker)
      && out.report.hotspotMaker != ""
      && out.report.appVersion == version
      && out.report.descriptionInfo == T(t, DescriptionInfoKey)
      && out.report.diagnosticsError == error
  {
    if Present(EthOf(d)) {
      FormatMacLength(EthOf(d).value);
    }
    if Present(WifiOf(d)) {
      FormatMacLength(WifiOf(d).value);
    }
  }

  /**
   * The report and the rows agree: wherever a row shows a value rather than
   * "unavailable", the report carries that same value.
   */
  lemma ReportMatchesRows(t: Translate, supportEmailOf: Option<int> -> Option<string>,
                          record: Option<OnboardingRecord>, d: Option<DiagnosticInfo>,
                          f: Option<FirmwareCheck>, address: Option<string>,
                          version: string, error: string)
    requires Present(supportEmailOf(MakerIdOf(record)))
    ensures var report := HandleSendReport(t, supportEmailOf, record, d, f, address, version, error).report;
      var items := LineItems(t, d, f, version, record);
      && (Present(MakerNameOf(record)) ==> report.hotspotMaker == items[HotspotTypeRow].value)
      && (Present(FirmwareVersionOf(f)) ==> report.fw == items[FirmwareRow].value)
      && report.appVersion == items[AppVersionRow].value
      && (Present(WifiOf(d)) ==> report.wifi == items[WifiRow].value)
      && (Present(EthOf(d)) ==> report.eth == items[EthRow].value)
      && (Present(IpOf(d)) ==> report.ip == items[IpRow].value)
  {
  }

  // ---------------------------------------------------------------------------
  // Rendering and navigation

  /** What the screen renders: a spinner, or the content with the data it depends on. */
  datatype Screen =
    | Loading
    | Content(title: string, outbound: bool, inbound: bool, items: seq<LineItem>, error: Option<string>)

  function Render(animalName: string -> string, address: Option<string>,
                  diagnostics: Option<DiagnosticInfo>, diagnosticsError: string,
                  items: seq<LineItem>): (s: Screen)
    ensures s.Loading? <==> diagnostics.None? && diagnosticsError == ""
    ensures s.Content? ==> s.items == items
    ensures s.Content? ==> (s.error.Some? <==> diagnosticsError != "") && (s.error.Some? ==> s.error.value == diagnosticsError)
    ensures s.Content? ==> s.title == (if Present(address) then animalName(address.value) else "")
    ensures s.Content? ==> (s.outbound <==> diagnostics.Some? && diagnostics.value.connected == Some("yes"))
    ensures s.Content? ==> (s.inbound <==> diagnostics.Some? && diagnostics.value.dialable == Some("yes"))
  {
    if diagnostics.None? && diagnosticsError == "" then Loading
    else
      Content(
        title := if Present(address) then animalName(address.value) else "",
        outbound := diagnostics.Some? && diagnostics.value.connected == Some("yes"),
        inbound := diagnostics.Some? && diagnostics.value.dialable == Some("yes"),
        items := items,
        error := if diagnosticsError != "" then Some(diagnosticsError) else None)
  }

  /**
   * Without a firmware check (for instance when `getMinFirmware` gives nothing) the
   * diagnostics are never fetched, so a screen with no earlier error stays on the spinner.
   */
  lemma NoFirmwareKeepsLoading(animalName: string -> string, address: Option<string>,
                               attempt: Result<DiagnosticInfo, string>, items: seq<LineItem>)
    ensures var s := FetchDiagnostics(address, None, attempt, "");
      Render(animalName, address, s.diagnostics, s.diagnosticsError, items) == Loading
  {
  }

  /**
   * Once address and firmware are in, the fetch ends the spinner: with the diagnostics,
   * or with the error text shown, unless the error's text is empty.
   */
  lemma FetchEndsLoading(animalName: string -> string, address: Option<string>, firmware: Option<FirmwareCheck>,
                         attempt: Result<DiagnosticInfo, string>, items: seq<LineItem>)
    requires ShouldFetchDiagnostics(address, firmware)
    ensures var s := FetchDiagnostics(address, firmware, attempt, "");
      var screen := Render(animalName, address, s.diagnostics, s.diagnosticsError, items);
      && (attempt.Ok? ==> screen.Content? && screen.error == None)
      && (attempt.Err? && attempt.error != "" ==> screen.Content? && screen.error == Some(attempt.error))
      && (attempt.Err? && attempt.error == "" ==> screen == Loading)
  {
  }

  datatype CloseAction = PopToTop | Navigate(route: string)

  /** `handleClose`: back to the root when the wallet is not linked, otherwise to the main tabs. */
  function CloseDestination(gatewayAction: string): (a: CloseAction)
    ensures a == PopToTop <==> gatewayAction == WalletNotLinked
    ensures a != PopToTop ==> a == Navigate(MainTabs)
  {
    if gatewayAction == WalletNotLinked then PopToTop else Navigate(MainTabs)
  }

  // ---------------------------------------------------------------------------
  // A worked case

  /**
   * Diagnostics with only a wifi MAC "aabbccddeeff", a read-only disk, outbound
   * connectivity and no inbound; no firmware, no maker. The wifi row shows
   * "aa:bb:cc:dd:ee:ff", the disk row fails with instructions, the hotspot type is
   * unavailable, the outbound card succeeds and the inbound card does not.
   */
  lemma ReadOnlyDiskScenario(t: Translate, animalName: string -> string, version: string)
    ensures var d := Some(DiagnosticInfo(None, Some("aabbccddeeff"), Some(ReadOnly), None, None, Some("yes"), Some("no")));
      var record := Some(OnboardingRecord(None));
      var items := LineItems(t, d, None, version, record);
      var screen := Render(animalName, Some("abc123"), d, "", items);
      && items[WifiRow].value == "aa:bb:cc:dd:ee:ff"
      && items[DiskRow].value == T(t, DiskReadOnlyKey)
      && items[DiskRow].showFailure == Some(true)
      && items[DiskRow].description == Some(T(t, DiskInstructionsKey))
      && items[HotspotTypeRow].value == T(t, UnavailableKey)
      && items[FirmwareRow].value == T(t, UnavailableKey)
      && screen.Content? && screen.title == animalName("abc123")
      && screen.outbound && !screen.inbound
  {
    FormatMacExample();
  }
}
