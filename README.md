# Hotspot setup diagnostics screen, modelled in Dafny

This project models the data logic of the hotspot-setup diagnostics screen of the
Helium hotspot app (`HotspotSetupDiagnosticsScreen.tsx`). The screen fetches a
hotspot's diagnostics over Bluetooth, shows them as eight label/value rows, and can
email a support report to the hotspot maker. The model covers the parts that are
data rather than UI:

- `formatMac`: a raw MAC string cut into six two-character groups joined by `:`;
- the two disk memos, `diskIsReadOnly` and `diskStatus`;
- the eight rows the effect stores with `setLineItems`;
- `handleSendReport`: the choice between the "no support contact" alert and the report, and the report's fields;
- the gate on the diagnostics fetch, and what one run of that fetch writes to the screen state;
- the gate on the onboarding-record lookup;
- the choice between the spinner and the content, and the data shown in the content;
- `handleClose`: pop to the root or go to the main tabs.

Everything is a pure function. The screen's collaborators become parameters:

- `t` is the i18n lookup: a key and its interpolation values give a string.
- `animalName` turns an address into a display name.
- `supportEmailOf` is the makers module's `getMakerSupportEmail`.
- The results of the Bluetooth/SDK calls are optional inputs.
- What `getDiagnosticInfo` does when called is a `Result` input: the info, or the text of the thrown error.

JavaScript truthiness of an optional string (`undefined` and `''` are both falsy) is
`Wrappers.Present`, and `x || fallback` is `Wrappers.OrElse`. lodash's `capitalize`
is modelled over ASCII letters as `upperFirst(toLower(s))`.

Modules:

- `Wrappers` (`wrappers.dfy`): `Option`, `Result`, and the JavaScript reading of an optional string.
- `JsText` (`js_text.dfy`): `join`, `split('')`, `slice` and `capitalize`, with their lemmas.
- `MacFormat` (`mac_format.dfy`): `formatMac` and its properties. These include a round trip with an inverse for full 12-character MACs.
- `HotspotSetupDiagnostics` (`diagnostics_screen.dfy`): the screen's records, disk memos, rows, report, gates, rendering choice and close destination.

The model follows the code in these details:

- `formatMac` is defined for every input. The code does not guard short input; `slice` clamps, so every input is well defined: a short input gives short or empty trailing groups, and characters from index 12 on are dropped.
- The rows do not depend on the onboarding address. The effect's inputs are the diagnostics, the firmware check, `t`, the app version, the maker name and the two disk memos.
- A state with diagnostics but no firmware check cannot arise from the fetch, because the fetch is gated on the firmware check. The worked case `ReadOnlyDiskScenario` uses such a state anyway, because row derivation is defined for every input.

## Model

| member | source | states |
|---|---|---|
| JsText.SliceChars | src/features/hotspots/setup/HotspotSetupDiagnosticsScreen.tsx:28-31 | `s.split('').slice(a, b).join('')` is the substring of `s` from `min(a, |s|)` to `min(b, |s|)`: slice clamps both ends |
| JsText.Capitalize | src/features/hotspots/setup/HotspotSetupDiagnosticsScreen.tsx:179-189 | `capitalize` keeps the length. It upper-cases the first character and lower-cases the rest. Characters that are not ASCII letters are unchanged |
| MacFormat.GroupIsSubstring | src/features/hotspots/setup/HotspotSetupDiagnosticsScreen.tsx:26-32 | group i is `mac[min(2i,|mac|) .. min(2i+2,|mac|)]`, so it has at most 2 characters, and exactly 2 when the input reaches offset 2i+2 |
| MacFormat.FormatMacDigits | src/features/hotspots/setup/HotspotSetupDiagnosticsScreen.tsx:25-33 | the output is exactly six groups joined by `:`. Each group is the clamped substring. Laid end to end, the groups give back the first `min(|mac|, 12)` characters in order |
| MacFormat.FormatMacLength | src/features/hotspots/setup/HotspotSetupDiagnosticsScreen.tsx:25-33 | the output length is `min(|mac|, 12) + 5`, so it is never empty and is 17 for a full MAC |
| MacFormat.FormatMacSeparators | src/features/hotspots/setup/HotspotSetupDiagnosticsScreen.tsx:25-33 | the output holds the colons among the input's first 12 characters, plus exactly five more |
| MacFormat.FormatMacFiveColons | src/features/hotspots/setup/HotspotSetupDiagnosticsScreen.tsx:25-33 | a colon-free input, such as a hex MAC, gives exactly five colons |
| MacFormat.FormatMacRoundTrip | src/features/hotspots/setup/HotspotSetupDiagnosticsScreen.tsx:25-33 | for a 12-character input, the output has the `XX:XX:XX:XX:XX:XX` shape, and dropping the separators gives the input back |
| MacFormat.UnformatRoundTrip | src/features/hotspots/setup/HotspotSetupDiagnosticsScreen.tsx:25-33 | every string of the `XX:XX:XX:XX:XX:XX` shape is `formatMac` of the 12 characters left after dropping its separators |
| MacFormat.FormatMacInjective | src/features/hotspots/setup/HotspotSetupDiagnosticsScreen.tsx:25-33 | two 12-character MACs format alike if and only if they are equal |
| MacFormat.FormatMacExample | src/features/hotspots/setup/HotspotSetupDiagnosticsScreen.tsx:25-33 | `aabbccddeeff` formats as `aa:bb:cc:dd:ee:ff` |
| HotspotSetupDiagnostics.ShouldFetchDiagnostics | src/features/hotspots/setup/HotspotSetupDiagnosticsScreen.tsx:66 | the diagnostics fetch runs if and only if the address is present and non-empty and the firmware check is present |
| HotspotSetupDiagnostics.FetchDiagnostics | src/features/hotspots/setup/HotspotSetupDiagnosticsScreen.tsx:65-75 | gate closed: no diagnostics, error unchanged. Fetch succeeded: the info, error unchanged. Fetch threw: no diagnostics, and the error becomes the thrown value's text. Diagnostics are present only after a successful fetch |
| HotspotSetupDiagnostics.ShouldFetchOnboardingRecord | src/features/hotspots/setup/HotspotSetupDiagnosticsScreen.tsx:79-82 | the onboarding record is looked up if and only if the address is present and non-empty |
| HotspotSetupDiagnostics.DiskStatusKey | src/features/hotspots/setup/HotspotSetupDiagnosticsScreen.tsx:97-106 | `read-only` selects the read-only text, `ok` selects `generic.ok`, and anything else (including absent) selects the no-data text. Each branch holds if and only if its condition does, so exactly one applies |
| HotspotSetupDiagnostics.DiskIsReadOnly | src/features/hotspots/setup/HotspotSetupDiagnosticsScreen.tsx:92-95 | true if and only if the disk value is `read-only`, which is exactly when `diskStatus` takes its read-only branch |
| HotspotSetupDiagnostics.DeriveLineItems | src/features/hotspots/setup/HotspotSetupDiagnosticsScreen.tsx:145-190 | exactly 8 rows, labelled in the fixed order hotspot_type, firmware, app_version, wifi_mac, eth_mac, disk, nat_type, ip. The app-version row shows the version. Only the disk row has a failure flag, equal to `diskIsReadOnly`, and it has a description exactly when the flag is set |
| HotspotSetupDiagnostics.LineItems | src/features/hotspots/setup/HotspotSetupDiagnosticsScreen.tsx:92-199 | each optional row shows `generic.unavailable` when its field is absent or empty. Otherwise it shows the maker name, the firmware version, `formatMac` of wifi/eth, or `capitalize` of NAT type/IP. The disk row follows the three-way mapping and fails with instructions if and only if the disk is `read-only` |
| HotspotSetupDiagnostics.HandleSendReport | src/features/hotspots/setup/HotspotSetupDiagnosticsScreen.tsx:108-133 | the outcome is an alert if and only if the maker has no support email. The alert's title and body name the maker, or `support_alert.maker` if there is no maker name. Otherwise exactly one report is produced, addressed to the non-empty support email |
| HotspotSetupDiagnostics.ReportFields | src/features/hotspots/setup/HotspotSetupDiagnosticsScreen.tsx:120-132 | each report field's value or default: eth/wifi are formatted MACs, or `''` exactly when the MAC is missing. fw, disk and gateway default to `''`, and the maker defaults to `Unknown`, so it is never empty. The ip is capitalized. The version, description and error are passed through |
| HotspotSetupDiagnostics.ReportMatchesRows | src/features/hotspots/setup/HotspotSetupDiagnosticsScreen.tsx:108-190 | wherever a row shows a real value (not "unavailable"), the report carries the same value: maker, firmware, app version, both MACs, IP |
| HotspotSetupDiagnostics.Render | src/features/hotspots/setup/HotspotSetupDiagnosticsScreen.tsx:201-313 | the spinner shows if and only if there are no diagnostics and no error. Otherwise the content shows: the title `animalName(address)` when the address is present and non-empty, else `''`; outbound/inbound success if and only if `connected`/`dialable` is `yes`, the rows, and the error text if and only if it is non-empty |
| HotspotSetupDiagnostics.NoFirmwareKeepsLoading | src/features/hotspots/setup/HotspotSetupDiagnosticsScreen.tsx:57-211 | with no firmware check and no earlier error, the diagnostics are never fetched and the screen stays on the spinner |
| HotspotSetupDiagnostics.FetchEndsLoading | src/features/hotspots/setup/HotspotSetupDiagnosticsScreen.tsx:65-211 | once the gate is open, a successful fetch shows the content without an error. A failed fetch shows its error text, unless that text is empty |
| HotspotSetupDiagnostics.CloseDestination | src/features/hotspots/setup/HotspotSetupDiagnosticsScreen.tsx:84-90 | close pops to the root if and only if the gateway action is `diagnostics_wallet_not_linked`, and otherwise navigates to `MainTabs` |
| HotspotSetupDiagnostics.ReadOnlyDiskScenario | src/features/hotspots/setup/HotspotSetupDiagnosticsScreen.tsx:145-267 | wifi `aabbccddeeff` with a read-only disk, no firmware and no maker: wifi shows `aa:bb:cc:dd:ee:ff`, the disk row fails with instructions, hotspot type and firmware are unavailable, the title is the address's animal name, outbound succeeds and inbound does not |

## Left out

- The Bluetooth/SDK calls (`getMinFirmware`, `checkFirmwareCurrent`, `getOnboardingAddress`, `getDiagnosticInfo`, `useGetOnboardingRecord`) are asynchronous device I/O. Their results are optional inputs. The firmware chain on lines 57-61 is not modelled beyond its optional result.
- `useAsync` sequencing, React re-renders, the memo/effect mechanics and unmount safety are framework behaviour, not data logic.
- `sendReport`, `Alert.alert` and `console.error` are external side effects. The model returns the decision and the payload instead.
- `getMakerSupportEmail`, `animalName` and the i18n `t` belong to modules and libraries outside this file. They are uninterpreted parameters.
- JSX layout, styles, `hp`, list keys and the static texts of the content view are presentation only.
- JsText.Capitalize: lodash uses full Unicode case mapping (where `ß` upper-cases to `SS` and the length changes). The model maps ASCII letters only and leaves every other character unchanged.
- JsText.Chars: JavaScript's `split('')` splits into UTF-16 code units. The model splits into Unicode scalar values, so a MAC containing astral-plane characters would be grouped differently.
- JsText.Slice: only non-negative bounds are modelled. `formatMac` passes no negative offsets.
- HotspotSetupDiagnostics.FirmwareCheck: the firmware check result is reduced to `deviceFirmwareVersion`, the only field the screen reads.
