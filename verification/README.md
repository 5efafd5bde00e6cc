# Visitor-info dashboard: verified model of its classifiers and renderer

`script.js` is a browser page. It reads the visitor's user agent and other
browser properties and shows them as labelled sections of HTML. This project
models the pure core of that page in Dafny:

- **User-agent classification.** The browser name is the first of Firefox,
  Chrome, Safari, Edge and Opera whose token occurs in the user agent, else
  "Desconocido". The operating system is the platform hint when it is truthy.
  Otherwise it is the first of Win, Mac, Linux, Android and iOS that occurs,
  else "Sistema Operativo Desconocido". The device type is "Móvil" exactly
  when `/iPhone|iPad|iPod|Android/i` matches, else "Escritorio". Each
  classifier is written as the source's if-chain. `UserAgent.Classify` over a
  rule table is the reference definition, and lemmas connect the two.
- **Placeholder fallbacks.** An absent or falsy probe result is shown as
  "No disponible", never as an empty string.
- **The renderer `createSectionHTML`.** A section is an ordered list of
  key → scalar text or key → one level of named texts. The renderer maps
  each entry to label/value HTML fragments and joins them, byte for byte as
  the template literals write them. `Render.Flatten`, the ordered list of
  shown (label, value) items, is its reference. Lemmas cover the number of
  items, their order, their labels, where each appears in the HTML, and
  the fact that values are not escaped.
- **The browser, system and network sections and the label table.** They
  are built from one `Dashboard.Probe` value that stands for everything the
  page reads from `navigator`, `window` and `Intl`.

Every probe result is a parameter: the user agent, the platform hint, core
count, device memory, connection, battery and WebGL outcomes, and the three
media-query flags. A JavaScript number that may be fractional (device
memory, downlink, battery percentage) is given by its `String()` text
(`Probes.NumText`). Such a number is falsy exactly when that text is "0" or
"NaN". The core count is an integer and is shown by `Text.NatToString`.

Every member is a function, so rendering the same section with the same
label table always yields the same string. Determinism and idempotence hold
by construction and need no lemma.

Case-insensitive matching folds ASCII letters only (`Text.LowerAscii`). This
is exact for the ASCII alternatives of the device pattern: a non-Unicode
JavaScript regular expression never folds a non-ASCII character onto an
ASCII one.

Two things a reader might expect of the renderer do not happen, and the
model does what the code does:
- There is no `labels[subKey]` lookup. A nested leaf whose dotted key
  `key.subKey` has no label is labelled with the bare `subKey`, never with a
  label of `subKey` alone and never with the parent key.
- There is no HTML escaping. Labels and values are put into the HTML
  verbatim (`Render.FragmentShowsValueVerbatim`).

## Model

| member | source | states |
|---|---|---|
| `Text.IndexOf` | script.js:25-33 | `indexOf` returns -1 exactly when the pattern occurs nowhere; otherwise it returns an occurrence with no earlier occurrence |
| `Text.Includes` | script.js:12-16 | `includes` holds exactly when some index is an occurrence |
| `Text.IncludesIgnoringCase` | script.js:51 | the case-insensitive test holds exactly when some window of the subject equals the pattern up to ASCII case |
| `Text.NatToString` | script.js:54 | the decimal text of a count is non-empty, all digits, and has no leading zero |
| `Text.NatToStringRoundTrip` | script.js:54 | reading a count's decimal text back gives the count |
| `Text.NatToStringInjective` | script.js:54 | different counts are shown as different texts |
| `UserAgent.FirstMatch` | script.js:11-17 | the chosen rule is the first whose token occurs: no earlier token occurs, and the chosen one does |
| `UserAgent.Classify` | script.js:11-17 | the answer is the fallback or the name of a rule whose token occurs in the user agent |
| `UserAgent.ClassifyIsRule` | script.js:11-17 | with distinct names, answer k means token k occurs and no earlier token does, in both directions |
| `UserAgent.ClassifyIsFallback` | script.js:11-17 | with distinct names, the fallback is answered exactly when no token occurs |
| `UserAgent.BrowserRulesUnambiguous` | script.js:11-16 | the five browser names and "Desconocido" are pairwise different |
| `UserAgent.DetectBrowser` | script.js:9-18 | the result is one of the six names; "Firefox" wins whenever it occurs; "Chrome" wins over Safari, Edge and Opera when Firefox is absent |
| `UserAgent.DetectBrowserIsFirstMatch` | script.js:11-17 | the browser if-chain equals first-match classification over the rule table |
| `UserAgent.BrowserIsFirstOccurringToken` | script.js:12-16 | the browser is rule k's name if and only if token k occurs and no earlier token does |
| `UserAgent.BrowserUnknownIffNoToken` | script.js:11-17 | "Desconocido" is shown if and only if none of the five tokens occurs |
| `UserAgent.EdgeNeedsNoChromeOrSafari` | script.js:13-15 | "Edge" is reported only when the user agent mentions Edge and none of Firefox, Chrome or Safari |
| `UserAgent.OsRulesUnambiguous` | script.js:25-36 | the five system names and the unknown answer are pairwise different |
| `UserAgent.DetectOs` | script.js:21-37 | a truthy platform hint is returned as is; otherwise the result is one of the six system answers |
| `UserAgent.DetectOsIsFirstMatch` | script.js:25-36 | without a platform hint, the if-chain equals first-match classification over the system rule table |
| `UserAgent.PlatformHintIgnoresUserAgent` | script.js:23-24 | a non-empty platform hint decides the answer whatever the user agent says |
| `UserAgent.OsIsFirstOccurringToken` | script.js:25-35 | without a hint, the system is rule k's name if and only if token k occurs and no earlier token does |
| `UserAgent.OsUnknownIffNoToken` | script.js:25-36 | without a hint, the unknown answer comes if and only if none of Win, Mac, Linux, Android, iOS occurs |
| `UserAgent.AndroidShadowedByLinux` | script.js:29-32 | a user agent containing "Linux" is never reported as Android; "Android" needs Android and none of Win, Mac, Linux |
| `UserAgent.IosShadowedByMac` | script.js:27-34 | "iOS" is reported only for a user agent without "Mac" |
| `UserAgent.DetectDeviceType` | script.js:51 | "Móvil" if and only if one of iPhone, iPad, iPod, Android matches somewhere ignoring case; otherwise "Escritorio" |
| `UserAgent.DeviceTypeIgnoresCase` | script.js:51 | lower-casing the user agent does not change the device type |
| `Probes.OrUnavailable` | script.js:45 | a truthy string is shown as is; an absent or empty one becomes "No disponible"; the result is never empty |
| `Probes.LanguageDisplay` | script.js:53 | a truthy language is shown; otherwise the fallback property is shown, and it reads "undefined" when absent |
| `Probes.CoresDisplay` | script.js:54 | a positive count is shown as decimal text that reads back as the count; absent or zero becomes "No disponible"; the result is never empty |
| `Probes.MemoryDisplay` | script.js:55 | a truthy amount is shown as its text followed by "GB"; otherwise "No disponible"; the result is never empty |
| `Probes.MemoryDisplayInvertible` | script.js:55 | equal memory texts come from equal amounts: the amount can be read back, and the placeholder is never confused with an amount |
| `Probes.ConnectionTypeDisplay` | script.js:106-108 | with a connection and a truthy effective type, that type is shown; otherwise "No disponible"; never empty |
| `Probes.DownlinkDisplay` | script.js:109-111 | with a connection and a truthy downlink, it is shown followed by " Mbps"; otherwise "No disponible"; never empty |
| `Probes.DownlinkDisplayInvertible` | script.js:109-111 | equal downlink texts come from equal downlinks, and the placeholder appears exactly when there is no truthy downlink |
| `Render.Fragment` | script.js:135-138 | no contract of its own: the label/value `div` byte for byte as the template literal writes it; `Render.FragmentShowsValueVerbatim` states what it shows |
| `Render.Join` | script.js:149 | no contract of its own: `join('')`, the concatenation of the parts in order; `Render.JoinAppend` states how it splits |
| `Render.RenderLeaves` | script.js:132-140 | no contract of its own: one fragment per leaf, in order, labelled by the dotted key; `Render.RenderEntryIsJoinOfItems` states it |
| `Render.RenderEntry` | script.js:130-147 | no contract of its own: the leaves' fragments for an object value, one fragment otherwise; `Render.RenderEntryIsJoinOfItems` states it |
| `Render.RenderSection` | script.js:128-150 | no contract of its own: `createSectionHTML`, stated by `Render.RenderIsJoinOfItems`, `Render.RenderAppend`, `Render.RenderShowsItem`, `Render.ScalarItemAt` and `Render.NestedItemAt` |
| `Render.Flatten` | script.js:129-148 | no contract of its own: the shown items entry after entry, the reference for the renderer; `Render.FlattenCount`, `Render.FlattenAppend` and `Render.EntryItemsInPlace` state its shape |
| `Render.Label` | script.js:142 | a label lookup never fails: the table's non-empty label for the lookup key, otherwise the given fallback |
| `Render.EntryItems` | script.js:130-147 | a scalar entry shows one item and a nested entry shows one item per leaf |
| `Render.JoinAppend` | script.js:149 | joining two lists of fragments is joining each and concatenating |
| `Render.LeafCountAppend` | script.js:129-149 | the item count of two sections put together is the sum of their counts |
| `Render.FlattenCount` | script.js:129-149 | a section shows exactly one item per scalar entry plus one per leaf of each nested entry |
| `Render.FlattenAppend` | script.js:129-149 | the items of two sections put together are the first section's items followed by the second's |
| `Render.RenderSectionCons` | script.js:129-149 | a section's HTML is its first entry's HTML followed by the rest's |
| `Render.FragmentsAppend` | script.js:129-149 | the fragments of two item lists put together are the first list's followed by the second's |
| `Render.RenderEntryIsJoinOfItems` | script.js:130-147 | one entry's HTML is the joined fragments of its items |
| `Render.RenderIsJoinOfItems` | script.js:128-150 | the section HTML is exactly the joined fragments of the shown items, in order, with nothing added |
| `Render.RenderAppend` | script.js:128-150 | rendering two sections put together equals concatenating their renderings |
| `Render.EntryItemsInPlace` | script.js:129-149 | entry e's items form one contiguous run, starting right after the items of the entries before it |
| `Render.ScalarItemAt` | script.js:141-146 | a scalar entry's item shows its value as is and is labelled `labels[key]` when non-empty, otherwise the key |
| `Render.NestedItemAt` | script.js:131-139 | nested leaf j's item shows the leaf value and is labelled `labels[key.subKey]` when non-empty, otherwise the bare sub-key, never the parent key |
| `Render.ScalarLabelFromTable` | script.js:142 | a scalar entry whose key has a non-empty label shows that label |
| `Render.NestedLeafLabelFromTable` | script.js:134 | a nested leaf whose dotted key has a non-empty label shows that label |
| `Render.FragmentShowsValueVerbatim` | script.js:135-138 | the value appears unescaped between its span tags |
| `Render.RenderShowsItem` | script.js:128-150 | every shown item's fragment occurs in the section HTML, after the fragments of the items before it |
| `Dashboard.BrowserSection` | script.js:40-46 | the browser section has its five fixed keys, all scalar, and every value except the raw user agent is non-empty |
| `Dashboard.Preferences` | script.js:58-62 | the preferences entry is nested, one level deep, with its three fixed sub-keys in order |
| `Dashboard.YesNo` | script.js:58-60 | a boolean probe shows "Sí" exactly when it holds, otherwise "No" |
| `Dashboard.SystemEntries` | script.js:49-63 | the system section has its nine fixed keys; cores, battery and graphics hold the given texts |
| `Dashboard.BatteryAtRender` | script.js:65-72 | without the Battery API the text is "No disponible"; with it, the text is still "Verificando..." when the section is rendered |
| `Dashboard.GpuAtRender` | script.js:74-80 | the renderer string when WebGL offers it; "No disponible" without the extension; "Verificando..." without a WebGL context |
| `Dashboard.SystemSection` | script.js:49-80 | the system section as rendered keeps its nine fixed keys whatever the probes return |
| `Dashboard.BatteryDescription` | script.js:68 | the battery text reads "<percent>% - Cargando" or "<percent>% - No cargando", and "No disponible" without the API |
| `Dashboard.GpuDescription` | script.js:79 | the renderer string when WebGL offers it, otherwise "No disponible" |
| `Dashboard.SystemSectionIntended` | script.js:49-80 | the corrected system section keeps the same nine fixed keys |
| `Dashboard.NetworkSection` | script.js:104-112 | the network section has its three fixed keys, all scalar and non-empty |
| `Dashboard.BrowserKeysLabelled` | script.js:155-159 | every browser-section key has a non-empty label in the label table `Dashboard.Labels`, the constant written out from script.js:153-191 |
| `Dashboard.SystemKeysLabelled` | script.js:161-171 | every scalar system key and every dotted preference key has a non-empty label |
| `Dashboard.NetworkKeysLabelled` | script.js:188-190 | every network-section key has a non-empty label |
| `Dashboard.ItemsLabelledFromKeys` | script.js:134-142 | when every key and dotted leaf key of a section has a non-empty label, each shown item's label is exactly the table's label for its key or dotted key |
| `Dashboard.SectionsFullyLabelled` | script.js:153-191 | whatever the probes return, each shown item of the browser, system and network sections carries the table's label for its key or dotted key, never a raw key |
| `Dashboard.SystemLeadingCount` | script.js:49-62 | each of the first eight system entries shows exactly one item |
| `Dashboard.SystemItemCount` | script.js:49-63 | the system section always shows eleven items: eight fields, then three preferences |
| `Dashboard.CoresLabel` | script.js:165 | the cores key is labelled "Núcleos CPU" |
| `Dashboard.CoresPlaceholderShown` | script.js:54 | without a core count, item 5 of the system section is "Núcleos CPU" / "No disponible", and its fragment occurs in the HTML |
| `Dashboard.BatteryNeverShownAsWritten` | script.js:66-69 | as written, with the Battery API the battery item always reads "Verificando..." |
| `Dashboard.GpuStuckCheckingAsWritten` | script.js:75-80 | as written, without a WebGL context the graphics item always reads "Verificando..." |
| `Dashboard.IntendedShowsFinalValues` | script.js:65-80 | the corrected section shows the battery description, never "Verificando...", as the battery item, and "No disponible" for graphics without WebGL |

## Left out

- The screen section (script.js:83-94) and the mouse section (script.js:97-101) are not modelled. They hold raw `window`/`screen` probe values, `toFixed` float formatting and event-driven globals. They are rendered by the same `Render.RenderSection`.
- Floating-point formatting is not modelled: `toFixed(0)` for the battery percentage and `String()` of fractional numbers. Such numbers arrive as their text (`Probes.NumText`).
- `Text.NatToString`: plain decimal text only. `String(n)` switches to exponent notation from 10^21, far above any core count.
- The Battery API promise and its resolution (script.js:66-69) are not modelled. Only the outcome at render time is (`Dashboard.BatteryAtRender`).
- WebGL context creation and the debug-renderer query (script.js:75-80) are parameters (`Dashboard.GpuProbe`). A renderer query returning `null` is not modelled (see `Render.RenderEntry` below).
- The DOM writes (script.js:194-198) are I/O. The model stops at the HTML string of each section.
- The theme toggle and `localStorage` (script.js:202-222) are UI and persistence and are not modelled.
- The mouse and click listeners (script.js:225-232) are event-driven overwrites of globals and are not modelled.
- The 15-second `setInterval` refresh (script.js:235-240) is timer scheduling and is not modelled.
- `Render.Label`: keys inherited from `Object.prototype` are not modelled. In JavaScript, a key such as "constructor" would find an inherited function. No section key is such a name.
- `Render.RenderEntry`: a `null` value is not representable in `Render.Value`. The system section can hold one: `gl.getParameter(...)` (script.js:79) may return `null`, `typeof null` is "object" (script.js:131), and `Object.entries(null)` (script.js:132) then throws. The page stops before the system section is written (script.js:195) and, on first load, before the refresh timer is set (script.js:239). `Dashboard.GpuProbe` carries the renderer as an optional string, so this outcome is not modelled.
- `Render.Section`: a section, and each nested value, is a list of key/value pairs and may repeat a key, which a JavaScript object cannot. Every section the page builds has distinct keys (`Dashboard.Keys` of each is a fixed list), so the renderer lemmas hold for more inputs than the page produces.
- Entries keep declaration order. JavaScript's `Object.entries` would put integer-like keys first, and no section key is integer-like.
- Strings are sequences of Unicode scalar values, not UTF-16 code units. All searched tokens are ASCII, so the two views find the same occurrences.
- Permission, storage and media sections, section collapse and keyboard shortcuts are not part of `script.js`. They are not modelled.

## Findings

| source | as written | input that shows it | evidently intended | confidence | as-written member | corrected member |
|---|---|---|---|---|---|---|
| script.js:66-69 | the battery text is set in a promise callback. The callback runs only after `displayVisitorInfo` has rendered the section synchronously, and the updated object is then discarded | any browser that offers `navigator.getBattery` | show "<percent>% - Cargando/No cargando" | high; not executed | `Dashboard.BatteryNeverShownAsWritten` | `Dashboard.IntendedShowsFinalValues` |
| script.js:75-80 | `gpu` starts as "Verificando..." and is replaced only inside `if (gl)` | a browser with WebGL disabled or unavailable | show the placeholder "No disponible" | medium; not executed | `Dashboard.GpuStuckCheckingAsWritten` | `Dashboard.IntendedShowsFinalValues` |
