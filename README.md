# Smart-room occupancy automation, modelled in Dafny

The system is a small web service. A camera client reports how many people it sees. The server logs every report and drives an automatic "Main Light" from those reports:

- a report with people in it refreshes the last-motion time and turns the light on;
- a report of an empty room turns the light off, but only once the configured timeout (`timeout_seconds`, 300 seconds when unset or empty) has strictly passed since the last motion;
- all of this happens only while the light's mode is exactly `'auto'`.

A device card in the browser sends toggle requests. Flipping a device's switch forces it to `'manual'`, which ends automation for that device. The mode badge flips the mode between `'auto'` and `'manual'`.

The project models that core:

- `wrappers.dfy` (`Wrappers`): `Option` and `Result`.
- `js.dfy` (`Js`): the ECMAScript built-ins the core depends on.
  - `indexOf` and `includes` on strings.
  - `String.prototype.replace` with a string pattern, including the `$`-patterns of its replacement template.
  - `String(n)` for integers.
  - `parseInt`: leading white space, a sign, a `0x` prefix, the longest digit prefix, and `NaN`.
  - Multiplication of a possibly-`NaN` number, and `>` against one.
- `sorting.dfy` (`Sorting`): code-point lexicographic order on strings, and an insertion sort by any total preorder, proved to return a sorted permutation.
- `schema.dfy` (`Schema`): the three tables of shared/schema.ts (their rows, insert records and column defaults), the range of a Postgres `integer` column, and applying a partial device update.
- `tables.dfy` (`Tables`): every `DatabaseStorage` operation as a function on a value of the whole database.
  - Serial ids; `UNIQUE` on device names and setting keys, as a preserved invariant `Valid`.
  - An insert that violates a constraint or the `integer` range writes nothing.
  - `ORDER BY name`, and `ORDER BY timestamp DESC LIMIT n`.
- `storage.dfy` (`Storage`): the class `DatabaseStorage`, whose fields are the tables. Each writing method updates the fields in place and is proved equal to its `Tables` function.
- `api.dfy` (`Api`): the request bodies each route accepts (the zod input schemas, as parse functions over a JSON object with their round trips), and `buildUrl`. `buildUrl` is a loop proved against a fold over the parameter entries.
- `routes.dfy` (`Routes`): the handlers of server/routes.ts. Each is first written as a step function (state and request to new state and response), with the automation's properties proved as lemmas. Each is then written as a method of the class `Server`, which holds the store and the module-level `lastMotionTime`; every method is proved to agree with its step function.
  - The handlers: occupancy report with automation, device toggle, setting update, and seeding of a database with no settings.
- `devicecard.dfy` (`DeviceCard`): the two requests a device card builds, and what they do once the toggle route applies them. This includes the cross-component property that after a switch flip, no run of occupancy reports changes that device.

Time is an integer parameter `now` (milliseconds). One request is one atomic step.

## Model

| member | source | states |
|---|---|---|
| Js.IndexOf | shared/routes.ts:92-93 | the result is -1 or a position where the pattern occurs, and the pattern occurs at no earlier position |
| Js.Includes | shared/routes.ts:92 | `includes`, defined on `indexOf`; that it holds exactly when the pattern occurs is `Js.IncludesMeansOccurs` |
| Js.IncludesMeansOccurs | shared/routes.ts:92 | `includes` holds exactly when the pattern occurs somewhere in the string |
| Js.Expand | shared/routes.ts:93 | the GetSubstitution expansion of a replacement template; what it does is stated by `Js.ExpandPlain` (a `$`-free template is copied) and `Js.ReplaceWithMatch` (`$&` puts the match back) |
| Js.Replace | shared/routes.ts:93 | `replace` with a string pattern, defined on `Js.IndexOf` and `Js.Expand`; its properties are stated by `Js.ReplacePlain` and `Js.ReplaceWithMatch` |
| Js.ExpandPlain | shared/routes.ts:93 | a replacement without `$` is inserted as it is |
| Js.ReplacePlain | shared/routes.ts:93 | with a `$`-free replacement, `replace` is "prefix before the first match, the replacement, the rest after the match" |
| Js.ReplaceWithMatch | shared/routes.ts:93 | the template `$&` gives the string back unchanged, whatever the pattern |
| Js.NumberToString | shared/routes.ts:93 | `String(n)` for integers: a `-` before the digits of a negative; its round trip with `parseInt` is `Js.ParseIntOfNumberToString` |
| Js.Decimal | shared/routes.ts:93 | `String(n)` of a natural is a non-empty run of decimal digits |
| Js.TrimStart | server/routes.ts:35 | `parseInt` drops exactly a leading run of white space: every dropped character is white space, and the result is the rest of the input, not starting with white space |
| Js.DigitPrefix | server/routes.ts:35 | `parseInt` reads the longest prefix of digits valid in the radix: every character in it is a digit, and the next one is not |
| Js.DigitsValueOfDecimal | server/routes.ts:35 | reading back the decimal digits of `n` gives `n` |
| Js.ParseInt | server/routes.ts:35 | `parseInt` with no radix: skip white space, read one sign, then the digits; stated by `Js.ParseIntMinus`, `Js.ParseIntDigits`, `Js.ParseIntOfNumberToString` and `Js.ParseIntNaN` |
| Js.ParseIntMinus | server/routes.ts:35 | a leading `-` negates what the digits after it give |
| Js.ParseIntDigits | server/routes.ts:35 | a string that starts with a digit is read without skipping or a sign |
| Js.ParseIntOfNumberToString | server/routes.ts:35 | `parseInt(String(n)) == n` for every integer, negative ones included |
| Js.ParseIntNaN | server/routes.ts:35 | after white space and a sign, no leading digit gives `NaN` |
| Js.Times | server/routes.ts:35 | multiplication of a `parseInt` result; that `NaN * 1000` stays `NaN` is stated through `Routes.TimeoutNaN` and `Routes.NaNTimeoutNeverTurnsOff` |
| Js.GreaterThan | server/routes.ts:48 | `>` against a timeout that may be `NaN`: false for `NaN`; stated by `Routes.QuietRoomTimesOut`, `Routes.ElapsedEqualToTimeoutKeepsLightOn` and `Routes.NaNTimeoutNeverTurnsOff` |
| Sorting.LexLeTotal | server/storage.ts:62 | code-point order on names is total |
| Sorting.LexLeTransitive | server/storage.ts:62 | code-point order on names is transitive |
| Sorting.LexLeAntisymmetric | server/storage.ts:62 | code-point order on names is antisymmetric |
| Sorting.SortBy | server/storage.ts:43 | sorting is a permutation of its input |
| Sorting.SortBySorted | server/storage.ts:43 | under a total preorder, the sorted sequence is in order |
| Sorting.PrefixComesFirst | server/storage.ts:43-44 | an element left out of a sorted prefix is never ahead of one in it |
| Schema.NewDevice | shared/schema.ts:15-21 | a new device gets the store's id and time, `isOn` false unless `true` was given, and mode `'auto'` unless one was given |
| Schema.NewDeviceDefaults | shared/schema.ts:18-20 | a device inserted with neither `isOn` nor `mode` is off and automatic |
| Schema.NewLog | shared/schema.ts:8-12 | the log row an insert creates: the store's id, the count, and the time of the insert; stated by `Tables.LogOccupancy` and `Tables.LogOccupancyAppends` |
| Schema.NewSetting | shared/schema.ts:24-29 | the setting row an insert creates: the store's id and the given key, value and description; stated by `Tables.CreateSetting` and `Routes.SeedSetting` |
| Schema.ApplyUpdate | server/storage.ts:70-76 | an update keeps id and name, sets `lastUpdated` to now, and changes `isOn`/`mode` exactly when supplied |
| Tables.Valid | shared/schema.ts:9-26 | the constraints of the three tables: `UNIQUE` names and keys and `serial` ids; kept by every write, as `Tables.LogOccupancy`, `Tables.UpdateDevice`, `Tables.CreateDevice`, `Tables.UpdateSetting` and `Tables.CreateSetting` state |
| Tables.EmptyDbValid | shared/schema.ts:17-26 | the empty database satisfies the id and uniqueness invariant |
| Tables.LogOccupancy | server/storage.ts:35-38 | an in-range count appends one row with the next id and the current time; an out-of-range count writes nothing; the invariant is kept |
| Tables.LogOccupancyAppends | server/storage.ts:35-38 | one new entry at the end with the given count and time and an id above all earlier ones; earlier entries unchanged |
| Tables.GetOccupancyHistory | server/storage.ts:40-45 | `min(limit, size)` entries drawn from the log, newest first, and no omitted entry is newer than a returned one |
| Tables.DefaultHistory | server/storage.ts:40-45 | with the default limit at most 100 entries come back, and the whole log while it has no more than 100 |
| Tables.NewestPrefix | server/storage.ts:43-44 | the first `limit` entries of the log sorted newest first are drawn from the log, in order, and no entry left out is newer than one kept |
| Tables.UniqueByPermutation | shared/schema.ts:17-26 | a unique column stays unique under any reordering of the rows |
| Tables.GetDevices | server/storage.ts:61-63 | all devices exactly once each, ordered by name, with unique names |
| Tables.GetDevicesDetermined | server/storage.ts:61-63 | with unique names, ordering by name leaves no choice: any ordering of the devices by name equals the result of `getDevices` |
| Tables.SortedUniqueEqual | server/storage.ts:61-63 | two orderings by name of the same devices with unique names are equal |
| Tables.FirstIndex | server/storage.ts:65-68 | the position of the first row with that key, or -1 exactly when no row has it |
| Tables.GetDevice | server/storage.ts:65-68 | a device is returned exactly when one with that name exists; it is that device, and it is the only one |
| Tables.UpdateDevice | server/storage.ts:70-76 | only the devices table changes; the device with that name gets the update and every other device is unchanged; the returned row is the updated device, or none when the name is absent; the invariant is kept |
| Tables.UpdateDeviceLookups | server/storage.ts:70-76 | after an update, looking up the updated name gives the returned row, and any other name gives what it gave before |
| Tables.CreateDevice | server/storage.ts:78-81 | a taken name writes nothing; otherwise the new device with the next id is appended; the invariant is kept |
| Tables.GetSettings | server/storage.ts:83-85 | every setting, each exactly once |
| Tables.GetSetting | server/storage.ts:87-90 | a setting is returned exactly when one has that key; it is that setting, and the only one |
| Tables.UpdateSetting | server/storage.ts:92-98 | only the `value` of the setting with that key changes; it is the returned row, or none when the key is absent; the invariant is kept |
| Tables.UpdateSettingLookups | server/storage.ts:92-98 | after an update, the key's setting has the new value and its old id and description; other keys are unchanged |
| Tables.CreateSetting | server/storage.ts:100-103 | a taken key writes nothing; otherwise the new setting with the next id is appended; the invariant is kept |
| Storage.DatabaseStorage.constructor | server/storage.ts:106 | a store on a new database is empty and valid |
| Storage.DatabaseStorage.LogOccupancy | server/storage.ts:35-38 | the fields become the tables `Tables.LogOccupancy` gives, and the returned row is its row |
| Storage.DatabaseStorage.GetOccupancyHistory | server/storage.ts:40-45 | the query on the store's fields is `Tables.GetOccupancyHistory` of `State()`, whose contract states the result |
| Storage.DatabaseStorage.UpdateDevice | server/storage.ts:70-76 | the fields become the tables `Tables.UpdateDevice` gives, and the returned row is its row |
| Storage.DatabaseStorage.GetDevices | server/storage.ts:61-63 | the query on the store's fields is `Tables.GetDevices` of `State()`; its contract and `Tables.GetDevicesDetermined` state the result |
| Storage.DatabaseStorage.GetDevice | server/storage.ts:65-68 | the lookup on the store's fields is `Tables.GetDevice` of `State()`, whose contract states the result |
| Storage.DatabaseStorage.CreateDevice | server/storage.ts:78-81 | the fields become the tables `Tables.CreateDevice` gives, and the returned row is its row |
| Storage.DatabaseStorage.UpdateSetting | server/storage.ts:92-98 | the fields become the tables `Tables.UpdateSetting` gives, and the returned row is its row |
| Storage.DatabaseStorage.GetSettings | server/storage.ts:83-85 | the query on the store's fields is `Tables.GetSettings` of `State()`, whose contract states the result |
| Storage.DatabaseStorage.GetSetting | server/storage.ts:87-90 | the lookup on the store's fields is `Tables.GetSetting` of `State()`, whose contract states the result |
| Storage.DatabaseStorage.CreateSetting | server/storage.ts:100-103 | the fields become the tables `Tables.CreateSetting` gives, and the returned row is its row |
| Api.ParseOccupancy | shared/routes.ts:22 | a body is accepted exactly when `count` is a number of at least 0; that number is the result; a negative count is refused as too small |
| Api.OccupancyBody | shared/routes.ts:22 | the JSON body `{count: n}` of a report; its round trip is `Api.ParseOccupancyBody` |
| Api.ParseOccupancyBody | shared/routes.ts:22 | `{count: n}` parses back to `n` when `n >= 0`, and is refused as too small otherwise |
| Api.ParseToggle | shared/routes.ts:61 | accepted exactly when `isOn` is a boolean and `mode`, if present, is the string `'auto'` or `'manual'`; the result carries those values |
| Api.ToggleBody | client/src/hooks/use-devices.ts:26 | `JSON.stringify` of a toggle input, leaving out an absent mode; its round trip is `Api.ParseToggleBody` |
| Api.ParseToggleBody | shared/routes.ts:61 | every valid toggle input survives the round trip through its JSON body |
| Api.ParseSettingUpdate | shared/routes.ts:79 | accepted exactly when `value` is a string; that string is the result |
| Api.SettingBody | shared/routes.ts:79 | the JSON body `{value: v}` of a settings update; its round trip is `Api.ParseSettingBody` |
| Api.ParseSettingBody | shared/routes.ts:79 | `{value: v}` parses back to `v` |
| Api.ParamString | shared/routes.ts:93 | `String(value)` of a string or an integer parameter; stated by `Js.ParseIntOfNumberToString`, `Api.SubstringMatch` and `Api.ToggleUrl` |
| Api.Substitute | shared/routes.ts:92-94 | one step of the loop: `replace` of the first `:key` when `includes` finds it; stated by `Api.SubstituteAbsent`, `Api.SubstituteFirstOccurrence` and `Api.SubstituteAt` |
| Api.ApplyParams | shared/routes.ts:91-95 | the entries applied one after the other; stated by `Api.ApplyNoEntries`, `Api.ToggleUrl`, `Api.LaterEntryRewritesValue` and `Api.BuildUrl` |
| Api.BuildUrl | shared/routes.ts:88-98 | without params the path is returned; with params, each entry is applied in order as the fold `ApplyParams` says |
| Api.ApplyNoEntries | shared/routes.ts:88-97 | no entries leave the path unchanged |
| Api.SubstituteAbsent | shared/routes.ts:92 | a param whose `:key` does not occur leaves the URL unchanged |
| Api.SubstituteFirstOccurrence | shared/routes.ts:92-93 | only the first `:key` is replaced, by `String(value)` when the value has no `$` |
| Api.SubstituteAt | shared/routes.ts:92-93 | for a value without `$`, with `:key` at a position with no `:` before it, the value goes in at exactly that position |
| Api.FirstAt | shared/routes.ts:92-93 | `indexOf` finds a token at a position when its first character occurs nowhere before |
| Api.ToggleUrl | shared/routes.ts:88-98 | `buildUrl('/api/devices/:name/toggle', {name})` is `/api/devices/` + name + `/toggle`, without any encoding, for every name without `$` |
| Api.SubstringMatch | shared/routes.ts:92-93 | matching is by substring: `:id` also matches inside `:idx` |
| Api.LaterEntryRewritesValue | shared/routes.ts:91-95 | entries apply in order, so a value that holds a later entry's token is itself rewritten |
| Api.DollarValueKeepsPlaceholder | shared/routes.ts:93 | as written: the name `$&` leaves the toggle URL's placeholder in place |
| Api.SubstituteLiteral | shared/routes.ts:92-93 | the step as intended, inserting `String(value)` character for character; stated by `Api.SubstituteLiteralAgrees` and `Api.ToggleUrlLiteral` |
| Api.SubstituteLiteralAgrees | shared/routes.ts:93 | the intended and the written step agree on every value without `$` |
| Api.ApplyParamsLiteral | shared/routes.ts:88-98 | the intended fold of `buildUrl`, with each value inserted verbatim; stated by `Api.ToggleUrlLiteral` |
| Api.ToggleUrlLiteral | shared/routes.ts:88-98 | with the intended step, every name, `$` included, lands verbatim in the toggle URL |
| Routes.TimeoutMs | server/routes.ts:34-35 | the timeout from the setting, with 300 seconds when it is absent or empty; stated by `Routes.TimeoutDefault`, `Routes.TimeoutOfSeconds` and `Routes.TimeoutNaN` |
| Routes.TimeoutDefault | server/routes.ts:35 | an absent or empty `timeout_seconds` gives 300000 ms |
| Routes.TimeoutOfSeconds | server/routes.ts:35 | a setting holding `String(n)` gives `n * 1000` ms |
| Routes.TimeoutNaN | server/routes.ts:35 | a setting with no leading digits gives a `NaN` timeout |
| Routes.OccupancyStep | server/routes.ts:22-67 | one report: parse, log, automate; stated by `Routes.OccupancyStepValid`, `Routes.RejectedReportChangesNothing`, `Routes.OversizedCountFails`, `Routes.AcceptedReportLogged`, `Routes.MotionTurnsLightOn` and `Routes.QuietRoomTimesOut` |
| Routes.Automate | server/routes.ts:33-54 | the automation after the log; stated by `Routes.AutomateOthers`, `Routes.NotAutomatedReport`, `Routes.MotionTurnsLightOn` and `Routes.QuietRoomTimesOut` |
| Routes.OccupancyStepValid | server/routes.ts:22-67 | a report keeps the store's invariant |
| Routes.RejectedReportChangesNothing | server/routes.ts:24-64 | a body the schema refuses is answered with 400 and its issue; nothing is logged or changed |
| Routes.NegativeCountRejected | server/routes.ts:24-63 | a negative count is refused as too small before anything is logged |
| Routes.OversizedCountFails | server/routes.ts:27-65 | a count beyond the `integer` column fails the insert: 500, nothing changed |
| Routes.AcceptedReportLogged | server/routes.ts:27-60 | every accepted report appends exactly one entry with its count and time, in any mode, leaves the settings alone and is answered 200 |
| Routes.OtherDevicesUntouched | server/routes.ts:37-54 | a report changes no device other than the main light |
| Routes.AutomateOthers | server/routes.ts:37-54 | the automation step after logging changes no device other than the main light |
| Routes.NotAutomatedReport | server/routes.ts:37 | without an `'auto'` main light, a report changes no device, keeps the motion time and reports no automation |
| Routes.MotionTurnsLightOn | server/routes.ts:38-45 | people seen in auto mode: motion time becomes now, the light is on afterwards, and a switch to on is reported exactly when it was off |
| Routes.QuietRoomTimesOut | server/routes.ts:46-53 | an empty room in auto mode: the light goes off, and this is reported, exactly when it was on and the elapsed time strictly exceeds the timeout; the motion time is kept |
| Routes.ElapsedEqualToTimeoutKeepsLightOn | server/routes.ts:48 | elapsed time equal to the timeout does not turn the light off |
| Routes.NaNTimeoutNeverTurnsOff | server/routes.ts:35-48 | with a `NaN` timeout, an empty-room report leaves the automatic main light as it was |
| Routes.NaNTimeoutRun | server/routes.ts:35-53 | with a `NaN` timeout, no run of empty-room reports changes the automatic main light: the store stays valid and the timeout still reads as `NaN` after every report |
| Routes.NaNTimeoutStep | server/routes.ts:35-53 | one empty-room report with a `NaN` timeout keeps the store valid, the automatic main light as it was and the timeout reading as `NaN` |
| Routes.QuietReportKeepsTimeout | server/routes.ts:22-67 | an empty-room report keeps the store valid and the timeout setting unchanged |
| Routes.SecondQuietReportTriggersNothing | server/routes.ts:48-52 | after a report turned the light off, the next empty-room report triggers nothing |
| Routes.QuietReportWhileOff | server/routes.ts:46-53 | with the light off in auto mode, an empty-room report only logs: no device and no motion time changes, and nothing is triggered |
| Routes.QuietRunWhileOff | server/routes.ts:46-53 | once the light is off in auto mode, a run of empty-room reports ends with the store valid, the light still off in auto mode, and no device and no motion time changed |
| Routes.QuietRunTriggersNothing | server/routes.ts:46-53 | in such a run, every report, answered in the state the reports before it left, triggers nothing |
| Routes.TenSecondTimeoutExample | server/routes.ts:35-53 | timeout 10 s, light on: an empty-room report 9 s after the last motion triggers nothing, and the next one, 11 s after, answered in the state the first left, turns the light off |
| Routes.NotAutomatedRun | server/routes.ts:37 | without an `'auto'` main light, no run of reports changes any device or the motion time |
| Routes.OtherDevicesUntouchedRun | server/routes.ts:37-54 | through any run of reports the store stays valid and no device but the main light changes |
| Routes.ToggleRouteParam | shared/routes.ts:60 | a request path matches the toggle route only as the route's literal parts around one non-empty segment without `/`, which becomes the name |
| Routes.ToggleRouteParamOf | shared/routes.ts:60 | the path built around a name binds exactly that name when it is one non-empty segment, and matches nothing otherwise |
| Routes.ToggleRouteOfItsPath | shared/routes.ts:60 | the route's own path, taken as a request path, binds the name `:name` |
| Routes.ToggleStep | server/routes.ts:86-99 | the toggle handler; stated by `Routes.ToggleEffect` and `Routes.ToggleOthersUntouched` |
| Routes.ToggleEffect | server/routes.ts:86-99 | a bad body is 400 and an unknown name 404, both with nothing changed; otherwise the device gets the requested `isOn`, and the requested mode only when one was sent, and is returned |
| Routes.ToggleOthersUntouched | server/routes.ts:94 | a toggle leaves every other device unchanged |
| Routes.UpdateSettingStep | server/routes.ts:107-112 | the settings handler; stated by `Routes.UpdateSettingEffect` |
| Routes.UpdateSettingEffect | server/routes.ts:107-112 | an absent key is 404 with nothing changed; otherwise only that setting's value changes, and the updated row is returned |
| Routes.LogAll | server/routes.ts:140-142 | the seeding loop's inserts, one per count; stated by `Routes.LogAllAppends` and `Routes.LogAllStep` |
| Routes.LogAllAppends | server/routes.ts:140-142 | the seeding loop appends one entry per count, in order, and leaves devices and settings alone |
| Routes.LogAllStep | server/routes.ts:140-142 | one more count inserts one more entry on top of the earlier ones |
| Routes.SeedDraws | server/routes.ts:140-141 | the ten counts of the seeded history, each `Math.floor(Math.random() * 3)`, so in 0..2; that each is a valid count is used by `Routes.SeedFreshDatabase` |
| Routes.Seed | server/routes.ts:117-143 | the seeding; stated by `Routes.SeedSkipsConfiguredDatabase`, `Routes.SeedFreshDatabase`, `Routes.SeededLookups` and `Routes.SeedMainLightTaken` |
| Routes.SeedSkipsConfiguredDatabase | server/routes.ts:118-119 | a database with any setting is not seeded |
| Routes.SeedSetting | server/routes.ts:121-125 | with no setting, the timeout setting becomes the one setting, with the next id |
| Routes.SeedTables | server/routes.ts:121-137 | with no setting and neither device name taken, seeding writes that one setting and those two devices, with the next ids, before the history |
| Routes.SeedFreshDatabase | server/routes.ts:117-143 | with no setting and neither device name taken, seeding completes: `timeout_seconds = "10"` with its description, `Main Light` off in `'auto'`, `AC Unit` off in `'manual'`, all with the next ids, and ten log entries with the drawn counts after the earlier ones |
| Routes.SeededLookups | server/routes.ts:117-143 | after such a seeding the timeout setting and both devices are what the lookups find |
| Routes.EmptyDatabaseIsFresh | server/routes.ts:117-119 | the empty database is one such database, so there the setting gets id 1 and the devices ids 1 and 2 |
| Routes.SeedMainLightTaken | server/routes.ts:127-131 | with `Main Light` already taken its insert throws: only the setting is written and the seeding does not complete |
| Routes.Server.constructor | server/routes.ts:8 | the server starts with the store and the motion time it is given |
| Routes.Server.PostOccupancy | server/routes.ts:22-67 | the handler's new store, motion time and response are those of the step function `OccupancyStep`; the invariant is kept |
| Routes.Server.PostToggle | server/routes.ts:86-99 | the handler's new store and response are those of `ToggleStep` |
| Routes.Server.PutSetting | server/routes.ts:107-112 | the handler's new store and response are those of `UpdateSettingStep` |
| Routes.Server.SeedDatabase | server/routes.ts:117-143 | the seeding's new store, and whether it ran to the end, are those of `Seed` |
| DeviceCard.HandleToggle | client/src/components/DeviceCard.tsx:12-18 | the switch's request; stated by `DeviceCard.RequestsValidate`, `DeviceCard.SwitchFlipMakesManual` and `DeviceCard.SwitchFlipEndsAutomation` |
| DeviceCard.HandleModeToggle | client/src/components/DeviceCard.tsx:20-26 | the badge keeps `isOn` and sends `'manual'` exactly when the mode is `'auto'`, and `'auto'` otherwise |
| DeviceCard.RequestsValidate | client/src/components/DeviceCard.tsx:12-26 | both requests pass the toggle route's validation unchanged: the switch's request carries the new position and mode `'manual'`, the badge's the current `isOn` and the flipped mode |
| DeviceCard.RequestBody | client/src/hooks/use-devices.ts:20-26 | the body `toggleDevice` sends: the request without its name; `DeviceCard.RequestsValidate` states that the route reads it back unchanged |
| DeviceCard.RequestUrl | client/src/hooks/use-devices.ts:22 | `buildUrl(api.devices.toggle.path, { name })`; stated by `DeviceCard.SendDelivers` and `DeviceCard.DollarNameMisrouted` |
| DeviceCard.Send | client/src/hooks/use-devices.ts:20-27 | `toggleDevice`: the body is first checked against the toggle input schema, and nothing is sent for a mode other than `'auto'` or `'manual'`; otherwise the POST to `buildUrl(toggle.path, { name })`, routed by the toggle route; stated by `DeviceCard.SendDelivers` and `DeviceCard.DollarNameMisrouted` |
| DeviceCard.SendDelivers | client/src/hooks/use-devices.ts:20-27 | a mode the client-side schema refuses sends nothing; with an accepted mode, a name that is one path segment without `$` reaches the toggle handler for that very device, and any other `$`-free name matches no route |
| DeviceCard.DollarNameMisrouted | client/src/hooks/use-devices.ts:22 | as written, the request of the device `$&`, with an accepted mode, is handled for a device named `:name` |
| DeviceCard.SwitchFlipMakesManual | client/src/components/DeviceCard.tsx:12-18 | the request reaches the route, and a switch flip leaves the device at the new position, in manual mode, and returns it |
| DeviceCard.ModeToggleFlips | client/src/components/DeviceCard.tsx:20-26 | the request reaches the route, and a mode toggle leaves the device's light as it was and flips its mode |
| DeviceCard.ModeToggleTwice | client/src/components/DeviceCard.tsx:24 | two mode toggles restore an `'auto'` or `'manual'` mode, turn any other mode into `'manual'`, and keep the light's state |
| DeviceCard.SwitchFlipEndsAutomation | client/src/components/DeviceCard.tsx:16 | after a switch flip, no run of occupancy reports changes that device, and for the main light no device at all |

## Left out

- The user interface: the dashboard, the chart, the metric cards, the activity log and the JSX of the device card. These are presentation only.
- VisionProcessor.tsx: the object-detection model, the canvas and the capture interval. A report's body is an input of the model. The camera reports only when the count changes, so repeated empty-room reports need not come. The server has no timer of its own (`AUTOMATION_LOOP_INTERVAL` is never used), so the light goes off only when a report arrives after the timeout; the model has no timer either.
- The React Query hooks: fetching, caching and polling. `DeviceCard.Send` stands for the client-side parse and the POST that `toggleDevice` makes; a refused body, which zod throws before any request, is `None`, as is a request no route matches.
- The hourly analytics query, and the history, analytics, device-list and settings-list GET routes. The history, device-list and settings-list routes pass a store lookup straight through (`Tables.DefaultHistory`, `Tables.GetDevices`, `Tables.GetSettings`). The analytics query relies on SQL averages and clock functions.
- Zod's internals and its message texts: a refused body is an `Issue` naming the field. Counts are integers: zod also accepts a fractional count, and the `integer` column would then reject or round it. Floating point is not modelled.
- Routes.UpdateSettingStep: the settings PUT parses its body outside any `try`. A refused body is the response `Unhandled`, standing for whatever the framework does with the thrown error.
- `String(value)` is modelled for integers only. Fractions, exponent notation (from 1e21) and `-0` are out. `parseInt` works on unbounded integers, with no loss of precision above 2^53.
- `Object.entries` order: the params of `buildUrl` are a sequence of entries in the order they are applied. JavaScript puts integer-like keys first; that reordering is not modelled.
- Database collation: `ORDER BY name` is modelled as code-point order. Rows with equal timestamps, and `getSettings`, come in an order the database chooses. The model fixes one such order and states only what the source guarantees.
- Serial ids: a failed insert does not consume an id in the model, while Postgres sequences can leave gaps.
- The only database failures modelled are a count outside the `integer` range and a duplicate name or key. A device update that renames (`Partial<InsertDeviceState>` allows `name`) is out: no route sends one.
- Concurrency and asynchrony: each handler is one atomic step, and one request has one time `now`. `Date.now()` in the handler and the database's `defaultNow()` are taken to be the same instant.
- The random seeded history: the ten draws of `Math.floor(Math.random() * 3)` are a parameter constrained to 0..2. Every row of one seeding gets the same time.
- URL parsing and decoding. `DeviceCard.Send` takes the URL `buildUrl` gives as the request path. `fetch`'s URL parsing (`?`, `#`, `\`, dot segments, percent-encoding) is not modelled. Neither are Express's percent-decoding of `req.params`, case-insensitive matching and optional trailing slash. The settings handler takes its key as already decoded.
- DeviceCard.SwitchFlipMakesManual, DeviceCard.ModeToggleFlips, DeviceCard.ModeToggleTwice and DeviceCard.SwitchFlipEndsAutomation are stated for names that are one path segment without `$` (`DeviceCard.RoutableName`). A name with `$` is mangled by `replace` (`DeviceCard.DollarNameMisrouted`). A name that is empty or holds `/` matches no route (`DeviceCard.SendDelivers`).
- Storage.DatabaseStorage.constructor: stands for the first start on a new, empty database. The tables persist across restarts; a restart is `Routes.Server`'s constructor over the existing store, which is why seeding checks for settings first.
- Strings are sequences of Unicode code points, not of UTF-16 code units. `indexOf`, `replace` and the ordering of names are modelled on code points.

## Findings

| source | as written | input that shows it | evidently intended | confidence | as-written member | corrected member |
|---|---|---|---|---|---|---|
| shared/routes.ts:93 | `url.replace(token, String(value))` treats `$&`, `$$`, `` $` `` and `$'` in the value as replacement patterns | `buildUrl('/api/devices/:name/toggle', {name: '$&'})` gives `/api/devices/:name/toggle` | the value is inserted verbatim, giving `/api/devices/$&/toggle` | high, not executed | Api.DollarValueKeepsPlaceholder | Api.ToggleUrlLiteral |
