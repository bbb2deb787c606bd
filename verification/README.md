# FocusLock desktop — a verified model of its core logic

FocusLock is a desktop focus timer. You pick applications from the apps installed or running on
Windows, turn them into block rules, and run timed focus sessions. The desktop shell is a Tauri
application whose React client talks either to Tauri commands (desktop mode) or to an Express
back end (web mode). This project models the deterministic logic of that system in Dafny and
proves what it promises:

- `Storage` (storage.dfy): the back end's in-memory store `MemStorage`. It is a class with four
  JavaScript-`Map` tables. `JsMap` (js_map.dfy) models the tables: insertion order plus entries.
  The store's methods insert, delete, merge-update, upsert and query in place.
- `Schema` (schema.dfy): the closed enumerations and the zod insert/update schemas. Each schema is
  a validator from a JSON object to a typed record or an error.
- `Discovery` (discovery.dfy): the Rust commands `get_installed_apps` and `get_running_processes`.
  Their registry and process scans are loops over input sequences, proved equal to
  filter/dedup/sort specifications.
- `AppSearch` (app_search.dfy): the merge, filter and conversion pipeline of `useSearchApps`.
- `SessionTimer` (session_timer.dfy): `formatTime`, the interval tick, the low-time warning, the
  button predicates, and the countdown as a class.
- `QueryClient` (query_client.dfy): the transport routing of `apiRequest`, the `getQueryFn`
  endpoint lookup and `throwIfResNotOk`.
- `SessionHooks`, `BlockRuleHooks` and `SettingsHooks`: the React Query hooks. Their selections,
  request construction and settings merge are modelled. Removing all rules of an app is composed
  with the router and the store, taking the shell's storage commands to act as the store does.
- `BlockedApps`, `RulesTable` and `SessionPanel`: the helpers of these components. They cover icon
  classification, display names, labels, variants, the mode toggle and duration presets.

Shared helpers: `Wrappers` (Option and Result), `Seqs` (find, filter, first-occurrence dedup,
insertion sort) and `Text`. `Text` covers JavaScript whitespace, ASCII lower-casing, substring
tests, decimal rendering and parsing, and lexicographic order. `Icons` lists the icon components.

Registry reads, the process table, `invoke`, `fetch` and the clock are not modelled. Their results
are parameters of the model: the uninstall keys and their sub-keys, the process list, the
response status and body, and the settings the shell holds. Where the code generates a random
UUID, the model takes the id as a parameter.

The code has no session pause/resume state machine. It has no guard against a second running
session. It has no resolver that prefers hard blocks over soft ones. The model therefore has none
either. `Storage.SecondRunningSessionAccepted` and `Schema.PausedIsNotAStatus` state the absence.

## Model

| member | source | states |
|---|---|---|
| Storage.MemStorage.constructor | server/storage.ts:44-49 | all four tables start empty |
| Storage.MemStorage.GetFavorites | server/storage.ts:52-54 | the result is a permutation of the stored favorites, ordered so that `pinnedOrder` (absent or null read as 0) never decreases |
| Storage.PinnedKey | server/storage.ts:53 | `a.pinnedOrder \|\| 0`, the favorites' sort key, with absent or null read as 0 |
| Storage.Coalesce | server/storage.ts:61-62 | `x ?? null`: present values are kept, absent and null become null |
| Storage.MemStorage.AddFavorite | server/storage.ts:56-66 | stores exactly the record built from the insert under the given id, filling `pinnedOrder`/`iconHint` with null; a new id is appended in insertion order; the other tables are unchanged |
| Storage.MemStorage.RemoveFavorite | server/storage.ts:68-70 | deletes that key only; an absent id leaves the table exactly as it was |
| Storage.MemStorage.GetBlockRules | server/storage.ts:73-75 | every stored rule once, in insertion order |
| Storage.MemStorage.AddBlockRule | server/storage.ts:77-82 | the returned rule carries the given id and the insert's fields; it is stored under that id; every other rule is unchanged; ids stay equal to their keys |
| Storage.MemStorage.RemoveBlockRule | server/storage.ts:84-86 | the key set loses exactly `id`; an absent id is a silent no-op |
| Storage.MemStorage.UpdateBlockRule | server/storage.ts:88-94 | an absent id gives the error `Block rule <id> not found` and changes nothing; a present id stores and returns the merge, and no other rule changes |
| Storage.ApplyRulePatch | server/storage.ts:91 | `{...rule, ...updates}`: each field the patch carries overwrites, the others keep their values |
| Storage.ApplySessionPatch | server/storage.ts:111 | `{...session, ...updates}`, field by field |
| Storage.PatchIdempotent | server/storage.ts:88-114 | merging the same patch twice equals merging it once; an empty patch changes nothing |
| Storage.MemStorage.GetCurrentSession | server/storage.ts:97-99 | none iff no stored session has status exactly `running`; otherwise the first running session in insertion order |
| Storage.MemStorage.CreateSession | server/storage.ts:101-106 | stores the session under the id whatever is already stored; nothing else changes |
| Storage.MemStorage.UpdateSession | server/storage.ts:108-114 | fails only on an unknown id, with `Session <id> not found`; otherwise merges any fields, any status included |
| Storage.MemStorage.GetSetting | server/storage.ts:117-119 | the setting stored under the key, or none when there is none |
| Storage.MemStorage.SetSetting | server/storage.ts:121-125 | upsert keyed by `setting.key`; nothing else changes |
| Storage.ApplySettingWrites | server/storage.ts:121-125 | a series of upserts keeps the table well formed |
| Storage.LatestSettingWins | server/storage.ts:117-125 | after a series of writes, reading `k` gives the latest write with key `k`, or the earlier value when no write has that key |
| Storage.SecondRunningSessionAccepted | server/storage.ts:97-106 | two running sessions are both stored, and the current session stays the first one created |
| Schema.MatchKindName | shared/schema.ts:36 | every match kind renders to one of the five enum names |
| Schema.BlockModeName | shared/schema.ts:37 | every mode renders to `hard` or `soft` |
| Schema.SessionStatusName | shared/schema.ts:38 | every status renders to one of the four status names |
| Schema.ParseMatchKind | shared/schema.ts:36 | accepts exactly `exe`, `package`, `lnk`, `path`, `regex`, and is the inverse of the rendering |
| Schema.ParseBlockMode | shared/schema.ts:37 | accepts exactly `hard` and `soft`, and is the inverse of the rendering |
| Schema.ParseSessionStatus | shared/schema.ts:38 | accepts exactly the four statuses, and is the inverse of the rendering |
| Schema.UnionsMatchSchemas | shared/schema.ts:36-69 | the type unions and the enum schemas coincide: rendering round-trips through parsing and is injective |
| Schema.PausedIsNotAStatus | shared/schema.ts:38 | `paused` is rejected |
| Schema.RequiredString | shared/schema.ts:9-10 | succeeds iff the key holds a string, and yields that string |
| Schema.RequiredInteger | shared/schema.ts:24-27 | succeeds iff the key holds an integral number, and yields it |
| Schema.NullableInteger | shared/schema.ts:11 | absent, null and integers are accepted and told apart; anything else fails |
| Schema.NullableString | shared/schema.ts:12 | absent, null and strings are accepted and told apart; anything else fails |
| Schema.OptionalString | shared/schema.ts:53 | absent is accepted; a present value must be a string that passes the field's check |
| Schema.OptionalInteger | shared/schema.ts:52 | absent is accepted; a present value must be an integral number |
| Schema.ValidateInsertFavorite | shared/schema.ts:41 | ok iff `appId` and `displayName` are strings and the two nullable fields are well typed; the record carries exactly those values |
| Schema.ValidateInsertBlockRule | shared/schema.ts:42-45 | ok iff `appId` is a string, `matchKind` a valid kind and `mode` a valid mode; no id is carried |
| Schema.ValidateInsertSession | shared/schema.ts:46-48 | ok iff the three integers are present and the status is valid |
| Schema.ValidateInsertSetting | shared/schema.ts:49 | ok iff `key` and `value` are strings, and the setting is exactly those |
| Schema.ValidateUpdateBlockRule | shared/schema.ts:53 | every field is optional; a field is in the patch iff the body has it, and then it carries the body's string; a present `matchKind` or `mode` must still pass its enum check; no id is ever produced |
| Schema.ValidateUpdateSession | shared/schema.ts:52 | every field is optional; a field is in the patch iff the body has it, and then it carries the body's number or string; a present status must be valid; no id is ever produced |
| Schema.InsertSessionImposesNoTimeRelation | shared/schema.ts:46-48 | an end before the start, with any duration, is accepted |
| Schema.PausedRefused | shared/schema.ts:38-52 | a body with status `paused` fails both the insert and the update schema |
| Discovery.GetInstalledApps | src-tauri/src/main.rs:16-75 | off Windows, the fixed error; on Windows, the loops over the uninstall keys return exactly `InstalledApps` of the entries |
| Discovery.InstalledApps | src-tauri/src/main.rs:29-69 | the specification of the installed list: kept sub-keys in key order, mapped to apps, sorted by lower-cased name; its properties are the `InstalledApps…` lemmas |
| Discovery.IsSystemComponent | src-tauri/src/main.rs:46-48 | a name containing `Update` or `Hotfix` or starting with `KB`; used by `InstalledAppsExcludeSystemComponents` |
| Discovery.EntriesToApps | src-tauri/src/main.rs:52-61 | one `AppInfo` per kept entry: its display name, install location and icon |
| Discovery.InstalledAppsSorted | src-tauri/src/main.rs:69 | the installed list is ordered by lower-cased name |
| Discovery.SortByNameSorted | src-tauri/src/main.rs:69 | sorting keeps the same multiset and orders by lower-cased name |
| Discovery.SortByNameMembers | src-tauri/src/main.rs:69 | sorting neither adds nor drops an application |
| Discovery.NameLeIsTotalOrder | src-tauri/src/main.rs:69 | comparing lower-cased names is total and transitive |
| Discovery.InstalledAppsDistinct | src-tauri/src/main.rs:41-55 | no display name is listed twice |
| Discovery.InstalledAppsFromAccepted | src-tauri/src/main.rs:39-61 | every listed app comes from a kept sub-key |
| Discovery.AcceptedEntriesListed | src-tauri/src/main.rs:39-50 | a kept sub-key has a display name and is not a system component |
| Discovery.InstalledAppsExcludeSystemComponents | src-tauri/src/main.rs:46-50 | no listed name contains `Update` or `Hotfix` or starts with `KB` (case-sensitive) |
| Discovery.InstalledAppsComplete | src-tauri/src/main.rs:35-61 | every readable, non-system display name in any key is listed |
| Discovery.InstalledAppsFirstOccurrence | src-tauri/src/main.rs:29-43 | a listed app carries the location and icon of the first sub-key with its name, in key order |
| Discovery.AcceptedIsFirstNamed | src-tauri/src/main.rs:41-43 | a kept sub-key is the first with its display name |
| Discovery.TrimExe | src-tauri/src/main.rs:107 | `trim_end_matches(".exe")`: the result is a prefix that no longer ends in `.exe`, and what was cut is `.exe` repeated |
| Discovery.GetRunningProcesses | src-tauri/src/main.rs:79-120 | off Windows, the fixed error; on Windows, the loop returns exactly `RunningProcesses` of the process list |
| Discovery.RunningProcesses | src-tauri/src/main.rs:90-114 | the specification of the process list: kept processes, trimmed and sorted by lower-cased name; its properties are the `RunningProcesses…` lemmas |
| Discovery.ProcessesToApps | src-tauri/src/main.rs:106-110 | one entry per kept process: trimmed name, executable path, no icon |
| Discovery.AcceptedProcessesListed | src-tauri/src/main.rs:94-99 | a kept process has a non-empty name not starting with `svchost` or `System` |
| Discovery.RunningProcessesSorted | src-tauri/src/main.rs:106-114 | the process list is ordered by lower-cased name and every icon is none |
| Discovery.RunningProcessesFromListed | src-tauri/src/main.rs:94-110 | every entry comes from a listed process, under its trimmed name |
| Discovery.RunningProcessesComplete | src-tauri/src/main.rs:90-111 | every listed process is represented, and no two kept processes share a raw name |
| Discovery.FooProcessesAccepted | src-tauri/src/main.rs:94-104 | `foo` and `foo.exe` are different raw names, so both processes are kept |
| Discovery.TrimExeFoo | src-tauri/src/main.rs:107 | `foo.exe` and `foo` both trim to `foo` |
| Discovery.ExeSuffixYieldsDuplicateNames | src-tauri/src/main.rs:94-110 | the process list for `foo` and `foo.exe` holds two entries, both named `foo` |
| AppSearch.DashSpaceRuns | client/src/hooks/useAppSearch.ts:17 | `replace(/\s+/g, '-')` never lengthens the text |
| AppSearch.DashSpaceRunsNoWhitespace | client/src/hooks/useAppSearch.ts:17 | the slug contains no whitespace |
| AppSearch.DashSpaceRunsNoSpace | client/src/hooks/useAppSearch.ts:17 | a name without whitespace is its own slug |
| AppSearch.DashSpaceRunsJoin | client/src/hooks/useAppSearch.ts:17 | a whitespace run of any length between two words becomes exactly one `-` |
| AppSearch.Slug | client/src/hooks/useAppSearch.ts:17 | the lower-cased name with whitespace runs dashed; its properties are the `DashSpaceRuns` lemmas |
| AppSearch.FirstWord | client/src/hooks/useAppSearch.ts:20 | `split(/[\s.]+/)[0]`: a prefix with no whitespace and no dot, ending where the first separator begins |
| AppSearch.ConvertAppSpec | client/src/hooks/useAppSearch.ts:15-22 | `appId` is the path when non-empty, else the lower-cased name with whitespace runs dashed; `displayName` is the name; `exeOrTarget` is the path; `iconHint` is a separator-free prefix of the lower-cased name |
| AppSearch.ConvertApp | client/src/hooks/useAppSearch.ts:15-22 | `convertTauriApp`; specified by `ConvertAppSpec` |
| AppSearch.MergeApps | client/src/hooks/useAppSearch.ts:47-54 | the `forEach` into the `Map` yields the first-occurrence dedup, by lower-cased name, of installed apps then processes |
| AppSearch.MergeSpec | client/src/hooks/useAppSearch.ts:47-54 | merged names are pairwise distinct, every input name is represented, and an installed app shadows a process of the same name |
| AppSearch.MatchingAppsInMergeOrder | client/src/hooks/useAppSearch.ts:57-60 | the filter keeps exactly the matching apps, in merge order |
| AppSearch.MatchingApps | client/src/hooks/useAppSearch.ts:57-59 | the merged apps whose lower-cased name contains the lower-cased query; specified by `MatchingAppsInMergeOrder` and `SearchResultsSpec` |
| AppSearch.ConvertAll | client/src/hooks/useAppSearch.ts:60 | one converted summary per app, in order |
| AppSearch.OrEmpty | client/src/hooks/useAppSearch.ts:42-43 | a failed command counts as an empty list |
| AppSearch.WebOutcome | client/src/lib/queryClient.ts:109-118 | the web fallback of the search: a 2xx response gives its parsed body; any other fails with `apiRequest`'s error, which reads back as the status and the body or status text, so the hook's own `Failed to search apps` branch is never reached |
| AppSearch.FailedWebSearchMessage | client/src/lib/queryClient.ts:27-31 | a 500 with a non-empty body fails with `500: <body>`, so the back end's `{"error":"Failed to search apps"}` is what the search reports |
| AppSearch.SearchApps | client/src/hooks/useAppSearch.ts:28-75 | a short query gives the empty list; in the desktop shell with `invoke`, the filtered merge of both commands; in the shell without it, the error `Tauri invoke not available` from `apiRequest`; outside the shell, the web outcome |
| AppSearch.SearchResultsSpec | client/src/hooks/useAppSearch.ts:41-60 | every result's lower-cased name contains the lower-cased query, no two results share a lower-cased name, and every merged app that matches is kept |
| AppSearch.SearchEnabled | client/src/hooks/useAppSearch.ts:76 | `enabled: query.length >= 2`; `SearchApps` also answers a shorter query with the empty list |
| SessionTimer.PadStart2 | client/src/components/SessionTimer.tsx:48 | `padStart(2, '0')`: at least two characters, the original text at the end, zeros before it |
| SessionTimer.PadStart2Value | client/src/components/SessionTimer.tsx:46-48 | padding a number keeps its decimal value and gives exactly two digits below 100 |
| SessionTimer.FormatTime | client/src/components/SessionTimer.tsx:45-49 | `formatTime`: the padded whole minutes, a colon and the padded remaining seconds; its shape and round trip are `FormatTimeLength`, `FormatTimeSecondsField` and `FormatTimeRoundTrip` |
| SessionTimer.FormatTimeLength | client/src/components/SessionTimer.tsx:45-49 | below 6000 seconds the clock is exactly five characters with the colon in the middle |
| SessionTimer.FormatTimeSecondsField | client/src/components/SessionTimer.tsx:47-48 | the seconds field is two digits from `00` to `59` |
| SessionTimer.FormatTimeRoundTrip | client/src/components/SessionTimer.tsx:45-49 | reading the clock back as minutes*60+seconds gives the seconds it was made from |
| SessionTimer.TickStep | client/src/components/SessionTimer.tsx:32-38 | `prev <= 1` gives 0 and asks to pause; otherwise `prev - 1`; never negative |
| SessionTimer.CountdownReachesZero | client/src/components/SessionTimer.tsx:30-38 | from `n >= 1`, the count stays positive without pausing until the `n`-th tick, which reaches 0 and pauses; it never goes below 0 |
| SessionTimer.LowTimeMatchesClock | client/src/components/SessionTimer.tsx:52 | the warning shows exactly when the clock reads `05:00` or less |
| SessionTimer.IsLowTime | client/src/components/SessionTimer.tsx:52 | `remainingSecs <= 300`; `LowTimeMatchesClock` ties it to the clock text |
| SessionTimer.IntervalArmed | client/src/components/SessionTimer.tsx:30 | the interval runs only while running with time left; `CountdownReachesZero` shows it disarms after the last tick |
| SessionTimer.StartDisabled | client/src/components/SessionTimer.tsx:94 | Start is disabled exactly at 0 remaining seconds |
| SessionTimer.ResetDisabled | client/src/components/SessionTimer.tsx:116 | Reset is disabled exactly when paused at the full duration |
| SessionTimer.Countdown.constructor | client/src/components/SessionTimer.tsx:21 | the countdown starts at the duration, so Reset starts disabled unless running |
| SessionTimer.Countdown.SetDuration | client/src/components/SessionTimer.tsx:23-25 | a new duration resets the remaining seconds to it |
| SessionTimer.Countdown.SetRunning | client/src/components/SessionTimer.tsx:27-43 | starting or pausing leaves the remaining seconds alone |
| SessionTimer.Countdown.Tick | client/src/components/SessionTimer.tsx:31-39 | one callback applies `TickStep`; a requested pause leaves Start disabled |
| QueryClient.CommandNameInjective | client/src/lib/queryClient.ts:45-102 | distinct commands have distinct Tauri names |
| QueryClient.EndpointToCommandSpec | client/src/lib/queryClient.ts:20-25 | `endpointToCommand` lists an endpoint iff it is the collection url of a GET command on a whole collection, and maps it to that command |
| QueryClient.RouteRequest | client/src/lib/queryClient.ts:34-119 | the whole `apiRequest` chain: in the shell, the first matching method and url branch picks a command (or the settings lookup), and everything else, and every web-mode request, goes to `fetch`; its properties are `RouteSound`, `RouteCompleteCollection`, `RouteCompleteItem` and `SettingLookupRoute` |
| QueryClient.LastSegment | client/src/lib/queryClient.ts:63 | `split('/').pop()`: the text after the last `/`, with no `/` in it |
| QueryClient.LastSegmentOfItem | client/src/lib/queryClient.ts:86-102 | for `<collection>/<id>` with an id free of `/`, the extracted id is that id |
| QueryClient.RouteSound | client/src/lib/queryClient.ts:45-102 | a request routed to a command uses that command's verb, collection and status; an id comes from the last url segment |
| QueryClient.RouteCompleteCollection | client/src/lib/queryClient.ts:45-85 | GET and POST on each exact collection url reach their command, with status 200, or 201 for the creates |
| QueryClient.RouteCompleteItem | client/src/lib/queryClient.ts:86-102 | PATCH on a session and DELETE on a favorite or a rule reach their command with the id, status 200 or 204 |
| QueryClient.SettingLookupRoute | client/src/lib/queryClient.ts:58-67 | a request is a setting lookup iff it is a desktop GET below `/api/settings/`; the exact `/api/settings` goes to `get_settings` |
| QueryClient.BlockRulePatchFetches | client/src/lib/queryClient.ts:86-91 | PATCH on a block rule has no command and falls through to fetch |
| QueryClient.LookupSettingAnswer | client/src/lib/queryClient.ts:63-66 | status 200 with the first setting whose key matches, or 404 with null when none does |
| QueryClient.CheckResponseSpec | client/src/lib/queryClient.ts:27-32 | ok iff the status is 2xx; the error reads back as the status and the body, or the status text when the body is empty |
| QueryClient.CheckResponse | client/src/lib/queryClient.ts:27-32 | `throwIfResNotOk`: nothing for 2xx, else `"<status>: <body or statusText>"`; specified by `CheckResponseSpec` |
| QueryClient.QueryRouteAgreesWithRequest | client/src/lib/queryClient.ts:128-145 | a query keyed by a collection url invokes the same command as a GET on it; any other key is fetched by its `/`-joined segments |
| QueryClient.QueryFnRoute | client/src/lib/queryClient.ts:126-145 | the query function invokes the command its first key segment maps to in the shell, and otherwise fetches the `/`-joined key; specified by `QueryRouteAgreesWithRequest` |
| QueryClient.FetchQueryResultSpec | client/src/lib/queryClient.ts:143-152 | a 401 gives null exactly under `returnNull`; other responses give data iff 2xx; errors read back as the status |
| QueryClient.FetchQueryResult | client/src/lib/queryClient.ts:143-152 | a fetched query: null for a 401 under `returnNull`, else the `throwIfResNotOk` error or the parsed body; specified by `FetchQueryResultSpec` |
| QueryClient.CommandErrorMessage | client/src/lib/queryClient.ts:104-106 | a failed command is rethrown with its own message, or `Tauri command failed` when it has none |
| SessionHooks.CurrentSessionSpec | client/src/hooks/useSession.ts:11-18 | null iff no session is running or scheduled; otherwise the first such session of the list, an element of it, never completed or canceled |
| SessionHooks.CurrentSession | client/src/hooks/useSession.ts:14-18 | `sessions.find(running or scheduled) \|\| null`; specified by `CurrentSessionSpec` |
| SessionHooks.CurrentSessionRequest | client/src/hooks/useSession.ts:10 | the list comes from `get_sessions` with status 200 |
| SessionHooks.AgreesWithStoreWithoutScheduled | client/src/hooks/useSession.ts:14-16 | with nothing scheduled, the hook and the store's lookup pick the same session |
| SessionHooks.ScheduledBeforeRunningIsPicked | client/src/hooks/useSession.ts:14-16 | a scheduled session listed before a running one is picked, where the store would pick the running one |
| BlockRuleHooks.RulesToRemoveSpec | client/src/hooks/useBlockRules.ts:98-99 | the targets are exactly the cached rules with that app id; with no cache there is no target and no request |
| BlockRuleHooks.RulesToRemove | client/src/hooks/useBlockRules.ts:98-99 | the cached rules, or none, filtered by app id; specified by `RulesToRemoveSpec` |
| BlockRuleHooks.UpdateRequest | client/src/hooks/useBlockRules.ts:45-46 | `useUpdateBlockRule` sends PATCH on `/api/block-rules/<id>` with the partial updates as body; `UpdateRequestFetches` shows it falls through to fetch in the shell |
| BlockRuleHooks.RemoveRequest | client/src/hooks/useBlockRules.ts:72 | `useRemoveBlockRule` sends DELETE on `/api/block-rules/<id>`; `RequestsRoute` shows it reaches `delete_block_rule` |
| BlockRuleHooks.ItemUrl | client/src/hooks/useBlockRules.ts:72 | `/api/block-rules/<id>`, the url of one rule |
| BlockRuleHooks.RemovalRequests | client/src/hooks/useBlockRules.ts:102-106 | exactly one DELETE on `/api/block-rules/<id>` per target, in order |
| BlockRuleHooks.RequestsRoute | client/src/hooks/useBlockRules.ts:72 | the DELETE request reaches `delete_block_rule` with the last url segment, which is the id for an id free of `/` |
| BlockRuleHooks.UpdateRequestFetches | client/src/hooks/useBlockRules.ts:46 | the PATCH request has no command in the shell and goes to fetch, carrying the updates as its body |
| BlockRuleHooks.SendRemoveRequest | client/src/hooks/useBlockRules.ts:104 | one routed DELETE removes that rule's key from the store, and nothing else, taking `delete_block_rule` to act as the store's delete |
| BlockRuleHooks.SendRemoveRequests | client/src/hooks/useBlockRules.ts:102-106 | sending every request removes exactly the targets' keys |
| BlockRuleHooks.RemoveBlockRulesByAppId | client/src/hooks/useBlockRules.ts:96-107 | the store loses exactly the targeted keys; with the cache equal to the store, no rule of that app remains and every other rule stays |
| BlockRuleHooks.RemoveByAppIdSpec | client/src/hooks/useBlockRules.ts:96-107 | with ids equal to keys, removing the targets leaves exactly the rules of other apps |
| BlockRuleHooks.DeletedKeyIsTargeted | client/src/hooks/useBlockRules.ts:99-104 | a removed key belonged to a rule of that app |
| BlockRuleHooks.TargetedKeyIsDeleted | client/src/hooks/useBlockRules.ts:99-104 | every rule of that app is removed |
| BlockedApps.ClassifySpec | client/src/components/BlockedAppsList.tsx:22-33 | a keyword table gives the default iff no keyword matches, and the first matching category otherwise |
| BlockedApps.AppIconByTable | client/src/components/BlockedAppsList.tsx:22-33 | the if-chain equals the keyword table read in priority order |
| BlockedApps.AppIconSpec | client/src/components/BlockedAppsList.tsx:22-33 | `Monitor` iff no keyword occurs in the lower-cased id; the first matching category wins, so `discord` always gives `MessageCircle` |
| BlockedApps.AppIcon | client/src/components/BlockedAppsList.tsx:22-33 | `getAppIcon`: the keyword if-chain on the lower-cased id; specified by `AppIconByTable` and `AppIconSpec` |
| BlockedApps.DiscordIconsDiffer | client/src/components/BlockedAppsList.tsx:25 | `discord.exe` gets `MessageCircle` here but `Gamepad2` in the rules table |
| BlockedApps.DisplayNameForSpec | client/src/components/BlockedAppsList.tsx:37-40 | the name of the first favorite with the rule's app id, or the app id when there is none or that name is empty |
| BlockedApps.DisplayNameFor | client/src/components/BlockedAppsList.tsx:37-40 | `favorite?.displayName \|\| rule.appId`; specified by `DisplayNameForSpec` |
| BlockedApps.BlockedAppsOf | client/src/components/BlockedAppsList.tsx:36-43 | one entry per rule, in rule order, keeping the rule and adding its display name and icon; missing data reads as empty lists |
| BlockedApps.ModeLabelSpec | client/src/components/BlockedAppsList.tsx:86-90 | the label is `Hard` iff the mode is `hard`, else `Soft`, in step with the badge variant |
| BlockedApps.ModeLabel | client/src/components/BlockedAppsList.tsx:90 | the mode badge text; specified by `ModeLabelSpec` |
| RulesTable.MatchKindLabelInjective | client/src/components/RulesTable.tsx:71-80 | the labels are injective; `lnk` is `Shortcut` and `regex` is `Pattern` |
| RulesTable.MatchKindLabel | client/src/components/RulesTable.tsx:71-80 | the `labels` record inside `getMatchKindLabel`; specified by `MatchKindLabelInjective` and `RuleMatchKindLabelSpec` |
| RulesTable.RuleMatchKindLabelSpec | client/src/components/RulesTable.tsx:71-80 | a stored kind has a label iff it is a valid kind name, and it is that kind's label |
| RulesTable.RuleMatchKindLabel | client/src/components/RulesTable.tsx:183 | the label rendered for a stored `matchKind` string, nothing when it is no kind; specified by `RuleMatchKindLabelSpec` |
| RulesTable.ModeToggleSpec | client/src/components/RulesTable.tsx:219-235 | the variant is `destructive` iff the mode is `hard`; the toggle always gives a valid mode, is its own inverse and flips the variant |
| RulesTable.ModeVariant | client/src/components/RulesTable.tsx:82-84 | `getModeVariant`; specified by `ModeToggleSpec` |
| RulesTable.ToggledMode | client/src/components/RulesTable.tsx:219-222 | the mode the toggle item sets; specified by `ModeToggleSpec` |
| RulesTable.IconDefaults | client/src/components/RulesTable.tsx:86-99 | an unknown app id gets `monitor`, an unknown icon name `Monitor`, and the composition gives `Monitor` exactly for unknown ids |
| RulesTable.AppIconName | client/src/components/RulesTable.tsx:86-99 | `getAppIcon`: the icon name of the eight known ids, else `monitor`; specified by `IconDefaults` |
| RulesTable.IconComponent | client/src/components/RulesTable.tsx:38-51 | `getIconComponent`: the component of each known icon name, else `Monitor`; specified by `IconDefaults` |
| RulesTable.DisplayNameSpec | client/src/components/RulesTable.tsx:174 | `replace('.exe', '')` removes the first occurrence of `.exe` only, and leaves an id without one as it is |
| RulesTable.DisplayName | client/src/components/RulesTable.tsx:174 | `appId.replace('.exe', '')`; specified by `DisplayNameSpec` |
| RulesTable.DisplayNameStripsOnce | client/src/components/RulesTable.tsx:174 | `a.exe.exe` shows as `a.exe`, whereas the process scan trims it to `a` |
| RulesTable.DisplayNameStripsInside | client/src/components/RulesTable.tsx:174 | the occurrence removed need not be a suffix: `a.exec` shows as `ac` |
| SettingsHooks.ParseStringify | client/src/hooks/useSettings.ts:104 | a stringified boolean or plain string parses back to itself |
| SettingsHooks.ParseJson | client/src/hooks/useSettings.ts:79 | `JSON.parse` on booleans and plain strings; `ParseStringify` is its round trip with `Stringify` |
| SettingsHooks.Serialize | client/src/hooks/useSettings.ts:104 | strings as themselves, booleans stringified; `ReadBack` relates it to reading |
| SettingsHooks.Stringify | client/src/hooks/useSettings.ts:104 | `JSON.stringify` on booleans and strings; `ParseStringify` proves `ParseJson` inverts it |
| SettingsHooks.SettingWrite | client/src/hooks/useSettings.ts:102-105 | the `{ key, value }` a write sends, its value serialised; `ReadBack` and `StringDefaultsReadBack` read it back |
| SettingsHooks.MergeSettingsSpec | client/src/hooks/useSettings.ts:72-86 | the merged object has exactly the five keys, each holding its query's effective value |
| SettingsHooks.MergeSettings | client/src/hooks/useSettings.ts:72-86 | the `reduce` over the first `n` keys; specified by `MergeSettingsSpec` |
| SettingsHooks.EffectiveValue | client/src/hooks/useSettings.ts:73-83 | the default, replaced by the parse or the raw text of a non-empty stored value; `ReadBack` and `MergeSettingsSpec` prove what it yields after a write and inside the merge |
| SettingsHooks.NothingStoredGivesDefaults | client/src/hooks/useSettings.ts:72-86 | when every query is missing or holds an empty value, the merged object is exactly `DEFAULT_SETTINGS` (strictMode false, autostart true, cadence `normal`, mode `soft`, hotkeys true) |
| SettingsHooks.TauriSettingQuery | client/src/hooks/useSettings.ts:55-64 | in the desktop shell, when `get_settings` answers, the per-key query is a lookup whose 404 becomes null, so it does not fail, and a missing key reads as its default |
| SettingsHooks.SettingQueryOutcome | client/src/hooks/useSettings.ts:56-63 | the hook's check: 2xx gives the body, 404 gives null, and it fails exactly for any other status |
| SettingsHooks.WebSettingQuery | client/src/hooks/useSettings.ts:56-64 | on the web path the query succeeds iff the fetched status is 2xx, with the parsed body; a 404 or any other failure is `apiRequest`'s error, which reads back as the status and text |
| SettingsHooks.QueryFlagsSpec | client/src/hooks/useSettings.ts:68-69 | loading iff some query loads; the error is the first query's error, none iff no query failed |
| SettingsHooks.IsLoading | client/src/hooks/useSettings.ts:68 | `some(isLoading)`; specified by `QueryFlagsSpec` |
| SettingsHooks.FirstError | client/src/hooks/useSettings.ts:69 | `find(error)?.error`; specified by `QueryFlagsSpec` |
| SettingsHooks.SaveWrites | client/src/hooks/useSettings.ts:137-143 | one setting per entry, in order |
| SettingsHooks.WritesAreUpserts | client/src/hooks/useSettings.ts:107 | every write is a POST on the collection, routed to `upsert_setting` |
| SettingsHooks.ReadBack | client/src/hooks/useSettings.ts:74-82 | booleans round-trip; a non-empty non-JSON string round-trips; `""` reads as the default; the string `true` reads as a boolean |
| SettingsHooks.StringDefaultsReadBack | client/src/hooks/useSettings.ts:102-105 | the string defaults `normal` and `soft` survive a save |
| SessionPanel.DisplayMinutes | client/src/components/SessionPanel.tsx:77 | `Math.floor(d / 60)`: the whole minutes contained in the duration |
| SessionPanel.PresetValues | client/src/components/SessionPanel.tsx:14-18 | the presets are 1500, 2700 and 3600 seconds, labelled with their minutes |
| SessionPanel.IsCustomDurationSpec | client/src/components/SessionPanel.tsx:39 | custom iff the duration is none of the preset values |
| SessionPanel.IsCustomDuration | client/src/components/SessionPanel.tsx:39 | `!PRESET_DURATIONS.some(...)`; specified by `IsCustomDurationSpec` |
| SessionPanel.SelectPresetSpec | client/src/components/SessionPanel.tsx:28-31 | selecting a preset gives its value, which is not custom, and highlights that preset alone |
| SessionPanel.SelectPreset | client/src/components/SessionPanel.tsx:28-31 | a preset button selects its value; specified by `SelectPresetSpec` |
| SessionPanel.PresetVariant | client/src/components/SessionPanel.tsx:57 | `default` for the selected preset, else `outline`; specified by `SelectPresetSpec` |
| SessionPanel.CustomDurationSpec | client/src/components/SessionPanel.tsx:33-37 | `m` custom minutes become `m*60` seconds with no bound; the badge shows `m` again and Start passes `m*60` |
| SessionPanel.CustomDuration | client/src/components/SessionPanel.tsx:33-37 | `customMinutes * 60`; specified by `CustomDurationSpec` |
| SessionPanel.StartArgument | client/src/components/SessionPanel.tsx:123 | Start passes the selected duration unchanged; used by `CustomDurationSpec` |

## Left out

- src-tauri/src/db.rs is not part of this model. It stores through SQLite; the in-memory store
  models the same create, read, update and delete contract. Its lock handling is a concurrency
  concern.
- server/routes.ts is not part of this model. It is HTTP transport. One consequence is used: in
  web mode a missing setting comes back as null, not as a 404.
- Registry reads, the process table, `spawn_blocking` and the `Task error` a failed blocking task
  would produce. The entries, processes and platform are parameters.
- Tauri `invoke`, `fetch`, `Response` construction, React Query caching and invalidation, and
  toasts. Responses are parameters. `getTauriInvoke` failing with `Tauri invoke not available` is
  modelled only on the application search, the one caller whose fallback reaches it.
- The storage commands of src-tauri/src/db.rs (`get_settings`, `upsert_setting`,
  `delete_block_rule` and the rest) are taken to be registered and to answer like the in-memory
  store. The shipped src-tauri/src/main.rs:139-142 registers only `get_installed_apps` and
  `get_running_processes`, so as shipped every other `invoke` rejects and `apiRequest` rethrows
  its message. `SettingsHooks.TauriSettingQuery` and `BlockRuleHooks.SendRemoveRequest` hold for
  a shell that registers them.
- The two desktop-mode flags: `useAppSearch` tests `'__TAURI__' in window` and the transport tests
  `Boolean(window.__TAURI__)`. The model uses one flag for both.
- The `Promise.all` in the remove-by-app mutation. The model sends the requests one after the
  other. Deletions of distinct keys commute, so the final store is the same in any order.
- The `setInterval`/`useEffect` scheduling of the timer. Only the step it runs is modelled.
- The progress percentage and the clip-path trigonometry of the timer (floating point).
- SessionTimer.FormatTime: defined on natural numbers only. A negative duration prop renders
  differently in the component.
- SessionPanel: `Number()` on the custom-minutes input, and NaN or fractional minutes. Minutes are
  integers.
- Text.Lower: ASCII case folding only, not Unicode `toLowerCase`. String lengths count code points
  of the model string, not UTF-16 units.
- SettingsHooks.ParseJson: only the JSON texts of booleans and of strings without escapes parse.
  Numbers, null, objects and escaped strings read as parse failures, so they keep their raw text.
- Schema: JSON numbers are reals. Integrality is checked, but width limits and the `int4` range
  are not.
- Storage.MemStorage.GetFavorites: sorts with an insertion sort. The result is proved to be a
  sorted permutation. That it is stable, as `Array.prototype.sort` is, is not stated.
- Discovery.GetInstalledApps and Discovery.GetRunningProcesses: the final sort is modelled on
  values, as a function of the collected list, rather than in place on the vector.
- Record lookups in the client: keys that collide with `Object.prototype` members (such as
  `constructor`) are treated as absent.
- `useAllApps` is not modelled. It is a plain fetch with no logic.
- No session pause/resume state machine, single-active-session guard or hard-over-soft block
  resolver exists in the code, so none is modelled.
