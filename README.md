# Nirbhaya client rules in Dafny

Nirbhaya is a personal-safety mobile app written in React Native. Its wards ("users") send
SOS alerts and share their location. Guardians and NGOs ask to track a ward, and the ward
approves or rejects each request. The backend that stores access and locations is not part
of this repository. What the client holds is a set of small, deterministic rules spread
across its screens, and this project models those rules.

The modelled rules are:

- the HTTP helper `apiFetch`: path normalisation, request construction, the split between
  network and HTTP errors, and the value a call resolves to;
- the guardian's track-request forms and their optimistic pending lists;
- the ward's request list and its single in-flight action;
- the SOS button with its cooldown and capped local log, and the SOS history merge;
- three timer-driven state machines: the home-screen auto upload, walk mode, and the auto
  location upload screen;
- the bookmark, contact, community-post and doctor list editors, and the e-mail check of
  the workshop subscription.

Every screen is a class whose fields are the screen's state. Each handler is a method that
changes those fields. What the handler waits for is a parameter of the method: the
outcome of an `apiFetch` (a `Result`), a permission answer, a storage failure, or
`Date.now()` in milliseconds. Module-level variables and `global.__…__` slots shared with
background tasks are separate classes (`WalkGlobals`, `UploadGlobals`). The device's SOS
log is a `SosStore` object shared by the home screen and the SOS log screen.

JavaScript semantics the rules depend on are written out:

- truthiness (`Json.Truthy`);
- optional chaining, where `Json.Get` returns `None` for `undefined`;
- `trim` over the ECMAScript white-space set;
- `parseInt` without a radix, including leading white space, a sign and `0x`;
- `padStart`;
- `String(n)`;
- `filter`;
- `[x, ...list].slice(0, n)`.

Module layout:

- `Wrappers`: `Option` and `Result`.
- `JsText`: string operations.
- `Json`: JSON values.
- `Seqs`: list operations.
- `ApiClient`: `api/client.js`.
- `Tracking`: types shared by the tracking screens.
- `SosRecords`: SOS records and the shared store.
- One module per screen. HomeScreen is split into `HomeTracking`, `HomeSos` and
  `HomeAutoUpload`, because those three parts share no state.

## Model

| member | source | states |
|---|---|---|
| ApiClient.NormalizePath | api/client.js:8 | the path starts with "/"; a path already starting with "/" is unchanged, any other gets exactly one "/" prepended |
| ApiClient.BuildRequest | api/client.js:13-21 | URL is the base plus the normalised path; JSON content-type/accept headers; an Authorization header exists iff a token is given and carries "Bearer " + the trimmed token; a body is sent iff a truthy one is given |
| ApiClient.BackendMessage | api/client.js:40-41 | the thrown message is always truthy and follows the chain data.message, data.error, text, "HTTP <status>" |
| ApiClient.ApiFetch | api/client.js:3-46 | a network error iff the transport failed, with the fixed message and no status; a non-2xx answer is an HTTP error with the status, the data and the message chain; a 2xx answer gives the data if non-null, else {raw: text} for non-empty text, else null |
| JsText.Trim | api/client.js:18 | the result is the slice of the input left between a leading and a trailing run of white space; it neither starts nor ends with white space, and it is empty iff the input is all white space |
| JsText.TrimStartCuts | api/client.js:18 | `trimStart` drops a run of white space and keeps the rest of the input, which does not start with white space |
| JsText.TrimEndCuts | api/client.js:18 | `trimEnd` drops a run of white space and keeps the front of the input, which does not end with white space |
| JsText.ToLowerAscii | screens/HomeScreen.js:340 | same length, each character lower-cased |
| JsText.NatToString | screens/WalkModeScreen.js:168-171 | `n.toString()` is a non-empty run of decimal digits without a leading zero |
| JsText.DecimalRoundTrip | screens/WalkModeScreen.js:168-171 | the digits of `n.toString()` read back as `n` |
| JsText.PadStart2 | screens/WalkModeScreen.js:168-171 | `padStart(2, "0")` pads to two characters with zeros in front and never truncates |
| JsText.ParseInt | screens/HomeScreen.js:423 | `parseInt` is a number iff at least one digit follows the white space, sign and `0x` prefix |
| JsText.ParseIntDecimal | screens/HomeScreen.js:423 | after white space and an optional sign, a run of decimal digits followed by a non-digit is read as that decimal number, negated for "-"; the lone "0" before "x"/"X" is excluded |
| JsText.ParseIntHex | screens/HomeScreen.js:423 | after white space, an optional sign and "0x" or "0X", a run of hex digits followed by a non-hex character is read as that base-16 number, negated for "-" |
| JsText.SkipSpace | screens/HomeScreen.js:423 | leading white space does not change what `parseInt` reads |
| JsText.ParseIntOfIntToString | screens/HomeScreen.js:293 | `parseInt` reads the text of any integer, sign included, back as that integer |
| JsText.ParseIntOfNatToString | screens/HomeScreen.js:423 | `parseInt` reads the decimal text of any natural number back as that number |
| Json.Get | screens/HomeScreen.js:330 | `x?.key` is defined iff `x` is an object holding that key |
| Json.OrElse | api/client.js:40-41 | `a` or-else `b` is `a` when `a` is defined and truthy, else `b` |
| Seqs.Filter | screens/ContactsScreen.js:26 | `filter` keeps exactly the elements passing the test, in order and each as often as in the input, and removes nothing iff every element passes |
| Seqs.FilterKeepsAll | screens/HomeScreen.js:332-334 | a filter every element passes returns the same list |
| Seqs.FilterConcat | screens/EmergencyMapScreen.js:89-93 | filtering a concatenation filters each part |
| Seqs.PrependCapped | screens/HomeScreen.js:292-300 | `[x, ...s].slice(0, cap)` starts with `x`, followed by the first entries of `s`, and holds the smaller of the length of `s` plus one and `cap` entries |
| Tracking.CanAccessList | screens/HomeScreen.js:330 | `data?.canAccess` with the `[]` fallback is the fetched array when there is one, else empty |
| HomeTracking.NormalizeEmail | screens/HomeScreen.js:340-341 | the submitted e-mail has the trimmed input's length and, position by position, its lower-cased characters, so no ASCII capital remains; it is empty iff the input was blank |
| HomeTracking.PruneResolved | screens/HomeScreen.js:332-334 | the prune keeps, in order and with their multiplicity, exactly the entries whose `resolvedId` is not among the fetched ids |
| HomeTracking.PruneNeverRemoves | screens/HomeScreen.js:332-334 | entries are built as {email, ts} with no `resolvedId`, so the prune removes nothing |
| HomeTracking.InlineErrorMessage | screens/HomeScreen.js:354-359 | a network error gives its own message; a status gives "status: message"; otherwise "Failed to send request" |
| HomeTracking.GuardianPanel.constructor | screens/HomeScreen.js:53-56 | empty input, empty pending list, zero counters, no error |
| HomeTracking.GuardianPanel.RefreshWith | screens/HomeScreen.js:327-337 | a failed fetch changes nothing; otherwise the approved count is the fetched list's length, the pending count is the length seen by the caller's render, and the pending list is unchanged |
| HomeTracking.GuardianPanel.RefreshAccess | screens/HomeScreen.js:327-337 | the refresh button's run of the refresh: it counts the current pending list |
| HomeTracking.GuardianPanel.SubmitTrackRequestInline | screens/HomeScreen.js:339-362 | blank input sends nothing and changes nothing; on success {email, ts} is prepended, the input cleared and the refresh counts the list from before the prepend; on failure the list and input are unchanged and the inline error is set |
| HomeSos.ServerData | screens/HomeScreen.js:265-286 | only a signed-in user calls the server; the create result, else the legacy result, else null |
| HomeSos.LocalId | screens/HomeScreen.js:293 | a local id is "local-" followed by the decimal text of the time |
| HomeSos.LocalIdReadsBack | screens/HomeScreen.js:293 | the text after "local-" parses back with `parseInt` as the time the id was made |
| HomeSos.LocalEntry | screens/HomeScreen.js:292-299 | the logged record's six fields; id is the server id when truthy, else the local id; `active` is false only when the server said so; `created_at` is the server's when truthy, else the ISO time; source is "server" iff server data exists |
| HomeSos.EntryIdSource | screens/HomeScreen.js:293 | the id is the server's id when it sent a truthy one and otherwise starts with "local-" |
| HomeSos.LoggedSos | screens/HomeScreen.js:292-300 | the new record comes first, followed by the newest previous ones, at most 50 in all |
| HomeSos.SosButton.HandleSendSOS | screens/HomeScreen.js:232-304 | a press within 15000 ms of the stamp is ignored with nothing changed; otherwise the stamp is taken before the location and contacts checks; only a full send writes the capped log, and only if storage works |
| HomeAutoUpload.MinutesOrOne | screens/HomeScreen.js:410 | `parseInt(m)` with the fallback 1: valid minutes are used, NaN and 0 become 1 |
| HomeAutoUpload.CountDown | screens/HomeScreen.js:414 | a tick decrements a positive countdown and never goes below 0 |
| HomeAutoUpload.AutoUpload.constructor | screens/HomeScreen.js:62-66 | minutes "10", disabled, countdown 0, no upload in flight |
| HomeAutoUpload.AutoUpload.EditMinutes | screens/HomeScreen.js:576 | the minutes field changes only while auto upload is off |
| HomeAutoUpload.AutoUpload.ToggleAuto | screens/HomeScreen.js:421-436 | start needs minutes parsing above 0 and sets the countdown to mins*60, otherwise nothing changes; stop disables and zeroes the countdown; the countdown stays non-negative |
| HomeAutoUpload.AutoUpload.CountdownEffect | screens/HomeScreen.js:402-419 | an upload is triggered iff enabled at zero, and the countdown restarts at (minutes or 1)*60 |
| HomeAutoUpload.AutoUpload.Tick | screens/HomeScreen.js:413-415 | while enabled each second counts down without going below 0 |
| HomeAutoUpload.AutoUpload.BeginAutoUpload | screens/HomeScreen.js:370-373 | an upload starts iff there is a token, the role is user and none is in flight; the guard is then raised |
| HomeAutoUpload.AutoUpload.FinishAutoUpload | screens/HomeScreen.js:374-398 | a denied permission disables auto upload; a confirmed upload records its time; the guard is lowered in every case |
| HomeAutoUpload.TypedMinutesCountdown | screens/HomeScreen.js:62 | a field holding the decimal text of n > 0 (the initial "10" among them) is valid minutes, and both the start and the restart set the countdown to n*60 seconds |
| AccessList.Render | screens/AccessListScreen.js:71-77 | only guardians and NGOs see the screen; others get "Not authorized." |
| AccessList.PruneApproved | screens/AccessListScreen.js:62 | keeps, in order and with their multiplicity, exactly the pending entries whose e-mail does not occur in the fetched id list |
| AccessList.PruneApprovedIdempotent | screens/AccessListScreen.js:62 | pruning twice against the same ids is pruning once |
| AccessList.FetchLocations | screens/AccessListScreen.js:52-60 | one key per id, holding that id's fetch result or null when it failed (the last call wins for a repeated id) |
| AccessList.AccessListScreen.constructor | screens/AccessListScreen.js:18-23 | empty ids, locations and pending list; not refreshing or sending |
| AccessList.AccessListScreen.SendRequest | screens/AccessListScreen.js:25-43 | the target is trimmed, not lower-cased; an empty target is a no-op; success prepends {email, ts} and clears the input; failure leaves both |
| AccessList.AccessListScreen.Load | screens/AccessListScreen.js:45-65 | no-op without token or user; on success ids are canAccess or [], locations have one key per id, pending is pruned; on failure those stay; refreshing ends false |
| GuardianRequests.Render | screens/GuardianRequestsScreen.js:58-64 | only guardians and NGOs see the screen |
| GuardianRequests.TargetBody | screens/GuardianRequestsScreen.js:42-44 | {targetUserId: id} when a look-up result exists, else {targetEmail: trimmed e-mail} |
| GuardianRequests.GuardianRequestsScreen.Lookup | screens/GuardianRequestsScreen.js:19-36 | a blank e-mail does nothing; an ok answer stores the result; a non-ok answer clears it; a thrown error keeps it |
| GuardianRequests.GuardianRequestsScreen.SendRequest | screens/GuardianRequestsScreen.js:38-56 | nothing is sent without a result and with a blank e-mail; otherwise the target body is sent and `sending` ends false |
| UserTrackRequests.Render | screens/UserTrackRequestsScreen.js:57-63 | only users see the list |
| UserTrackRequests.StatusChip | screens/UserTrackRequestsScreen.js:77-81 | "approved" and "rejected" get their chips; every other status gets the pending chip |
| UserTrackRequests.OfferedItemsArePendingChips | screens/UserTrackRequestsScreen.js:66-81 | an item offering approve/reject wears the pending chip, but an unknown status wears it without offering actions |
| UserTrackRequests.ActionKey | screens/UserTrackRequestsScreen.js:41 | the in-flight key is the id's text ("undefined" when missing) followed by the action |
| UserTrackRequests.SpinnerOnPressedButton | screens/UserTrackRequestsScreen.js:97-108 | for one id, a button's key equals the in-flight key iff that button's action is the one in flight |
| UserTrackRequests.ItemsOf | screens/UserTrackRequestsScreen.js:28 | an array reply becomes the items, anything else [] |
| UserTrackRequests.UserTrackRequestsScreen.Load | screens/UserTrackRequestsScreen.js:22-34 | no-op unless token and role user; success replaces the items; failure keeps them and sets "Failed to load requests"; refreshing ends false |
| UserTrackRequests.UserTrackRequestsScreen.BeginAct | screens/UserTrackRequestsScreen.js:40-106 | an action is sent iff no action key is set and the item is pending; the key id+action then disables every button |
| UserTrackRequests.UserTrackRequestsScreen.FinishAct | screens/UserTrackRequestsScreen.js:48-54 | a successful action reloads, a failed one does not; the key is cleared either way |
| SosRecords.MarkResolved | screens/SosLogScreen.js:71-73 | exactly the records with the id get active=false; all others are unchanged; ids are kept |
| SosRecords.MarkResolvedIdempotent | screens/SosLogScreen.js:71-73 | resolving twice equals resolving once |
| SosLog.IndexLocalShape | screens/SosLogScreen.js:27 | the local index has exactly the local ids, each under its own record |
| SosLog.MergedIndexShape | screens/SosLogScreen.js:26-30 | after both loops the dictionary's ids are exactly server ids ∪ local ids |
| SosLog.ServerRecordsMarked | screens/SosLogScreen.js:28-30 | every id the server sent ends with source "server" |
| SosLog.ServerFieldsWin | screens/SosLogScreen.js:29 | for a server id, each field of its last server record overrides the local one |
| SosLog.LocalOnlyKept | screens/SosLogScreen.js:27-30 | an id only the local log has keeps its local record unchanged |
| SosLog.LocalFieldsSurvive | screens/SosLogScreen.js:29 | a local field no server record with that id carries survives the merge |
| SosLog.InsertByTime | screens/SosLogScreen.js:31-33 | inserting adds exactly one record (multiset) |
| SosLog.InsertKeepsNewestFirst | screens/SosLogScreen.js:31-33 | inserting into a newest-first list keeps it newest first |
| SosLog.SortNewestFirst | screens/SosLogScreen.js:31-33 | the sort is a permutation and orders by created_at descending |
| SosLog.DistinctKeysPermuted | screens/SosLogScreen.js:31-33 | reordering records with distinct ids keeps their ids distinct |
| SosLog.IndexLocalRecords | screens/SosLogScreen.js:27 | the local loop builds the local index and records each id once, in first-insertion order |
| SosLog.OverlayServerRecords | screens/SosLogScreen.js:28-30 | the server loop builds the merged dictionary and extends the order with new ids only |
| SosLog.ValuesInOrder | screens/SosLogScreen.js:31 | `Object.values` lists the dictionary's record for each id in insertion order |
| SosLog.SortedValuesFacts | screens/SosLogScreen.js:26-33 | the sorted values hold one record per dictionary id, each the dictionary's |
| SosLog.Merge | screens/SosLogScreen.js:25-34 | every id of server ∪ local appears exactly once, with the record the two loops leave for it, sorted newest first |
| SosLog.Render | screens/SosLogScreen.js:91-97 | only users see the log |
| SosLog.ServerRecords | screens/SosLogScreen.js:48 | a non-array reply or a failed fetch counts as no server records |
| SosLog.SosLogScreen.Load | screens/SosLogScreen.js:24-56 | no-op without token or for a non-user; a `null` in the server array throws in the merge, leaving the list and a started refresh as they were; otherwise the items are the merge of the server list (empty on failure) and the local log (empty when unreadable) |
| SosLog.SosLogScreen.Resolve | screens/SosLogScreen.js:62-89 | on success exactly the matching records are deactivated in the list and, unless storage fails, in the stored log; on failure nothing changes; `resolving` ends null |
| WalkMode.LeadingZero | screens/WalkModeScreen.js:168-171 | a leading zero does not change a digit string's value |
| WalkMode.PaddedDigits | screens/WalkModeScreen.js:168-171 | a padded number below 100 is two digits of the same value |
| WalkMode.PaddedValue | screens/WalkModeScreen.js:168-171 | any padded number keeps its value and has at least two digits |
| WalkMode.FormatMMSS | screens/WalkModeScreen.js:168-171 | `formatMMSS(sec)` is a run of digits, ':' and two digits, at least five characters |
| WalkMode.FormatMMSSReadsBack | screens/WalkModeScreen.js:168-171 | the digits before ":" read back as sec/60 and the two after it as sec%60; the text is exactly five characters iff sec < 6000 |
| WalkMode.FormatMMSSLeadingZero | screens/WalkModeScreen.js:168-171 | the text starts with "0" iff sec < 600: the minutes are padded to two digits and never carry an extra zero |
| WalkMode.LongMinutes | screens/WalkModeScreen.js:168-171 | a hundred minutes or more print with at least three digits |
| WalkMode.PaddedLeadingZero | screens/WalkModeScreen.js:168-170 | the padded minutes start with "0" iff they are below ten |
| WalkMode.WalkGlobals.constructor | screens/WalkModeScreen.js:21-23 | empty contact, interval 5, no send yet |
| WalkMode.WalkGlobals.Configure | screens/WalkModeScreen.js:90-91 | the shared contact and interval take the entered values; the last send time is kept |
| WalkMode.WalkGlobals.RecordBackgroundSend | screens/WalkModeScreen.js:268-282 | a send is recorded iff the task had no error, a location and a contact, and the SMS went out |
| WalkMode.LogSend | screens/WalkModeScreen.js:60-70 | the new entry goes first, followed by the newest previous ones, at most 5 |
| WalkMode.CheckStart | screens/WalkModeScreen.js:77-88 | the start is refused as missing exactly when a field is empty, as invalid exactly when the interval does not parse to a number above 0, and otherwise yields that parsed interval (at least 1) |
| WalkMode.WalkModeScreen.constructor | screens/WalkModeScreen.js:26-37 | inactive, unpaused, zero timer and countdown, empty log and quote, interval field "5" |
| WalkMode.WalkModeScreen.StartJourney | screens/WalkModeScreen.js:76-112 | empty inputs or an interval not above 0 change nothing; the shared contact and interval are set before the permission check; a start sets active, unpaused, countdown interval*60, empty log, no last send, and keeps the timer |
| WalkMode.WalkModeScreen.Launch | screens/WalkModeScreen.js:106-111 | active, unpaused, countdown minutes*60, chosen quote, empty log, no last send; timer and input fields kept |
| WalkMode.WalkModeScreen.PauseJourney | screens/WalkModeScreen.js:136-140 | paused, nothing else changes |
| WalkMode.WalkModeScreen.ResumeJourney | screens/WalkModeScreen.js:142-156 | unpaused, nothing else changes |
| WalkMode.WalkModeScreen.StopJourney | screens/WalkModeScreen.js:158-166 | inactive, unpaused, timer 0; countdown 0 and empty quote iff the unguarded stop of the location task succeeds, both kept when it rejects; the log stays |
| WalkMode.WalkModeScreen.TimerTick | screens/WalkModeScreen.js:112 | the timer counts seconds only while active and not paused |
| WalkMode.WalkModeScreen.CountdownTick | screens/WalkModeScreen.js:54-73 | while running: s ≤ 1 wraps to interval*60, else s-1, so it stays ≥ 1; a new truthy send time is shown and logged (at most 5 entries); otherwise nothing changes |
| AutoLocationUpload.UploadGlobals.BackgroundUpload | screens/AutoLocationUploadScreen.js:21-46 | an upload is recorded iff there is no error, a stored token, a location and a successful upload; a truthy recorded_at is kept |
| AutoLocationUpload.LogUpload | screens/AutoLocationUploadScreen.js:58-71 | {id: ts text, ts} goes first, followed by the newest previous ones, at most 10 |
| AutoLocationUpload.IntervalHint | screens/AutoLocationUploadScreen.js:230 | active shows currentIntervalMs/60000; inactive shows the typed minutes or "?" |
| AutoLocationUpload.HintShowsStartedMinutes | screens/AutoLocationUploadScreen.js:94 | an interval stored as m*60*1000 shows as m minutes |
| AutoLocationUpload.AutoLocationUploadScreen.EditMinutes | screens/AutoLocationUploadScreen.js:183 | minutes can be edited only while inactive |
| AutoLocationUpload.AutoLocationUploadScreen.Start | screens/AutoLocationUploadScreen.js:77-114 | non-users: no-op; minutes not above 0, a missing token or a denied permission: an error and no change; otherwise currentIntervalMs = m*60000 and the token are stored, and a successful start activates with an empty log and no last upload |
| AutoLocationUpload.AutoLocationUploadScreen.Stop | screens/AutoLocationUploadScreen.js:116-123 | always inactive afterwards |
| AutoLocationUpload.AutoLocationUploadScreen.Poll | screens/AutoLocationUploadScreen.js:56-73 | a truthy upload time not yet shown is remembered and logged at the head; otherwise nothing changes |
| AutoLocationUpload.AutoLocationUploadScreen.Hint | screens/AutoLocationUploadScreen.js:230 | while active the hint is the started minutes |
| EmergencyMap.Toggled | screens/EmergencyMapScreen.js:84-93 | a bookmarked id is removed everywhere, with the rest kept in order and with their multiplicity; an absent place is appended |
| EmergencyMap.ToggleFlipsMembership | screens/EmergencyMapScreen.js:85-95 | a toggle flips whether the id is bookmarked |
| EmergencyMap.ToggleTwiceRestores | screens/EmergencyMapScreen.js:89-93 | toggling an absent place twice restores the list |
| EmergencyMap.BookmarkStore.ToggleBookmark | screens/EmergencyMapScreen.js:84-102 | the toggled list is shown and stored unless the write fails |
| Contacts.WithoutId | screens/ContactsScreen.js:26 | keeps, in order and with their multiplicity, exactly the contacts with another id |
| Contacts.DeleteUndoesAdd | screens/ContactsScreen.js:17-27 | deleting the id of a contact just added (with a fresh id) restores the list |
| Contacts.ContactsScreen.AddContact | screens/ContactsScreen.js:17-23 | with a name and a phone, exactly one contact is appended last and both inputs are cleared; otherwise nothing changes |
| Contacts.ContactsScreen.DeleteContact | screens/ContactsScreen.js:25-27 | the list loses exactly the contacts with the id; the inputs stay |
| AnonymousCommunity.CommunityBoard.constructor | screens/AnonymousCommunityScreen.js:12-32 | empty text and the three seed posts |
| AnonymousCommunity.CommunityBoard.Submit | screens/AnonymousCommunityScreen.js:34-46 | blank text is ignored; otherwise one "Anonymous" post with the trimmed text comes first, the old posts follow unchanged, the text is cleared; no post has an empty body |
| Doctors.Render | screens/DoctorsScreen.js:35-41 | only NGOs see the directory |
| Doctors.DoctorId | screens/DoctorsScreen.js:28 | the server's truthy id, else the time as text |
| Doctors.DoctorsScreen.Submit | screens/DoctorsScreen.js:19-33 | non-NGO: no-op; a missing name or phone sends nothing; success prepends {id, ...form} and resets the form; failure (including a null reply) changes nothing |
| SelfDefenseWorkshops.SingleAt | screens/SelfDefenseWorkshopsScreen.js:17 | one '@' in all means none before or after the one found |
| SelfDefenseWorkshops.ValidEmailMatches | screens/SelfDefenseWorkshopsScreen.js:17 | the direct check implies the pattern |
| SelfDefenseWorkshops.PatternIsValid | screens/SelfDefenseWorkshopsScreen.js:17 | the pattern implies the direct check |
| SelfDefenseWorkshops.ValidEmailIffPattern | screens/SelfDefenseWorkshopsScreen.js:17 | accepted iff no white space, exactly one '@' with text before it, and after it a '.' neither first nor last |
| SelfDefenseWorkshops.Subscription.Subscribe | screens/SelfDefenseWorkshopsScreen.js:16-23 | an invalid trimmed address leaves the field; a valid one clears it |

## Left out

- SMS sending, geolocation, notifications, the torch and `TaskManager` registration are
  device I/O. Their outcomes are method parameters, for example `hasLocation`,
  `permissionsGranted` and `smsFails`.
- AsyncStorage is modelled as object fields (`SosStore.entries`, `BookmarkStore.stored`).
  A write either happens or fails, as chosen by a parameter. JSON text encoding and decoding
  of storage and of response bodies are not modelled.
- Floating point: shake detection (switched off in the source), the coordinates in maps
  links, and `Date` parsing. `created_at` is an integer (`SosRecords.CreatedAt`); any other
  value counts as 0 when sorting. ISO time strings and `toLocaleTimeString` labels are
  string parameters.
- JavaScript object-key stringification: `map[s.id]` in `SosLog.Merge` and `locPairs[uid]`
  in `AccessList.FetchLocations` turn every id into a string key, so the number 1 and the
  string "1" collide. The model keys records and locations by their JSON id value and does
  not order integer-like keys first in `Object.values`.
- `SosLog.ServerRecords`: a string or array element of the server reply spreads its indices
  into the merged record (`{0: …, 1: …}`); the model reads it, like a number or a boolean,
  as a record with no fields. A `null` element, which throws, is modelled in
  `SosLog.SosLogScreen.Load`.
- `SosLog.SortNewestFirst`: the order of records with equal `created_at` is whatever the
  stable insertion sort gives. Nothing is claimed about `Array.prototype.sort` for ties.
- `JsText.ToLowerAscii`: only ASCII letters are lower-cased; the Unicode case mapping of
  `toLowerCase` is not modelled.
- `SosRecords.CreatedAt`: only a numeric `created_at` is a time. The ISO text that
  `HomeSos.LocalEntry` writes when the server sent no time counts as 0 when sorting,
  because `Date` parsing is not modelled.
- `JsText.ParseInt`: the value is an unbounded integer. Very long digit runs, which
  JavaScript rounds to a float, are not modelled.
- `Tracking.CanAccessList`: a truthy `canAccess` that is not an array is treated as []. The
  source would take its `length` and iterate it.
- `encodeURIComponent` of the look-up e-mail and the per-id location URLs are not modelled.
  The look-up answer is a parameter.
- Async interleavings are not modelled. Each handler runs as one step, and each effect tick
  or interval callback as another. The only handlers split into Begin/Finish methods are
  `autoUploadOnce` and the request-list `act`, whose guards exist because of interleaving.
- `handleSendSOS`'s SMS call and the profile load/save on the home screen are not modelled,
  because they change no modelled state.
- Also not modelled, because no listed rule depends on them:
  - `uploadLocationToBackend` and `verifyLastUpload`;
  - the auto-upload screen's `manualUploadNow`;
  - the bookmark load on the map screen.
- The backend's own approve/reject semantics and access storage are not part of this
  repository, so nothing about them is modelled.
