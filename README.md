# Coaching CRM core, modelled in Dafny

This project models the statable logic of a coaching CRM (a React app over a
hosted document store). It covers five parts:

- **Public share links** (`PublicLinks`). A link record is minted with an
  optional expiry and an optional access quota. Each lookup validates it,
  each access is counted, and deactivation revokes it. The `publicLinks`
  collection is a map from link id to record, held by the class `LinkStore`.
- **The sync service** (`SyncService`). One class per signed-in user, with
  the fields `userId` and `syncEnabled`. It pushes local collections into
  the store under `users/<userId>/<collection>`, stamping each document with
  `syncedAt` and `userId`. It pulls them back with those two fields removed.
  It can also push all six collections, load all six, or clear them
  (clearing does not consult `syncEnabled`). The
  store is the class `Firestore`: a map from collection path to a map from
  document id to document.
- **Pure helpers** (`Helpers`). These are the adherence percentage, the
  status and compliance colour classes, relative dates, the days until a
  date, the nested training-volume sum, and the mapping of a parsed
  insight-generation response to check-in insights.
- **View state machines.** `CheckInEditor` is the insight editor of the
  check-in panel. `ProfileEditing` is the trainer-profile draft with its save
  validation, its list editors and `getInitials`. `Dashboard` is the client
  roster's tab and search filter and its badge counts.
- **Shared pieces.** `Domain` holds the entity records and the
  `Option`/`Result` wrappers. `Text` holds the JavaScript string operations
  the code relies on: ASCII `toLowerCase`/`toUpperCase`, `includes`, `trim`,
  and decimal rendering. `Seqs` holds `Array.prototype.filter`, by element
  and by position.

Times are integers (milliseconds since the epoch). Generated ids (`uuidv4`,
`Date.now()`) and the clock are parameters. Backend outages are inputs:
`backendFails` for one call, `fails` for a set of collections.

## Model

| member | source | states |
|---|---|---|
| PublicLinks.ExpiryFor | src/lib/publicLinks.ts:29-34 | an expiry is set exactly when `expiresInDays` is truthy (present and not 0), and it lies exactly that many days of 86,400,000 ms after creation |
| PublicLinks.NewLink | src/lib/publicLinks.ts:36-46 | the stored record has `id = linkId`, `createdBy = userId`, `type = t`, `resourceId` as given, `createdAt = now`, `accessCount = 0`, `isActive = true`, the given `maxAccess`, and the expiry above |
| PublicLinks.LinkUrl | src/lib/publicLinks.ts:50 | the URL starts with the origin and ends with the link id, with `/public/<type>/` between them |
| PublicLinks.LinkUrlInjective | src/lib/publicLinks.ts:50 | two link ids with the same URL (same origin and type) are equal |
| PublicLinks.Resolve | src/lib/publicLinks.ts:53-76 | the lookup yields a record iff the id is stored, active, not expired strictly before now, and not out of quota (quota 0 or absent = unlimited); the record is then the stored one unchanged |
| PublicLinks.Incremented | src/lib/publicLinks.ts:78-89 | the link's `accessCount` rises by exactly 1, every other field and link is kept, and an unknown id changes nothing |
| PublicLinks.Deactivated | src/lib/publicLinks.ts:91-102 | `isActive` becomes false, every other field and link is kept, and an unknown id changes nothing |
| PublicLinks.IncrementedTimesEffect | src/lib/publicLinks.ts:78-89 | n accesses raise the count by exactly n and touch no other link |
| PublicLinks.QuotaExhausts | src/lib/publicLinks.ts:71-89 | a fresh link with quota N > 0 still resolves after k < N accesses (while unexpired), and resolves to none after N or more |
| PublicLinks.FreshLinkResolves | src/lib/publicLinks.ts:26-75 | a link resolves right after minting unless a negative day count or a negative quota was given |
| PublicLinks.DeactivatedNeverResolves | src/lib/publicLinks.ts:91-102 | after deactivation the lookup always yields none, and deactivating twice equals deactivating once |
| PublicLinks.ExpiryIsInclusive | src/lib/publicLinks.ts:67-69 | a link is still valid at its expiry instant and invalid one millisecond later |
| PublicLinks.LinkStore.Generate | src/lib/publicLinks.ts:17-51 | stores the new record under `linkId` and returns its URL |
| PublicLinks.LinkStore.Get | src/lib/publicLinks.ts:53-76 | the lookup changes nothing and returns the validity check's result |
| PublicLinks.LinkStore.IncrementAccessCount | src/lib/publicLinks.ts:78-89 | the store becomes the incremented store |
| PublicLinks.LinkStore.Deactivate | src/lib/publicLinks.ts:91-102 | the store becomes the deactivated store |
| SyncService.CollectionPathInjective | src/lib/syncService.ts:24-26 | `users/<u>/<name>` paths of different users, or of different slash-free names, differ |
| SyncService.CollectionPathShape | src/lib/syncService.ts:24-26 | the path is `users/`, then the user id, then one slash, then the collection name, and nothing else |
| SyncService.KeyOf | src/lib/syncService.ts:38-40 | an item is skipped iff its `id` is missing or falsy; it is written under its `id` iff that is a non-empty, slash-free string; any other truthy `id` (a non-string, or any string holding a slash) is treated as a rejected path |
| SyncService.Writes | src/lib/syncService.ts:38-47 | every written document carries this user's `userId` and the push's `syncedAt` |
| SyncService.Strip | src/lib/syncService.ts:65-70 | a pulled document is the stored one without `syncedAt` and `userId`, every other field kept |
| SyncService.StripStamped | src/lib/syncService.ts:41-70 | stripping a stamped item gives the item back, less any own `syncedAt`/`userId` fields |
| SyncService.WritesKeys | src/lib/syncService.ts:38-47 | the batch writes exactly the ids of the items whose `id` is truthy |
| SyncService.WritesAt | src/lib/syncService.ts:38-47 | with distinct ids, each id-bearing item is written under its id as the item plus `syncedAt` and this user's `userId` |
| SyncService.PushNeverDeletes | src/lib/syncService.ts:35-49 | a push only adds or overwrites: the ids grow by exactly the written ids, and documents not written keep their value |
| SyncService.PulledAfterPush | src/lib/syncService.ts:38-73 | pushing id-bearing items without own sync fields into an empty collection stores, after stripping, exactly those items under their ids |
| SyncService.PushThenPull | src/lib/syncService.ts:38-73 | a pull after such a push returns exactly the pushed items, up to order |
| SyncService.ListingOfItems | src/lib/syncService.ts:65-70 | a listing of a collection holding exactly the items has their number and their elements |
| SyncService.CollectionName | src/lib/syncService.ts:80-126 | the six collection names contain no slash |
| SyncService.KindPathsDistinct | src/lib/syncService.ts:24-26 | the six collections of one user live at six different paths |
| SyncService.SyncAllEffect | src/lib/syncService.ts:128-146 | after `syncAll`, each collection is the result of pushing its part when that part is present and the push commits, and is unchanged otherwise |
| SyncService.SyncAllElsewhere | src/lib/syncService.ts:128-146 | `syncAll` changes no path outside the user's six collections |
| SyncService.ClearEffect | src/lib/syncService.ts:175-195 | after `clearAllData`, each collection is empty unless clearing it failed, whatever happened to the others |
| SyncService.ClearElsewhere | src/lib/syncService.ts:175-195 | `clearAllData` changes no path outside the user's six collections |
| SyncService.SyncService.constructor | src/lib/syncService.ts:16-22 | a new service has the given user and sync switched on |
| SyncService.SyncService.SetSyncEnabled | src/lib/syncService.ts:197-199 | sets the flag |
| SyncService.SyncService.SyncToFirestore | src/lib/syncService.ts:28-55 | disabled sync changes nothing and succeeds; otherwise the batch commits all stamped writes when every id is usable and the backend answers, and fails with nothing written otherwise |
| SyncService.SyncService.SyncFromFirestore | src/lib/syncService.ts:57-78 | returns [] when sync is off or the read fails, else every stored document of the collection once, stripped |
| SyncService.SyncService.SyncAll | src/lib/syncService.ts:128-146 | attempts the push of every present collection; fails iff some present collection's push fails |
| SyncService.SyncService.LoadAll | src/lib/syncService.ts:148-173 | each of the six lists is a pull of the collection of that name; [] when sync is off or that pull fails |
| SyncService.SyncService.ClearAllData | src/lib/syncService.ts:175-195 | the store becomes the cleared store, one collection after another |
| Helpers.FloorDiv | src/lib/helpers.ts:32 | `Math.floor(a / b)`: the greatest integer whose multiple of b does not pass a |
| Helpers.CeilDiv | src/lib/helpers.ts:46 | `Math.ceil(a / b)`: the least integer whose multiple of b is not below a |
| Helpers.RoundDiv | src/lib/helpers.ts:20 | `Math.round(a / b)`: the nearest integer, halves rounded up |
| Helpers.StatusColorsDistinct | src/lib/helpers.ts:3-16 | active, needs-attention and overdue get three different classes; inactive gets the default class |
| Helpers.StatusColor | src/lib/helpers.ts:3-16 | the class string of each of the four statuses; the default (muted) class iff the status is inactive |
| Helpers.Adherence | src/lib/helpers.ts:18-21 | 0 when total is 0; otherwise the integer nearest to 100·completed/total, halves up |
| Helpers.AdherenceBounds | src/lib/helpers.ts:18-21 | for 0 ≤ completed ≤ total with total > 0, the percentage lies in 0..100; all done gives 100 and none done gives 0 |
| Helpers.AdherenceMonotone | src/lib/helpers.ts:20 | completing more never lowers the percentage |
| Helpers.ComplianceColor | src/lib/helpers.ts:49-53 | success iff ≥ 90, warning iff 70..89, destructive iff < 70 |
| Helpers.Bucket | src/lib/helpers.ts:34-39 | Today iff 0 days, Yesterday iff 1, n days iff below 7 (negatives included), floor(d/7) weeks iff 7..29, floor(d/30) months iff 30..364, floor(d/365) years otherwise |
| Helpers.BucketMonotone | src/lib/helpers.ts:34-39 | for past dates the phrase never overstates the age and never shows an older date as more recent |
| Helpers.Render | src/lib/helpers.ts:34-39 | the text of each phrase: `Today`, `Yesterday`, `<n> days ago`, `<n> weeks ago`, `<n> months ago`, `<n> years ago` |
| Helpers.FormatRelativeTime | src/lib/helpers.ts:28-39 | for the whole days d elapsed (rounded down): `Today` at 0, `Yesterday` at 1, `d days ago` below 7, `⌊d/7⌋ weeks ago` to 29, `⌊d/30⌋ months ago` to 364, `⌊d/365⌋ years ago` beyond |
| Helpers.DaysSince | src/lib/helpers.ts:31-32 | the whole days elapsed, rounded down |
| Helpers.DaysUntil | src/lib/helpers.ts:42-47 | the millisecond difference divided by a day, rounded up |
| Helpers.DaysUntilIsNegatedDaysSince | src/lib/helpers.ts:28-47 | the days until a date are the days since it, negated |
| Helpers.DaysUntilWholeDays | src/lib/helpers.ts:42-47 | a date exactly k days ahead is k days away |
| Helpers.CalculateVolumeLoad | src/lib/helpers.ts:55-67 | the three nested loops compute the sum of reps × load over the completed sets |
| Helpers.WorkoutsVolumeAppend | src/lib/helpers.ts:55-67 | the volume of two lists of workouts is the sum of their volumes |
| Helpers.AppendIdleWorkout | src/lib/helpers.ts:55-67 | no workouts give 0, and a workout without completed sets adds nothing |
| Helpers.SetsVolumeNonNegative | src/lib/helpers.ts:59-63 | non-negative reps and loads give a non-negative volume |
| Helpers.InsightIdInjective | src/lib/helpers.ts:143 | `insight-<stamp>-<index>` determines both the stamp and the index |
| Helpers.MapInsights | src/lib/helpers.ts:142-147 | one insight per entry, in order: id `insight-<stamp>-<index>`, type and text copied, editable |
| Helpers.InsightsFromResponse | src/lib/helpers.ts:140-147 | the call fails iff the response is unparsable or has no `insights` array |
| Helpers.InsightsFromResponseSpec | src/lib/helpers.ts:142-147 | one insight per entry, in order, type and text copied, editable, ids pairwise distinct whatever the clock readings |
| CheckInEditor.ReplaceText | src/components/CheckInAnalysis.tsx:59-61 | same length and order; ids, types and editable flags kept; only insights with the id get the new text |
| CheckInEditor.ReplaceUnknownId | src/components/CheckInAnalysis.tsx:59-61 | saving an edit for an id not in the list changes nothing |
| CheckInEditor.ReplaceTwice | src/components/CheckInAnalysis.tsx:58-64 | of two saved edits of one insight, the second wins |
| CheckInEditor.ReplaceAppended | src/components/CheckInAnalysis.tsx:58-85 | editing a just-added insight with a fresh id rewrites that insight alone |
| CheckInEditor.Without | src/components/CheckInAnalysis.tsx:71-73 | deleting never lengthens the list, and no remaining insight carries the deleted id |
| CheckInEditor.WithoutSpec | src/components/CheckInAnalysis.tsx:71-73 | deleting keeps exactly the insights with another id, in order, and shortens the list by the number that had the id |
| CheckInEditor.WithoutUnknownId | src/components/CheckInAnalysis.tsx:71-73 | deleting an id not in the list changes nothing |
| CheckInEditor.NewInsight | src/components/CheckInAnalysis.tsx:76-81 | the new insight has id `insight-<stamp>`, the chosen type, empty text and is editable |
| CheckInEditor.DeleteUndoesAdd | src/components/CheckInAnalysis.tsx:71-85 | deleting an insight just added under a fresh id restores the list |
| CheckInEditor.InsightEditor.constructor | src/components/CheckInAnalysis.tsx:34-37 | the list is the check-in's insights or empty, the feedback its feedback or empty, no edit open |
| CheckInEditor.InsightEditor.EditInsight | src/components/CheckInAnalysis.tsx:53-56 | the editor opens on the id with the current text; nothing else changes |
| CheckInEditor.InsightEditor.SetEditingText | src/components/CheckInAnalysis.tsx:251 | typing changes only the draft text |
| CheckInEditor.InsightEditor.SaveEdit | src/components/CheckInAnalysis.tsx:58-64 | the draft text replaces the text of the insights with the id; the editor closes |
| CheckInEditor.InsightEditor.CancelEdit | src/components/CheckInAnalysis.tsx:66-69 | the editor closes and the list is kept |
| CheckInEditor.InsightEditor.DeleteInsight | src/components/CheckInAnalysis.tsx:71-73 | the list loses the insights with the id; the editor state is kept |
| CheckInEditor.InsightEditor.AddInsight | src/components/CheckInAnalysis.tsx:75-85 | one blank insight is appended at the end, the editor opens on it with empty text, and sending becomes enabled |
| CheckInEditor.InsightEditor.SetFeedback | src/components/CheckInAnalysis.tsx:303 | typing changes only the feedback |
| CheckInEditor.InsightEditor.SendToClient | src/components/CheckInAnalysis.tsx:87-92 | something is sent iff the list or the feedback is non-empty, and then it is the current list and feedback unchanged |
| ProfileEditing.DefaultProfile | src/components/pages/TrainerProfilePage.tsx:29-55 | the blank profile: id `trainer-1`, empty texts and lists, zero experience with an empty description, empty social links and contact details, both timestamps now |
| ProfileEditing.EmptyDraft | src/components/pages/TrainerProfilePage.tsx:58-63 | the blank certification form: empty name and issuer, the current year, unverified |
| ProfileEditing.FromDraft | src/components/pages/TrainerProfilePage.tsx:110-113 | the certification is the form's fields plus the id |
| ProfileEditing.WithoutCertification | src/components/pages/TrainerProfilePage.tsx:125-130 | removal never lengthens the list, and no remaining certification carries the removed id |
| ProfileEditing.WithoutCertificationSpec | src/components/pages/TrainerProfilePage.tsx:125-130 | removal keeps exactly the certifications with another id, in order, and shortens the list by the number that had the id |
| ProfileEditing.RemoveUndoesAddCertification | src/components/pages/TrainerProfilePage.tsx:107-130 | removing a certification just added under a fresh id restores the list |
| ProfileEditing.RemoveUndoesAddSpecialization | src/components/pages/TrainerProfilePage.tsx:90-105 | removing the last position of a just-extended list restores it |
| ProfileEditing.RemoveSpecializationSpec | src/components/pages/TrainerProfilePage.tsx:100-105 | removing position i shortens the list by one, keeps the elements before i and shifts the rest down by one |
| ProfileEditing.RemoveSpecializationOutOfRange | src/components/pages/TrainerProfilePage.tsx:100-105 | removing a position that does not exist changes nothing |
| ProfileEditing.SplitJoin | src/components/pages/TrainerProfilePage.tsx:134 | `split(' ')` loses nothing: joining the segments with spaces gives the name back, and no segment holds a space |
| ProfileEditing.WordStarts | src/components/pages/TrainerProfilePage.tsx:134-136 | the word-start characters hold no space and are no more than the name's characters |
| ProfileEditing.FirstsOfSplit | src/components/pages/TrainerProfilePage.tsx:134-136 | the first characters of the segments are exactly the characters that begin a word, so empty segments contribute nothing |
| ProfileEditing.Initials | src/components/pages/TrainerProfilePage.tsx:132-139 | at most two characters, none of them a lower-case letter |
| ProfileEditing.InitialsSpec | src/components/pages/TrainerProfilePage.tsx:132-139 | the initials are the upper-cased first characters of the first two words: at most 2 characters, no lower-case letter, no space |
| ProfileEditing.ProfileEditor.constructor | src/components/pages/TrainerProfilePage.tsx:27-63 | edit mode starts on iff no profile is saved; the draft is the saved profile or the blank one |
| ProfileEditing.ProfileEditor.StartEditing | src/components/pages/TrainerProfilePage.tsx:151 | turns edit mode on and changes nothing else |
| ProfileEditing.ProfileEditor.SetName | src/components/pages/TrainerProfilePage.tsx:334 | only the draft's name changes |
| ProfileEditing.ProfileEditor.SetEmail | src/components/pages/TrainerProfilePage.tsx:346 | only the draft's e-mail changes |
| ProfileEditing.ProfileEditor.Save | src/components/pages/TrainerProfilePage.tsx:65-81 | saves iff name and e-mail are non-empty; a save stores the draft with only `updatedAt` replaced and leaves edit mode; a refusal changes nothing |
| ProfileEditing.ProfileEditor.Cancel | src/components/pages/TrainerProfilePage.tsx:83-88 | with a saved profile the draft reverts to it and edit mode ends; without one nothing changes |
| ProfileEditing.ProfileEditor.SetNewSpecialization | src/components/pages/TrainerProfilePage.tsx:453 | only the specialization input changes |
| ProfileEditing.ProfileEditor.AddSpecialization | src/components/pages/TrainerProfilePage.tsx:90-98 | a non-blank input is appended trimmed and the input cleared; a blank one changes nothing |
| ProfileEditing.ProfileEditor.RemoveSpecialization | src/components/pages/TrainerProfilePage.tsx:100-105 | the draft loses the specialization at that position, if any |
| ProfileEditing.ProfileEditor.SetNewCertification | src/components/pages/TrainerProfilePage.tsx:491-511 | only the certification form changes |
| ProfileEditing.ProfileEditor.AddCertification | src/components/pages/TrainerProfilePage.tsx:107-123 | a form with name and issuer is appended under `cert-<stamp>` and reset to the current year; an incomplete form changes nothing |
| ProfileEditing.ProfileEditor.RemoveCertification | src/components/pages/TrainerProfilePage.tsx:125-130 | the draft loses every certification with that id |
| Dashboard.FilteredClients | src/components/ClientDashboard.tsx:22-27 | the shown list is no longer than the roster, and every shown client passes both the tab and the search |
| Dashboard.FilteredClientsSpec | src/components/ClientDashboard.tsx:22-27 | a client is shown iff it is in the roster, passes the tab, and its lower-cased name or e-mail contains the lower-cased query; the shown list keeps roster order and has one entry per passing roster entry |
| Dashboard.EmptyQueryMatches | src/components/ClientDashboard.tsx:24-25 | the empty query matches every client |
| Dashboard.AllTabShowsRoster | src/components/ClientDashboard.tsx:22-27 | with the `all` tab and no query the whole roster is shown |
| Dashboard.StatusTabShowsStatus | src/components/ClientDashboard.tsx:22-27 | with a status tab and no query exactly the clients of that status are shown |
| Dashboard.Counts | src/components/ClientDashboard.tsx:29-35 | the `all` badge is the roster's size and no status badge exceeds it |
| Dashboard.WithStatusSpec | src/components/ClientDashboard.tsx:29-35 | each status badge counts exactly the roster's clients of that status, one per roster entry |
| Dashboard.StatusCountsSum | src/components/ClientDashboard.tsx:29-35 | the four status badges add up to the `all` badge, since every client has exactly one of the four statuses |
| Dashboard.StatusTabMatchesBadge | src/components/ClientDashboard.tsx:22-35 | a status tab with no query shows as many clients as its badge says |
| Text.Lower | src/components/ClientDashboard.tsx:24-25 | `toLowerCase`: same length, each ASCII capital lowered, other characters kept |
| Text.Upper | src/components/pages/TrainerProfilePage.tsx:137 | `toUpperCase`: same length, each ASCII small letter raised, other characters kept |
| Text.Trim | src/components/pages/TrainerProfilePage.tsx:91-94 | `trim`: a slice of the input with no whitespace at either end, empty iff the input is all whitespace |
| Text.NatToStringInjective | src/lib/helpers.ts:143 | different numbers render as different decimal strings |
| Text.SplitAtLast | src/lib/syncService.ts:25 | a string splits uniquely at a separator when the tail holds none |
| Seqs.FilterSpec | src/components/ClientDashboard.tsx:22 | `filter` keeps exactly the accepted elements, in order |
| Seqs.FilterAppend | src/components/CheckInAnalysis.tsx:72 | filtering a concatenation filters each part |
| Seqs.FilterLength | src/components/CheckInAnalysis.tsx:72 | the filtered list is shorter by the number of rejected elements |
| Seqs.RemoveAtSpec | src/components/pages/TrainerProfilePage.tsx:103 | `filter((_, i) => i !== index)` drops exactly that position; an index out of range changes nothing |

## Left out

- Rendering, icons, animation, toasts, dialogs and console logging: they change no modelled state.
- Firebase set-up, sign-in and the role check: wrappers over the hosted services.
- The parallelism of `Promise.all` in `syncAll` and `loadAll`: the pushes and pulls are modelled one after another, which gives the same store because they touch different collections.
- The read-then-write race in `incrementAccessCount` and `deactivatePublicLink`: each is one atomic step here.
- Calls to the text-generation service and the prompt templates: only the mapping of an already parsed response is modelled.
- The timers and effects of the synced key-value hook: timing behaviour, not statable logic.
- Date parsing and formatting (`formatDate`, ISO strings): times are integer milliseconds and profile timestamps are integers.
- PublicLinks.ExpiryFor: adds whole days of 86,400,000 ms, while the source moves the local calendar date, which differs across a daylight-saving change.
- Helpers.Adherence: exact rational rounding; the source rounds a floating-point quotient, which can differ in the last bit at exact halves.
- Helpers.CalculateVolumeLoad: loads are whole numbers; the source adds floating-point products.
- Text.Lower: ASCII letters only; other letters keep their case, unlike the source's full Unicode mapping.
- Text.Upper: ASCII letters only, for the same reason; a character whose upper case is longer (such as ß) stays one character.
- SyncService.SyncService.SyncFromFirestore: the order of the returned documents is left open; the store lists them by document id.
- SyncService.Writes: one clock reading stamps every document of a push, while the source reads `Timestamp.now()` once per item, so the documents of one batch may carry slightly different `syncedAt` values.
- PublicLinks.NewLink: an absent expiry or access limit is a missing field of the record; the source writes these as `undefined` fields, which the document store refuses under its default settings, so `setDoc` in `generatePublicLink` would fail for links without both options. That failure is not modelled.
- SyncService.KeyOf: an `id` that is not a string, or that contains a slash, is treated as a rejected document path that fails the whole push. The store accepts some slash ids and writes them elsewhere: `a/b/c` becomes a nested document below the collection, and `/a` or `a/` lose their empty segment and land under `a`; only ids giving an odd number of segments or containing `//` fail there. The model does not capture those writes, nor the store's other path rules.
- Helpers.InsightsFromResponse: a response whose `insights` is missing or not an array fails, as the source's `map` does with a type error; a `null` entry also makes the source fail with a type error, and an object entry without `type` or `text` gives an insight with `undefined` fields. Entries are modelled as already holding both strings, so neither of these last two cases is represented.
- The form setters of the profile other than name and e-mail (bio, experience, social links, contact details): each replaces one field of the draft, as `SetName` does.
- The generate button of the check-in panel and its `isGenerating` flag: they only wrap an external call.
