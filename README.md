# AppBlockerService: the app-blocking state machine of Child_Monitoring

Child_Monitoring's Android side runs an accessibility service,
`AppBlockerService`, that puts a full-screen "App is blocked" overlay over
any application the parent has marked as blocked. This project models that
service in Dafny and proves properties of the model:

- **The blocked-app table** (`blockedApps`). A successful Firestore query
  replaces it wholesale with the non-null, non-empty `packageName` fields of
  the returned documents, in document order. The table is queried by
  `isAppBlocked`, which compares names after `trim()` and `lowercase()`.
- **The session state**: `isOverlayVisible`, `currentBlockedApp`,
  `overlayContainer` (modelled as whether it is non-null), and the single
  "pending delayed block" that the main-looper handler holds. Every post of
  a block callback (AppBlockerService.kt:118-119) is preceded by
  `removeCallbacksAndMessages(null)`, so at most one is pending. The only
  other post, the retry for a missing child id (:70), runs only while the
  table is still empty, when no package is blocked and so no block callback
  is posted.
- **The transitions**: window-state-changed accessibility events, the
  deferred block action that runs after its delay, `showBlockScreen`,
  `removeOverlay`, and the overlay's OK button.

Files:

- `wrappers.dfy`: `Option`, standing for Kotlin's nullable types.
- `package_name.dfy`: `trim()`, `lowercase()` and the normalised key, with
  their laws. The key ignores surrounding whitespace and ASCII case, and
  normalising is idempotent.
- `block_list.dfy`: `isAppBlocked` and the filter the fetch success
  listener applies to the documents.
- `blocker_state.dfy`: the service's fields as a `Session` value and each
  callback as a transition function of it. It also has lemmas about runs of
  inputs: the invariant holds in every reachable state, the own package never
  brings the overlay up, repeated events do not create a second overlay, and
  show and remove are idempotent.
- `app_blocker_service.dfy`: the class `AppBlockerService`, whose fields the
  callback methods update in place. Each method is proved to follow the
  matching transition function. The callback methods (`FetchBlockedApps`,
  `OnAccessibilityEvent`, `OnBlockDelayElapsed`, `OnOkClicked`) also keep
  the object invariant: "overlay visible implies a blocked app is recorded
  and a container is attached". The helper `ShowBlockScreen` keeps it only
  when an app is already recorded, which its one caller guarantees. Two client methods show what a caller can conclude from the
  contracts alone.

Modelling choices:

- Kotlin's `trim()` removes characters for which `Char.isWhitespace()` holds.
  On the JVM that is `Character.isWhitespace` or `Character.isSpaceChar`, and
  `PackageName.IsWhitespace` lists those code points. `lowercase()` is
  modelled on ASCII only: `A`–`Z` become `a`–`z` and all other characters
  are unchanged.
- `AccessibilityEvent.TYPE_WINDOW_STATE_CHANGED` has Android's value 32. No
  proof depends on that value.
- The own-package exemption compares the event's package exactly (without
  normalising), as the code does.
- A null package in a window-state event is never blocked. If a blocked app
  is recorded, that event removes the overlay, because `null` differs from
  the recorded name.
- The Firestore query outcome (`FetchResponse`) and the success of
  `WindowManager.addView` are inputs. The child and user ids read in
  `onServiceConnected` are constructor parameters.

Behaviour of the code worth knowing:

- The code has no time-limit timers and writes nothing back.
- `fetchBlockedApps` runs a one-shot `get()`; nothing listens for later
  changes, and a fetch never shows or removes the overlay.
- The OK button removes the overlay but leaves `currentBlockedApp` set. So
  "overlay hidden implies no recorded app" does not hold. The invariant that
  does hold is the other direction.
- An event for a non-blocked app does not cancel a pending deferred block.
  When that callback fires, it does not re-check the table either. So a
  block posted for app A can still bring the overlay up after the user has
  switched to app B, or after a fetch has removed A from the table.
  `BlockerState.OnAccessibilityEvent` states that the pending slot survives
  such an event.

## Model

| member | source | states |
|---|---|---|
| PackageName.IsWhitespace | android/app/src/main/kotlin/com/example/child_moni/AppBlockerService.kt:141 | Kotlin's `Char.isWhitespace()` on the JVM, by code point; space, tab, newline and carriage return are whitespace, and no ASCII letter, digit, `.` or `_` is, so trimming never cuts into a well-formed package name |
| PackageName.TrimStart | android/app/src/main/kotlin/com/example/child_moni/AppBlockerService.kt:141 | leading trim never grows the name, and its result is empty or starts with non-whitespace |
| PackageName.TrimEnd | android/app/src/main/kotlin/com/example/child_moni/AppBlockerService.kt:141 | trailing trim never grows the name, and its result is empty or ends with non-whitespace |
| PackageName.Trim | android/app/src/main/kotlin/com/example/child_moni/AppBlockerService.kt:141 | `trim()` never grows the name, and its result has no whitespace at either end |
| PackageName.TrimEmptyIffBlank | android/app/src/main/kotlin/com/example/child_moni/AppBlockerService.kt:141 | trimming yields the empty string exactly when the name is entirely whitespace |
| PackageName.TrimIgnoresPadding | android/app/src/main/kotlin/com/example/child_moni/AppBlockerService.kt:141 | adding whitespace on either side does not change the trimmed name |
| PackageName.TrimExact | android/app/src/main/kotlin/com/example/child_moni/AppBlockerService.kt:141 | a name with no whitespace at its ends, padded with whitespace, trims back to exactly that name |
| PackageName.TrimStartIsSuffix | android/app/src/main/kotlin/com/example/child_moni/AppBlockerService.kt:141 | leading trim removes exactly a prefix of whitespace and keeps the rest of the name |
| PackageName.TrimEndIsPrefix | android/app/src/main/kotlin/com/example/child_moni/AppBlockerService.kt:141 | trailing trim removes exactly a suffix of whitespace and keeps the rest of the name |
| PackageName.TrimIdempotent | android/app/src/main/kotlin/com/example/child_moni/AppBlockerService.kt:141 | trimming twice is trimming once |
| PackageName.LowerChar | android/app/src/main/kotlin/com/example/child_moni/AppBlockerService.kt:141 | ASCII capitals map to their small letters, every other character is kept, and whitespace is neither created nor removed |
| PackageName.Lower | android/app/src/main/kotlin/com/example/child_moni/AppBlockerService.kt:141 | `lowercase()` keeps the length and the whitespace positions of the name and leaves no ASCII capital behind |
| PackageName.LowerTrim | android/app/src/main/kotlin/com/example/child_moni/AppBlockerService.kt:141 | lowercasing commutes with trimming |
| PackageName.Normalize | android/app/src/main/kotlin/com/example/child_moni/AppBlockerService.kt:141 | the key `trim().lowercase()` is no longer than the name, has no whitespace at its ends and no ASCII capitals |
| PackageName.NormalizeIdempotent | android/app/src/main/kotlin/com/example/child_moni/AppBlockerService.kt:141-142 | the normalised key of a normalised key is itself |
| PackageName.NormalizeIgnoresPadding | android/app/src/main/kotlin/com/example/child_moni/AppBlockerService.kt:141-142 | the normalised key ignores surrounding whitespace |
| PackageName.NormalizeIgnoresCase | android/app/src/main/kotlin/com/example/child_moni/AppBlockerService.kt:141-142 | names that agree after lowercasing have the same normalised key |
| BlockList.NormalizedEntries | android/app/src/main/kotlin/com/example/child_moni/AppBlockerService.kt:142 | one key per table entry, in table order, each the entry's normalised key and each already normalised |
| BlockList.IsAppBlocked | android/app/src/main/kotlin/com/example/child_moni/AppBlockerService.kt:139-146 | a null package is not blocked; otherwise a package is blocked iff some table entry has the same normalised key; the answer depends only on the table and the name, so the lookup changes no state |
| BlockList.EntryIsBlocked | android/app/src/main/kotlin/com/example/child_moni/AppBlockerService.kt:142-143 | every table entry blocks its own package name |
| BlockList.IsAppBlockedNormalized | android/app/src/main/kotlin/com/example/child_moni/AppBlockerService.kt:141-143 | a name and its normalised key get the same answer |
| BlockList.IsAppBlockedIgnoresCaseAndPadding | android/app/src/main/kotlin/com/example/child_moni/AppBlockerService.kt:139-146 | whitespace around a name and the ASCII case of its letters do not change the answer |
| BlockList.PaddedMixedCaseExample | android/app/src/main/kotlin/com/example/child_moni/AppBlockerService.kt:141-143 | `"  Foo.Bar "` is blocked by the entry `"foo.bar"`, and `"foo.bar"` by the entry `"  Foo.Bar "` |
| BlockList.PackageNames | android/app/src/main/kotlin/com/example/child_moni/AppBlockerService.kt:89-96 | the names the fetch keeps are never more than the documents and none of them is empty |
| BlockList.PackageNamesMembers | android/app/src/main/kotlin/com/example/child_moni/AppBlockerService.kt:89-96 | a name is kept by the fetch iff it is non-empty and some document carries it |
| BlockList.PackageNamesAppend | android/app/src/main/kotlin/com/example/child_moni/AppBlockerService.kt:89-96 | the kept names of concatenated documents are the concatenation of their kept names, so document order is kept |
| BlockList.PackageNamesAllPresent | android/app/src/main/kotlin/com/example/child_moni/AppBlockerService.kt:89-96 | when every document has a non-empty name, the table is exactly those names in document order |
| BlockerState.Initial | android/app/src/main/kotlin/com/example/child_moni/AppBlockerService.kt:25-34 | a new service has an empty table, no overlay, no recorded app and nothing pending, and satisfies the invariant |
| BlockerState.FetchBlockedApps | android/app/src/main/kotlin/com/example/child_moni/AppBlockerService.kt:76-102 | nothing changes when the child id or the user id is null or empty, or when the query fails; otherwise only the table changes, and it becomes exactly the names `PackageNames` keeps from the documents; the invariant is kept |
| BlockerState.FetchReplacesWholesale | android/app/src/main/kotlin/com/example/child_moni/AppBlockerService.kt:87-96 | after a successful fetch the table does not depend on the previous table, and holds exactly the non-empty names carried by the documents |
| BlockerState.ShowBlockScreen | android/app/src/main/kotlin/com/example/child_moni/AppBlockerService.kt:148-207 | no-op when the overlay is visible; otherwise a container is assigned and the overlay becomes visible exactly when addView succeeds; nothing else changes |
| BlockerState.RemoveOverlay | android/app/src/main/kotlin/com/example/child_moni/AppBlockerService.kt:209-219 | afterwards the overlay is hidden; no-op when it was hidden; otherwise the container is dropped; nothing else changes |
| BlockerState.IsIgnored | android/app/src/main/kotlin/com/example/child_moni/AppBlockerService.kt:105-115 | the events `onAccessibilityEvent` returns from at once: a null event, a type other than `TYPE_WINDOW_STATE_CHANGED`, or the own package |
| BlockerState.OnAccessibilityEvent | android/app/src/main/kotlin/com/example/child_moni/AppBlockerService.kt:104-132 | a null event, a non-window-change event, or the own package changes nothing; a blocked package replaces the pending block with one for itself and changes nothing else; another package, different from a recorded blocked app, hides the overlay, drops the container if it was shown, and forgets the app, while the pending block, the table and the ids stay as they were; the invariant is kept |
| BlockerState.OnBlockDelayElapsed | android/app/src/main/kotlin/com/example/child_moni/AppBlockerService.kt:117-125 | empties the pending slot; when the overlay already shows for the pending package nothing else changes; otherwise that package is recorded and shown (a container is assigned if the overlay was hidden) and nothing else changes; the invariant is kept |
| BlockerState.OnOkClicked | android/app/src/main/kotlin/com/example/child_moni/AppBlockerService.kt:176-179 | hides the overlay and leaves every other field (recorded app, pending block, table, ids) as it was, except that a shown container is dropped |
| BlockerState.Step | android/app/src/main/kotlin/com/example/child_moni/AppBlockerService.kt:104-219 | one input handled to completion keeps the invariant and the two ids, and only a fetch changes the table |
| BlockerState.Run | android/app/src/main/kotlin/com/example/child_moni/AppBlockerService.kt:104-219 | inputs handled one after another on the main looper never change the ids, and a run without a fetch never changes the table |
| BlockerState.RunAppend | android/app/src/main/kotlin/com/example/child_moni/AppBlockerService.kt:104-219 | handling two input sequences in turn is handling their concatenation |
| BlockerState.RunPreservesInv | android/app/src/main/kotlin/com/example/child_moni/AppBlockerService.kt:104-219 | every sequence of events, elapsed delays, fetches and OK clicks keeps "overlay visible implies a recorded app and an attached container" |
| BlockerState.ReachableSatisfiesInv | android/app/src/main/kotlin/com/example/child_moni/AppBlockerService.kt:25-34 | every state reachable from a new service satisfies the invariant |
| BlockerState.IgnoredEventsChangeNothing | android/app/src/main/kotlin/com/example/child_moni/AppBlockerService.kt:105-115 | any sequence of null, non-window-change and own-package events leaves the state exactly as it was |
| BlockerState.OwnPackageNeverShowsOverlay | android/app/src/main/kotlin/com/example/child_moni/AppBlockerService.kt:112-115 | from a state with no overlay and nothing pending, inputs whose events are all own-package or otherwise ignored never bring the overlay up |
| BlockerState.ShowBlockScreenIdempotent | android/app/src/main/kotlin/com/example/child_moni/AppBlockerService.kt:149-152 | showing again once the overlay is visible changes nothing |
| BlockerState.RemoveOverlayIdempotent | android/app/src/main/kotlin/com/example/child_moni/AppBlockerService.kt:209-219 | removing twice is removing once |
| BlockerState.RepeatedBlockedEventShowsOnce | android/app/src/main/kotlin/com/example/child_moni/AppBlockerService.kt:117-125 | once the overlay shows after an event for a blocked package, a second event for it and its delay leave the state unchanged |
| Blocker.AppBlockerService.constructor | android/app/src/main/kotlin/com/example/child_moni/AppBlockerService.kt:25-34 | the fields start as in the source: no container, empty table, overlay hidden, no recorded app, nothing pending |
| Blocker.AppBlockerService.FetchBlockedApps | android/app/src/main/kotlin/com/example/child_moni/AppBlockerService.kt:76-102 | the clear-then-add loop leaves the fields as `BlockerState.FetchBlockedApps` prescribes, and keeps the invariant |
| Blocker.AppBlockerService.OnAccessibilityEvent | android/app/src/main/kotlin/com/example/child_moni/AppBlockerService.kt:104-132 | updates the fields as `BlockerState.OnAccessibilityEvent` prescribes, and keeps the invariant |
| Blocker.AppBlockerService.OnBlockDelayElapsed | android/app/src/main/kotlin/com/example/child_moni/AppBlockerService.kt:119-125 | updates the fields as `BlockerState.OnBlockDelayElapsed` prescribes, and keeps the invariant |
| Blocker.AppBlockerService.ShowBlockScreen | android/app/src/main/kotlin/com/example/child_moni/AppBlockerService.kt:148-207 | updates the fields as `BlockerState.ShowBlockScreen` prescribes |
| Blocker.AppBlockerService.RemoveOverlay | android/app/src/main/kotlin/com/example/child_moni/AppBlockerService.kt:209-219 | updates the fields as `BlockerState.RemoveOverlay` prescribes; the overlay is hidden afterwards |
| Blocker.AppBlockerService.OnOkClicked | android/app/src/main/kotlin/com/example/child_moni/AppBlockerService.kt:176-179 | updates the fields as `BlockerState.OnOkClicked` prescribes, and keeps the invariant |

## Left out

- PackageName.Lower and PackageName.LowerChar: model `lowercase()` on ASCII letters only. Kotlin uses the full Unicode mapping of `Locale.ROOT`, including mappings that change the length of the string.
- The Firestore query and its transport (`collection(...).whereEqualTo("isBlocked", true).get()`) are foreign calls. The model takes their outcome as a `FetchResponse` input. Only the `packageName` field of each document is modelled.
- BlockerState.FetchBlockedApps: a document whose `packageName` field holds something other than a String is not expressible, since the input is `seq<Option<string>>`. In the code, `doc.getString("packageName")` (AppBlockerService.kt:90) then throws after `blockedApps.clear()` (:88) has run. The table is left holding only the names of the documents before that one, and the exception escapes the success listener.
- The FirebaseAuth and SharedPreferences reads in `onServiceConnected` are foreign calls too. Their results are constructor parameters. The order in which `onServiceConnected` calls the fetch is left to the caller.
- The permission check `Settings.canDrawOverlays` only logs, so it is left out.
- `waitForChildDocIdAndFetchApps` is left out. It is a once-per-second retry driven by timers, and it never re-reads the id.
- Real time is left out. The 300 ms delay becomes the single pending slot, which fires when a `BlockDelayElapsed` input arrives.
- The view construction in `showBlockScreen` (colours, text, button, layout parameters, `WindowManager` flags) is UI. `addView` is reduced to a success input. `removeView` is taken to succeed.
- `navigateToHome` is left out; it is an Intent side effect of the OK button. `onInterrupt` and all logging are left out too.
- `MainActivity.kt`, `BootReciever.kt`, `RestartReceiver.kt` and `PersistentService.kt` are left out. They are permission, Flutter-channel and process-lifecycle plumbing.
- Concurrency is left out. All callbacks run on the main looper, so the model treats them as a sequence of inputs.
