# Video permissions app — permission engine and recording pipeline in Dafny

This project models the two pieces of logic in the React Native app that hold
real decisions. The rest of the app is screen layout.

1. **The permission engine** (`src/utils/PermissionUtils.js`) and the screen
   that presents it (`src/screens/EnhancedPermissionScreen.js`).
   - The Android API level is turned into version flags.
   - The flags choose the required permissions (camera, fine and coarse
     location, and one of four storage tiers) and the special
     all-files-access permission.
   - Every one of them is checked or requested, and the answers are folded
     into an insertion-ordered status object keyed by short names.
   - That object is judged against the satisfaction rule for the device's
     tier and sorted into the detail rows the screen renders.
   - The denied-permissions alert, the status badges and the version card
     are derived from the same data.
2. **The recording pipeline** in `src/screens/VideoPlayerScreen.js`.
   - A clip captured by the front camera is moved into app storage under a
     temporary name.
   - It is transcoded into its final name. If the transcoder fails, the raw
     clip is moved there instead.
   - It is then copied, best effort, to the public Downloads folder and
     saved, best effort, to the gallery.
   - The same screen also holds:
     - the playback and recording toggles that start the pipeline;
     - the `mm:ss` clock;
     - the four-corner cycle of the camera preview and its style;
     - the back-button rule, as the on-screen button applies it and as the
       hardware button applies it.

The modules follow the program:

| module | file |
|---|---|
| `Results` | `Option` and `Result` |
| `Text` | decimal conversion, `padStart`, `startsWith`, first-match `replace`, `join`, lower-casing and the order used for names |
| `OrderedMap` | a JavaScript object with string keys, as an association list in insertion order (assignment, spread, lookup) |
| `Permissions` | everything in `PermissionUtils.js` except the detail rows |
| `Details` | `getDetailedPermissionInfo` and its sort |
| `Alerts` | the shape of a native alert |
| `PermissionScreen` | `EnhancedPermissionScreen.js` |
| `FileSystem` | the `react-native-fs` calls the pipeline makes, over an abstract file system |
| `Transcoder` | `compressVideoWithFFmpeg` |
| `Recording` | `startRecording` |
| `Player` | the remaining rules of `VideoPlayerScreen.js` |

Native calls are modelled as parameters.
- A permission check returns an `Answered` result or is `Rejected`.
- A batch request either answers every permission or is `BatchRejected`.
  Its result object is taken to hold exactly the requested ids, in request
  order.
- Each file-system, transcoder and gallery call succeeds or fails according
  to an injected outcome flag.
- The camera's `recordAsync` yields a clip URI or fails.
- `Date.now()` is an injected timestamp.
- The storage roots of `RNFS` are parameters.

## Behaviour worth knowing

- **An unavailable special permission reads as denied.** In
  `checkAllPermissions` a rejected check of the all-files-access permission
  becomes `UNAVAILABLE` (`PermissionUtils.js:103-105`). It is then stored as
  `=== GRANTED` (`PermissionUtils.js:116-119`), which is `false`
  (`Permissions.CheckAll`). The unused `PermissionScreen.js` does the
  opposite: it starts from `GRANTED` and keeps it when the check throws
  (`PermissionScreen.js:48-55`).
- **There is no in-flight guard in the pipeline itself.** `startRecording`
  only checks that the camera is present and ready
  (`VideoPlayerScreen.js:210-213`). The "one recording at a time" guard is
  in its callers, which look at `isRecording` (`Player.GuardedLifecycle`).
  Called directly while a recording is in progress, it asks the camera for
  another recording and, given a clip, touches the file system
  (`Recording.NoInFlightGuard`).
- **The hardware back button always leaves.** The listener is registered
  once, in an effect with no dependencies (`VideoPlayerScreen.js:45-61`). It
  keeps the `handleBackPress` of the first render, where nothing is being
  recorded or processed, so a hardware press leaves the screen even during a
  recording, without stopping it (`Player.HardwareBackIsStale`). Only the
  on-screen button (`VideoPlayerScreen.js:475-478`) applies the current rule.
  That button is hidden while processing (`VideoPlayerScreen.js:471`), so the
  "Processing Video" alert is out of reach (`Player.OnScreenBack`).
- **Before the first check, the legacy storage tier is assumed.** The screen
  starts with `versionInfo: {}` (`EnhancedPermissionScreen.js:20-25`). As
  long as that is still the state, `isPermissionRequired` treats the device
  as pre-Android 10. It therefore names the read and write storage
  permissions as required (`PermissionScreen.DeniedBeforeCheck`).

## Model

| member | source | states |
|---|---|---|
| Permissions.FlagsMonotone | src/utils/PermissionUtils.js:19-30 | The version flags are nested (13+ implies 11+, 11+ implies 10+), the empty object of a screen that has not checked yet is nested too, and a later API level never clears a flag that an earlier one sets |
| Permissions.TierBands | src/utils/PermissionUtils.js:266-286 | The satisfaction rule reads granular media exactly for API 33 and up, all-files access or read storage exactly for 30–32, read storage only exactly for 29, and read and write storage exactly below 29 |
| Permissions.RequestListIgnoresManageTier | src/utils/PermissionUtils.js:45-61 | The request list has only three storage branches: on API 30–32 it asks for the same permissions as on 29, although the satisfaction rule puts those versions in a tier of their own |
| Permissions.KeyIdRoundTrip | src/utils/PermissionUtils.js:190-204 | Turning a known short key into its Android id and back gives the key; turning an id into a known key and back gives the id |
| Permissions.PermissionKeyInjective | src/utils/PermissionUtils.js:190-204 | Two ids that map to the same known key are the same id, so folding by key never merges two different permissions |
| Permissions.FilterValid | src/utils/PermissionUtils.js:209-211 | The validity filter keeps exactly the entries that are Android permission strings and is the identity on a list whose entries are all valid |
| OrderedMap.Dedupe | src/utils/PermissionUtils.js:64 | Removing duplicates from the required list leaves a duplicate-free list with the same members, and it is the identity on a list that was already duplicate-free |
| OrderedMap.DedupeFirstOrder | src/utils/PermissionUtils.js:64 | Like a JavaScript `Set`, removing duplicates keeps each element at its first occurrence: the result lists the elements in the order they first appear |
| Permissions.RequiredPermissions | src/utils/PermissionUtils.js:35-65 | The required list is the ids of the tier's keys: duplicate-free, every entry valid, and no two entries with the same short key |
| Permissions.RequiredPermissionBands | src/utils/PermissionUtils.js:35-65 | Camera and both locations are always required. Video and images are required iff API ≥ 33, read storage iff API < 33, and write storage iff API < 29. All-files access and audio are never in the list. It has 4 entries on API 29–32 and 5 otherwise |
| Permissions.SpecialPermissions | src/utils/PermissionUtils.js:70-86 | All-files access is the one special permission from API 30 on; below 30 there is none |
| Permissions.FilterSpecial | src/utils/PermissionUtils.js:85 | The special list keeps exactly the entries whose permission string is valid |
| Permissions.QueriedIds | src/utils/PermissionUtils.js:93-106 | The permissions a check queries are the required ids followed by the special ids, and no two of them share a short key |
| Permissions.SpecialsFresh | src/utils/PermissionUtils.js:144-167 | The special ids are duplicate-free and none of them is a required id, so spreading them after the required results adds keys and overwrites none |
| Permissions.FoldStatusDistinct | src/utils/PermissionUtils.js:109-119 | Folding answers with distinct keys into the status object keeps their order, and every key looks up `true` exactly when its answer was `granted` |
| Permissions.QueryAnswers | src/utils/PermissionUtils.js:97-106 | The answers of one check come back in query order: regular answers for the required prefix, special answers (after their fallback) for the rest |
| Permissions.FoldQuery | src/utils/PermissionUtils.js:109-119 | The status object holds exactly the queried keys; a required key is `true` iff its check said granted, and all-files access is `true` iff its check said granted (API ≥ 30) or is absent (API < 30) |
| Permissions.SettledGranted | src/utils/PermissionUtils.js:103-105 | A query that fails and falls back to a non-granted result can never read as granted; any other query reads as granted iff it answered granted |
| Permissions.CheckAll | src/utils/PermissionUtils.js:91-130 | A check fails iff some required check is rejected. A rejected special check does not fail it: it reads as denied. On success the status, the version info and the verdict are those of the device and the answers |
| Permissions.RequestAll | src/utils/PermissionUtils.js:135-185 | A request fails iff the batch request is rejected. A failed special request counts as denied. Given a batch result that holds the requested ids in request order, the raw results list the queried ids in order, the status object holds exactly the queried keys, each key is granted iff its request was, and the verdict is the satisfaction rule on that status |
| Permissions.SpreadIsAppend | src/utils/PermissionUtils.js:167 | Spreading the special results over the batch results is the same as appending them in query order, with a failed special request read as denied |
| OrderedMap.PutAllLookup | src/utils/PermissionUtils.js:167 | After spreading one object over another, a key of the later object reads its later value and any other key keeps its earlier one |
| Permissions.SatisfactionReadsOnly | src/utils/PermissionUtils.js:254-289 | The verdict depends only on the keys the device's tier reads: two status objects that agree on those keys get the same verdict |
| Permissions.CameraNecessary | src/utils/PermissionUtils.js:257-261 | Without the camera no status object is satisfied, on any version |
| Permissions.SatisfiedMonotone | src/utils/PermissionUtils.js:254-289 | Granting more permissions never turns a satisfied verdict into an unsatisfied one |
| Permissions.ReadKeysAreQueried | src/utils/PermissionUtils.js:254-289 | Every key the satisfaction rule reads on a device is one that the check of that device queries |
| Permissions.RequiredAreReadKeys | src/utils/PermissionUtils.js:372-387 | A key is reported as required iff it is one of the keys the satisfaction rule reads for that version |
| Permissions.RequiredSuffices | src/utils/PermissionUtils.js:372-387 | Granting every key reported as required satisfies the rule |
| Permissions.RequiredNotNecessary | src/utils/PermissionUtils.js:372-387 | Coarse location is reported as required but not needed: with every other permission granted and coarse location denied, the verdict is still satisfied, because either location suffices |
| Details.PrecedesTotal | src/utils/PermissionUtils.js:361-366 | Any two detail rows are ordered one way or the other by the sort's comparator |
| Details.PrecedesTransitive | src/utils/PermissionUtils.js:361-366 | The comparator (required first, then by name) is transitive, so the sorted order is well defined |
| Details.InsertDetail | src/utils/PermissionUtils.js:361-366 | Inserting a row into a sorted list gives a sorted list with one more element, and the same rows plus the new one |
| Details.SortDetails | src/utils/PermissionUtils.js:361-366 | The sort returns a sorted permutation of its input |
| Details.DetailedPermissionInfo | src/utils/PermissionUtils.js:345-367 | The detail list is a sorted permutation of the rows of the status object, and every required row comes before every optional one |
| Details.DetailRowFaithful | src/utils/PermissionUtils.js:349-359 | Every row shown has its key's granted flag from the status object, the required flag of `isPermissionRequired` for the device, and the key's display name and description |
| Details.DetailRowPresent | src/utils/PermissionUtils.js:349-359 | Every status entry shows up as a row |
| PermissionScreen.DeniedKeys | src/screens/EnhancedPermissionScreen.js:83-85 | The denied list only names permissions that are required for the given version, and it is no longer than the status object |
| PermissionScreen.DeniedKeysExact | src/screens/EnhancedPermissionScreen.js:83-85 | A key is listed as denied iff the status object holds `false` for it and it is required for the version |
| PermissionScreen.PermissionDeniedAlert | src/screens/EnhancedPermissionScreen.js:82-113 | The alert is titled "Permissions Required", its message starts with the fixed header, its first action is "OK", and it offers "Open Settings" iff the device is Android 11 or newer |
| PermissionScreen.ManualSetupIffSettings | src/screens/EnhancedPermissionScreen.js:87-94 | The message is the header plus the newline-joined names. The manual-setup note is appended iff the device is Android 11+, and the "11 or 13" test equals the "11" test on nested flags |
| PermissionScreen.Classify | src/screens/EnhancedPermissionScreen.js:120-122 | A row is granted iff it is granted, shown as required iff it is denied and required, and shown as optional iff it is denied and not required |
| PermissionScreen.RenderItem | src/screens/EnhancedPermissionScreen.js:119-138 | The "required for app" note appears exactly on denied required rows, and the badge text and colour are those of the row's class |
| PermissionScreen.StatusTextInjective | src/screens/EnhancedPermissionScreen.js:122 | The three badge texts are pairwise different, so the badge identifies the class |
| PermissionScreen.RenderVersionInfo | src/screens/EnhancedPermissionScreen.js:140-154 | No card is shown iff the version is missing or 0; otherwise the card is titled "Android " followed by the version number |
| PermissionScreen.VersionCardOneBand | src/screens/EnhancedPermissionScreen.js:146-151 | On nested flags the card shows exactly one storage line, the one of the device's storage tier |
| PermissionScreen.DeviceVersionCard | src/screens/EnhancedPermissionScreen.js:140-154 | For a real device the card shows the granular line from API 33, the manual-access line on 30–32, the scoped line on 29 and the traditional line below 29 |
| PermissionScreen.CheckPermissions | src/screens/EnhancedPermissionScreen.js:27-49 | After a check, loading is off. A successful check stores the status object, the verdict and the detail list of that check. Navigation is scheduled after 1500 ms iff the check succeeded with every required permission satisfied. An error alert is shown iff the check failed, and a failed check changes nothing else |
| PermissionScreen.CheckStoresVerdict | src/screens/EnhancedPermissionScreen.js:30-35 | The stored verdict is the satisfaction rule applied to the stored status, which holds exactly the queried keys |
| PermissionScreen.RequestPermissions | src/screens/EnhancedPermissionScreen.js:51-80 | After a request, requesting is off and the version info is kept. A successful request stores the status object, the verdict and the detail list of that request, and shows the success alert if everything is satisfied and the denied-permissions alert otherwise. A failed request shows the error alert and changes nothing else |
| PermissionScreen.RequestAfterCheckNamesDenied | src/screens/EnhancedPermissionScreen.js:82-85 | After a successful check, the denied alert of a later request names exactly the permissions that the request denied and that are required on the device |
| PermissionScreen.DeniedBeforeCheck | src/screens/EnhancedPermissionScreen.js:20-25 | With the initial empty version info, the denied list is judged as pre-Android 10: exactly the denied keys among camera, both locations, read and write storage |
| FileSystem.MoveFile | src/screens/VideoPlayerScreen.js:247 | A move succeeds iff the source exists and the call succeeds. The target then holds the source's content, the source is gone, and every other path is untouched |
| FileSystem.CopyFile | src/screens/VideoPlayerScreen.js:276 | A copy succeeds iff the source exists and the call succeeds. The target then holds the source's content, and every other path is untouched |
| FileSystem.Unlink | src/screens/VideoPlayerScreen.js:257 | Removing a file succeeds iff it exists and the call succeeds, and then only that file disappears |
| Transcoder.Transcode | src/screens/VideoPlayerScreen.js:185-205 | A session succeeds iff its return code is a success and the input exists. The output then holds the re-encoding of the input, and nothing else changes |
| Transcoder.ProgressOf | src/screens/VideoPlayerScreen.js:175-182 | The progress shown is between 0 and 100. It is 100 from 30 s on, and otherwise the elapsed share of 30 s as a percentage rounded to the nearest integer |
| Transcoder.ProgressMonotone | src/screens/VideoPlayerScreen.js:177-180 | A later statistics time never shows less progress |
| Transcoder.Updates | src/screens/VideoPlayerScreen.js:175-182 | At most one progress value is shown per statistics report, each between 0 and 100 |
| Transcoder.UpdatesMonotone | src/screens/VideoPlayerScreen.js:175-182 | Statistics times that never go back give a progress bar that never goes back |
| Transcoder.ProgressTrace | src/screens/VideoPlayerScreen.js:164-207 | A session's progress starts at 0 and ends at 0 whether it succeeds or fails, with every value between 0 and 100 |
| Recording.PathsDistinct | src/screens/VideoPlayerScreen.js:234-271 | The temporary path, the final path and the Downloads copy are three different files for the same timestamp |
| Recording.RawPath | src/screens/VideoPlayerScreen.js:247 | Stripping the first `file://` gives the path behind the scheme when the URI starts with it, and leaves a URI without the scheme unchanged |
| Recording.GalleryUriRoundTrip | src/screens/VideoPlayerScreen.js:284 | The gallery URI built from a path strips back to that path |
| Recording.PersistTemp | src/screens/VideoPlayerScreen.js:239-248 | Persisting succeeds iff the recordings directory exists or is created, the clip exists and the move succeeds. The temporary file then holds the clip, and no later stage is attempted here |
| Recording.Promote | src/screens/VideoPlayerScreen.js:250-266 | The transcoder always runs first. The stage succeeds iff transcoding or the fallback move succeeds, and then the final file exists. After transcoding it holds the re-encoding, and the temporary file stays iff its removal failed. After the fallback it holds the raw clip and the temporary file is gone. When both fail, the files are unchanged and the temporary clip survives |
| Recording.CopyToDownloads | src/screens/VideoPlayerScreen.js:268-280 | The Downloads copy succeeds iff its directory exists or is created and the copy succeeds. It then adds exactly the copy; otherwise the files are unchanged |
| Recording.CopyKeepsArchive | src/screens/VideoPlayerScreen.js:268-280 | The Downloads step never alters the final file or the presence of the temporary file |
| Recording.SaveRecording | src/screens/VideoPlayerScreen.js:233-303 | Saving ends in one of three alerts: the save error, saved with gallery, or saved to Downloads |
| Recording.StartRecording | src/screens/VideoPlayerScreen.js:209-316 | Without a ready camera nothing happens but the "not ready" alert. Otherwise the recording, processing, progress and timer flags are all reset at the end, and a failed recording touches no file |
| Recording.TempFailureAborts | src/screens/VideoPlayerScreen.js:239-303 | If persisting the clip fails, the save-error alert is shown, the gallery is untouched, and no transcode, copy or gallery call is made |
| Recording.TranscodeSuccess | src/screens/VideoPlayerScreen.js:250-260 | After a successful transcode, the recording is reported saved. The final file holds the re-encoded clip, and the temporary file is left only when its removal failed |
| Recording.TranscodeFallback | src/screens/VideoPlayerScreen.js:262-266 | If the transcode fails but the fallback move succeeds, the recording is reported saved, the final file holds the raw clip and the temporary file is gone |
| Recording.FallbackFailure | src/screens/VideoPlayerScreen.js:262-303 | If both the transcode and the fallback move fail, the save-error alert is shown and no copy or gallery call is made |
| Recording.ArchivedRun | src/screens/VideoPlayerScreen.js:250-298 | Once the final file exists, the run keeps it as promoted, the gallery gets the save's entry, and the alert depends only on the gallery save |
| Recording.BestEffortStages | src/screens/VideoPlayerScreen.js:268-298 | The Downloads copy is best effort: its outcome never changes the alert, the final file or the gallery |
| Recording.GalleryEntryIsFinal | src/screens/VideoPlayerScreen.js:283-291 | A successful gallery save records the final file (not the temporary one) and shows the "saved to Gallery and Downloads" alert |
| Recording.NoInFlightGuard | src/screens/VideoPlayerScreen.js:209-231 | With a ready camera, a call made while a recording is already in progress does exactly what a call from an idle screen does, and with a clip to save it touches the file system: the pipeline has no guard of its own |
| Player.JsRem | src/screens/VideoPlayerScreen.js:159 | JavaScript's `%` truncates: the remainder has the dividend's sign, is smaller than the divisor in size, and completes the truncating division |
| Player.FormatTimeRoundTrip | src/screens/VideoPlayerScreen.js:157-161 | A clock of a non-negative time is the minutes in decimal, a colon and two seconds digits, and reading it back gives the time |
| Player.FormatTimeInjective | src/screens/VideoPlayerScreen.js:157-161 | Different non-negative times give different clocks |
| Player.FormatTimeNegative | src/screens/VideoPlayerScreen.js:157-161 | A negative time shows its floored minutes with a minus sign, then a colon and the truncated seconds as "-" and their digits, or "00" on a whole minute: -65 s shows as "-2:-5" and -60 s as "-1:00" |
| Player.IndexOf | src/screens/VideoPlayerScreen.js:344 | The index is the first occurrence of the position, or -1 iff it is absent |
| Player.CyclePosition | src/screens/VideoPlayerScreen.js:342-347 | The next position is always one of the four corners; an unknown position goes to top-left |
| Player.CycleStep | src/screens/VideoPlayerScreen.js:342-347 | Each corner goes to the next one in list order, and the last goes back to the first |
| Player.CycleAgrees | src/screens/VideoPlayerScreen.js:342-347 | The cycle on names agrees with the clockwise successor of an abstract corner |
| Player.CycleReturns | src/screens/VideoPlayerScreen.js:342-347 | Four presses of the cycle button bring the preview back to where it started |
| Player.CameraStyle | src/screens/VideoPlayerScreen.js:349-364 | The preview is anchored to exactly one of top and bottom and to exactly one of left and right |
| Player.CameraStyleCorner | src/screens/VideoPlayerScreen.js:349-364 | The two top corners are anchored to the top, and the first and third corners to the left |
| Player.CameraStyleDefault | src/screens/VideoPlayerScreen.js:360-362 | An unknown position is placed like bottom-right |
| Player.TogglePlayPauseMatchesEffect | src/screens/VideoPlayerScreen.js:119-126 | The play toggle starts a recording exactly when the auto-start effect would fire on the state it leaves, and once the recording is marked the effect does not start a second one. Toggling twice restores playback, and two toggles in a row never both start a recording |
| Player.ToggleRecording | src/screens/VideoPlayerScreen.js:324-330 | The record button starts a recording iff none is in progress, and stops one iff one is in progress and the camera exists |
| Player.OnEnd | src/screens/VideoPlayerScreen.js:143-149 | At the end of the video, playback stops and the controls show, and no other flag changes: the recording and processing flags stay until the pipeline clears them. The recording is stopped iff one is in progress and the camera exists |
| Player.GuardedLifecycle | src/screens/VideoPlayerScreen.js:83-149 | Every caller that starts a recording (play toggle, auto-start effect, record button) needs none in progress. Once one has begun, no caller starts another, the back rule asks for confirmation, and the end of the video and the record button stop it iff the camera exists. The back rule never leaves while the screen could stop a recording |
| Player.HandleBackPress | src/screens/VideoPlayerScreen.js:83-108 | Back navigates away iff nothing is being recorded or processed, and asks for confirmation iff a recording is in progress |
| Player.OnScreenBack | src/screens/VideoPlayerScreen.js:471-478 | The on-screen back button, drawn only while not processing, asks for confirmation while recording and leaves otherwise; it never shows the "please wait" alert |
| Player.HardwareBackIsStale | src/screens/VideoPlayerScreen.js:45-61 | The hardware listener keeps the first render's flags, under which back leaves. It differs from the current rule exactly while recording or processing, and while recording the current rule would ask for confirmation instead |

## Left out

- The native permission library, the file system, FFmpeg, the camera roll,
  `recordAsync` and `Date.now()` are parameters or injected outcomes, as
  described above. Their internals are not modelled.
- `showPermissionRationale` and `showSettingsDialog` (`PermissionUtils.js:294-340`)
  only display alerts, with no result. They are left out.
- The "Open Settings" action of the denied alert (`EnhancedPermissionScreen.js:98-108`)
  opens the system settings and re-checks after a timer. The model keeps only
  its presence in the action list.
- `console` logging, the React state batching and render, the 1 s recording
  timer and the `setTimeout` navigation are left out. Navigation is reported
  as the delay it is scheduled with.
- `src/screens/PermissionScreen.js` is not used by the app, and
  `VideoListScreen.js`, `App.tsx` and the scripts are layout and tooling.
  They are not part of this model.
- `FileSystem.Mkdir`: `RNFS.exists` is assumed never to reject, and directory
  nesting is not modelled. A move or copy does not check that the target's
  directory exists.
- `Permissions.RequestAll`: the result object of `requestMultiple` is
  assumed to hold exactly the requested ids, in request order. The
  permission library fixes neither, and that order decides the key order of
  the status object and the order of names in the denied alert.
- `Recording.NoInFlightGuard`: what the camera does with a second
  `recordAsync` while one is running is not modelled; its outcome is
  injected as for any other call.
- `Transcoder.Transcode`: a failed session leaves no partial output file. The
  FFmpeg argument string (codec, bit rate, preset) is not modelled.
- `Transcoder.ProgressOf`: the statistics time is an integer number of
  milliseconds, so `Math.round` on a float is modelled as integer rounding
  half up. The 30 s estimate is the source's own constant.
- `Player.FormatTimeRoundTrip`: times are whole seconds. The same function
  also formats the player's `currentTime` and `duration`
  (`VideoPlayerScreen.js:516`, `VideoPlayerScreen.js:531`), which are
  fractional; `Math.floor` on fractional seconds is not modelled.
- `Permissions.FilterValid`: the Android ids are constant strings, so an
  entry of the permission library that is undefined on some platform is not
  modelled. On the lists the model builds, the filter therefore drops nothing.
- `Permissions.FilterSpecial`: for the same reason, the special list is never
  shortened on the lists the model builds.
- `Details.SortDetails`: `localeCompare` is modelled as an ASCII
  case-insensitive order, which orders the app's fixed, ASCII-only display
  names the same way. The sort is an insertion sort, and its contract is
  stated as sorted plus permutation; stability is not stated.
- `Recording.StartRecording`: the recording's length, the "Stop & Go Back"
  confirmation action and the emoji and styling of alerts and badges are
  not modelled.
