# pi-updater: the version check, in Dafny

This project models the update checker of the pi coding agent (`index.ts`). The checker decides whether a newer release of `@mariozechner/pi-coding-agent` exists. It keeps that knowledge in a small cache file and offers the user an install.

The model has four parts:

- **Version parsing and ordering** (`VersionCompare`, with the JavaScript string operations it needs in `Text`). `ParseVersion` trims the string, splits it on `.` and needs exactly three numeric segments. `IsNewer` is strict lexicographic order on (major, minor, patch). An unparseable version is never newer.
- **The cache file** (`UpdateCache`). The file is the `cache` field of the class `CacheFile`, of type `Option<VersionCache>`. A missing or corrupt file reads as `None`. A failed write is swallowed and leaves the file unchanged; the `writeOk` parameter says whether a write succeeds. The class has `Read`, `Write`, `Dismiss` (`dismissVersion`) and `RecordLatest`. `RecordLatest` is the write shared by the background refresh and the `update` command: it stores the fetched version and re-reads the dismissal at write time.
- **The passive check** (`UpdateController`). `UpgradeDecision` is the decision of `getUpgradeVersion`. `RefreshLands` is the write of the background refresh, made when its fetch completes. A caller can run it before or after a `Dismiss`, which is how the model expresses the race between the two. `OnSession` is the `session_start`/`session_switch` hook.
- **The prompt, the install and the `update` command** (`UpdateController`). These are `ShowUpdatePrompt`, `DoInstall` and `UpdateCommand`. Whatever the outside world answers is passed in as a `Responses` value: the menu label picked, the exit of the install process, an abort of the install wait, the answer to the shutdown question, and, separately, whether the `update` command's write of the fetched version and the write of "Skip this version" succeed. The fetched latest version is an `Option<string>` parameter. What the flow shows the user (notifications, the menu, the shutdown question, the shutdown itself) is appended in order to `Context.events`. Each method's contract ties that log and the cache file to a specification function (`InstallEvents`, `PromptEvents`, `PromptCache`, `CheckEvents`, `CheckCache`). Lemmas state what each of them promises: `FailedInstallOnlyNotifies` and `ShutdownNeedsSuccessAndConsent` for `InstallEvents`, `PromptShowsMenuFirst` for `PromptEvents`, `PromptKeepsCacheUnlessDismissed` for `PromptCache`, `UpdateCommandEvents` and `UpdateCommandBypassesDismissal` for `CheckEvents`, and `UpdateCommandCache` for `CheckCache`.

JavaScript truthiness is kept where the code relies on it:

- An empty menu label is treated like "Skip".
- An empty fetched version is treated like a failed fetch. The refresh writes nothing, and the `update` command reports "Could not reach npm registry.".

Two behaviours of the code are modelled as written:

- `getInstallCommand` always returns `npm install -g <package>@<version>`, with no runtime or package-manager detection. `doInstall` still treats the program `echo` as a sentinel that only shows its first argument.
- `Number("")` is 0, so an empty segment reads as 0: "1.2." parses as 1.2.0 (`EmptySegmentReadsAsZero`).

## Model

| member | source | states |
|---|---|---|
| `Text.Trim` | index.ts:35 | the trimmed string has no white space at either end and is empty exactly when the input is all white space |
| `Text.TrimIdempotent` | index.ts:35 | trimming a trimmed string changes nothing |
| `Text.Split` | index.ts:35 | `split(".")` yields one more part than there are dots, and no part contains a dot |
| `Text.JoinSplit` | index.ts:35 | joining the parts of a split with the separator gives back the original string |
| `Text.Join` | index.ts:100 | `[]` joins to the empty string and one part to itself; otherwise the first part is followed by the separator; `JoinSplit` and `SplitJoin` make it the inverse of `Split` |
| `Text.SplitJoin` | index.ts:35 | splitting a join of separator-free parts gives back the parts |
| `Text.DecimalRoundTrip` | index.ts:37 | a printed natural number reads back as itself |
| `VersionCompare.SegmentValue` | index.ts:37 | `Number(segment)`: a blank segment is 0, a run of digits is its decimal value, a `+` before digits keeps that value, a `-` negates it (and is the only way to a negative value), and any other trimmed segment is NaN (`None`) |
| `VersionCompare.SegmentOfNumeral` | index.ts:37 | `Number` of the numeral printed for any integer, negative ones included, is that integer |
| `VersionCompare.ParseVersion` | index.ts:34-40 | a parse succeeds only with exactly two dots in the trimmed string, and the result holds the three segment values in order |
| `VersionCompare.ParseFromSegments` | index.ts:35-39 | three segments that all read as numbers parse to exactly those three numbers, in order |
| `VersionCompare.ParseNeedsTwoDots` | index.ts:35-36 | a trimmed string with a dot count other than two never parses |
| `VersionCompare.ParseRejectsBadSegment` | index.ts:37-38 | three segments where any one is not a number give no result, never a partial triple |
| `VersionCompare.EmptySegmentReadsAsZero` | index.ts:37-39 | an empty segment counts as 0: "1.2." parses as 1.2.0 |
| `VersionCompare.ParseIgnoresPadding` | index.ts:35 | white space around a version does not change its parse |
| `VersionCompare.ParseFormatRoundTrip` | index.ts:34-40 | the dotted decimal form of any version parses back to that version |
| `VersionCompare.IsNewer` | index.ts:42-45 | `isNewer` is true only when both strings parse |
| `VersionCompare.Greater` | index.ts:46-48 | a parsed version is greater only when it differs; a larger major decides alone, and with equal majors a differing minor decides |
| `VersionCompare.GreaterIsLex` | index.ts:46-48 | the cascade major, then minor, then patch is exactly lexicographic order on the triple |
| `VersionCompare.IsNewerIsLex` | index.ts:42-48 | `isNewer(a, b)` holds iff both parse and b's triple precedes a's lexicographically |
| `VersionCompare.IsNewerIrreflexive` | index.ts:46-48 | no version is newer than itself |
| `VersionCompare.IsNewerAsymmetric` | index.ts:46-48 | two versions are never each newer than the other |
| `VersionCompare.IsNewerTransitive` | index.ts:42-48 | newer-than is transitive |
| `VersionCompare.IsNewerTrichotomy` | index.ts:42-48 | of two parseable versions, one is newer iff their triples differ |
| `VersionCompare.MajorWins` | index.ts:46 | a larger major version is newer whatever the minor and patch |
| `VersionCompare.IsNewerExamples` | index.ts:42-48 | "2.0.0" is newer than "1.9.9"; "1.2.3" is not newer than "1.2.3" or "1.2.4" |
| `VersionCompare.UnparseableExample` | index.ts:45 | "bogus" is not newer than "1.0.0" |
| `UpdateCache.DismissedIn` | index.ts:75 | `readCache()?.dismissedVersion` is the dismissal on file, absent when there is no cache |
| `UpdateCache.Dismissed` | index.ts:85-90 | dismissing leaves no cache when there was none; otherwise it keeps the latest version and sets only the dismissal |
| `UpdateCache.Refreshed` | index.ts:73-76 | the refresh record holds the fetched version and the dismissal on file at write time |
| `UpdateCache.DismissIdempotent` | index.ts:85-90 | dismissing a version twice is dismissing it once |
| `UpdateCache.LaterDismissalWins` | index.ts:85-90 | of two dismissals the later one stays on file |
| `UpdateCache.RefreshKeepsDismissal` | index.ts:72-76 | a refresh that lands after a dismissal keeps that dismissal next to the new latest version |
| `UpdateCache.DismissRefreshOrder` | index.ts:70-90 | with a cache, dismissal and refresh commute; without one, only a dismissal after the refresh survives |
| `UpdateCache.CacheFile.Read` | index.ts:19-25 | a read returns the file's current contents, `None` for a missing or corrupt file |
| `UpdateCache.CacheFile.Write` | index.ts:27-32 | a successful write replaces the file; a failed one leaves it as it was |
| `UpdateCache.CacheFile.Dismiss` | index.ts:85-90 | the file afterwards is the `Dismissed` form of the old one, or unchanged when the write fails |
| `UpdateCache.CacheFile.RecordLatest` | index.ts:73-76 | the file afterwards holds the fetched version with the dismissal re-read at write time |
| `UpdateController.GetInstallCommand` | index.ts:92-97 | the install command is never the echo sentinel and installs the package pinned to the given version |
| `UpdateController.FmtCmd` | index.ts:99-101 | the rendered command is the program, one space, then the arguments joined by spaces |
| `UpdateController.FmtCmdSplits` | index.ts:99-101 | when nothing contains a space, the rendered command splits back into program and arguments |
| `UpdateController.InstallCommandText` | index.ts:92-101 | the prompt shows `npm install -g @mariozechner/pi-coding-agent@<version>` |
| `UpdateController.UpgradeDecision` | index.ts:79-82 | a version is offered iff a cache exists, its latest version is newer than the running one, and that exact string is not dismissed; the offer is the cached latest version |
| `UpdateController.OfferIsAVersion` | index.ts:79-82 | an offered version parses, so it is never the empty string the hooks would skip |
| `UpdateController.DismissalSuppresses` | index.ts:81 | after the cached latest version is dismissed, nothing is offered |
| `UpdateController.DecisionAfterRefresh` | index.ts:70-82 | after a refresh lands, the offer depends only on the fetched version and the dismissal on file |
| `UpdateController.StaleDismissalReleased` | index.ts:70-82 | a dismissal suppresses only the version it names: once a different newer version lands, it is offered |
| `UpdateController.SuppressionExample` | index.ts:79-82 | with {2.0.0, dismissed 2.0.0} on 1.0.0 nothing is offered; after 2.0.1 lands, 2.0.1 is offered |
| `UpdateController.ChoiceAction` | index.ts:154-158 | no choice, an empty label or "Skip" changes nothing; "Skip this version" dismisses; any other label installs |
| `UpdateController.PromptOptionsActions` | index.ts:148-158 | the three menu entries lead to install, no change and dismissal respectively |
| `UpdateController.FailureMessage` | index.ts:121-124 | the failure notice starts with "Update failed (exit " and ends with stderr, or with stdout when stderr is empty |
| `UpdateController.RunNotices` | index.ts:114-127 | the run shows at most one notice: the echo sentinel's first argument as info, otherwise an error exactly when the program exits with a non-zero code |
| `UpdateController.InstallSucceeded` | index.ts:109-137 | success needs a real program (not echo) that exits with 0 and no abort of the wait |
| `UpdateController.FailedInstallOnlyNotifies` | index.ts:113-137 | a failed install shows at most one notification, with no shutdown question and no shutdown |
| `UpdateController.ShutdownNeedsSuccessAndConsent` | index.ts:137-143 | the shutdown question appears iff the install succeeded, and shutdown happens iff it succeeded and the user agreed |
| `UpdateController.DoInstall` | index.ts:104-144 | returns the success verdict, and the UI log grows by exactly the install's notice, question and shutdown |
| `UpdateController.PromptShowsMenuFirst` | index.ts:148-153 | the prompt opens with the menu titled with both versions and the three entries; a choice other than install shows nothing more |
| `UpdateController.PromptKeepsCacheUnlessDismissed` | index.ts:154-159 | every choice but "Skip this version", a failed install included, leaves the cache as it was; a successful "Skip this version" dismisses the offered version |
| `UpdateController.ShowUpdatePrompt` | index.ts:146-160 | shows the menu, then the install flow only for an install choice; the cache changes only for "Skip this version" |
| `UpdateController.GetUpgradeVersion` | index.ts:67-83 | returns the decision over the cache as read now |
| `UpdateController.RefreshLands` | index.ts:70-77 | without a fetched version the file is untouched; otherwise it holds the fetched version with the dismissal on file at write time |
| `UpdateController.DismissDuringRefresh` | index.ts:70-77 | a dismissal that lands while the refresh is fetching survives the refresh write |
| `UpdateController.OnSession` | index.ts:162-172 | without a UI nothing happens; with one, the decision is taken and a prompt is shown exactly when a version is offered |
| `UpdateController.CheckOutcomeOf` | index.ts:192-207 | the `update` command reports unreachable iff nothing was fetched, and offers the prompt iff the fetched version is newer, with no dismissal check |
| `UpdateController.UpdateCommandBypassesDismissal` | index.ts:202-207 | a dismissed newer version is still offered by the `update` command while the passive check of `getUpgradeVersion` stays silent |
| `UpdateController.UpdateCommandEvents` | index.ts:192-207 | a failed fetch shows only "Could not reach npm registry."; a fetched version that is not newer shows only the "Already on latest version" notice; the menu appears exactly when the fetched version is newer |
| `UpdateController.UpdateCommandCache` | index.ts:192-207 | an unreachable registry leaves the cache untouched; otherwise the fetched version is stored with the dismissal kept; the two writes fail independently, so a failed store followed by a successful dismissal keeps the old latest version next to the new dismissal |
| `UpdateController.UpdateCommand` | index.ts:176-208 | reports, writes the fetched version (keeping the dismissal) and prompts as `CheckOutcomeOf` decides; an unreachable registry leaves the cache untouched |

## Left out

- Fetching the latest version from the npm registry (index.ts:51-61), with its 10-second timeout and JSON body handling. Its result is an `Option<string>` parameter.
- File-system I/O and JSON (index.ts:19-32): directory creation, serialisation, and the unchecked shape of `JSON.parse`. A read is a function of the file's state, so a transient read error on an existing file is not modelled. A write that fails halfway and corrupts the file is not modelled either.
- The loaders, menus, confirm dialogs and notifications of the host UI. They appear only as entries in `Context.events`. The texts of the menu and the messages are modelled; the "Installing …" and "Checking for updates…" loaders are not.
- `pi.exec` and its 120-second timeout. Only what it reports is modelled: an exit code with its output, or a rejected call.
- Asynchronous interleaving. The background refresh is `RefreshLands`, which the caller sequences freely. The fire-and-forget prompt of the hooks runs to completion inside `OnSession`. An abort of the install wait is the `installAborted` flag: the run's failure notice still appears, but the outcome counts as failure. A notice that arrives after later events is not modelled.
- `VersionCompare.SegmentValue`: models JavaScript `Number` only for white-space-padded, optionally signed decimal digits, where blank means 0. Hexadecimal, binary, octal, exponent and `Infinity` forms read as not-a-number here, although JavaScript accepts them. Integers are unbounded, so the loss of precision above 2^53 is not modelled.
- `UpdateController.DoInstall`: the echo sentinel with no argument shows `undefined` in JavaScript; the model shows the empty string.
