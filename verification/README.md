# 123pan uploader — a Dafny model

This project models the core of the `picgo-plugin-123pan` uploader (`src/index.js`). The
plugin takes PicGo's list of images and uploads each one to 123pan cloud storage through the
open-platform API. The steps are:

- reuse or fetch an access token;
- resolve the configured parent directory;
- per image: announce the file, send it slice by slice, complete the upload, poll an
  asynchronous completion, and look up the download URL;
- retry failed images during a first Typora upload;
- on removal from the gallery, delete the stored files again.

Every network call is an oracle. A *script* holds the replies the server gives, in order,
and a latency for each request. Time is an integer millisecond clock that requests and waits
advance. Each operation is a pure function, or a method with loop invariants, over these
scripts. It returns what the source returns, together with the trace of requests it made, so
that contracts can speak about both.

Modules, in dependency order:

- `JsValues`:
  - the JavaScript values the code inspects: JSON identifiers and their truthiness;
  - `String(n)` on integers, `includes`, and ASCII `toLowerCase`.
- `Naming`:
  - `sanitizeFilename`, with its 254-character cap that keeps the last extension;
  - `normalizeParentFileID`.
- `Session`:
  - the first-upload-this-session flag;
  - the two token-freshness rules (upload: five-minute buffer; removal: plain expiry);
  - `getAccessToken`.
- `Directory`:
  - `createDirectory`: the duplicate-name recovery by listing, and the root fallback;
  - the listing lookup.
- `Slices`:
  - the slice loop, with `Buffer.slice` semantics and the `sliceSize` edge cases;
  - a closed-form reference plan of byte ranges.
- `Poller`:
  - `handleAsyncPolling`, with the status wrapper `getUploadAsyncResultWithRetry`;
  - the two polling strategies, the wait arithmetic, and the listing lookups (initial,
    periodic, recovery, final).
- `UploadJob`: one pass through the per-image `try` block of `processImages`, from the buffer
  to the download URL.
- `JobRunner`: the retry loop of `processImages`, the statistics, the Typora URL fill-in, and
  `handleUpload`.
- `Removal`: `handleRemove`, covering the `123pan` type filter, the file-identifier regular
  expression and the delete requests.

## Model

| member | source | states |
|---|---|---|
| JsValues.NatText | src/index.js:334 | The decimal text of a natural number is non-empty, all digits, and has no leading zero. |
| JsValues.NatTextValue | src/index.js:334 | Reading the decimal text back gives the number: `String(n)` on an identifier is faithful. |
| JsValues.LowerKeepsNonLetterNeedle | src/index.js:120-123 | Lower-casing cannot create or destroy an occurrence of a needle without ASCII letters, so it cannot affect the Chinese-word test. |
| JsValues.LowerOccurrence | src/index.js:120-123 | The same, position by position. |
| Naming.LastIndexOf | src/index.js:367 | The index is -1 exactly when the character is absent; otherwise it holds the character and none follows. |
| Naming.SanitizeFilename | src/index.js:360-374 | No forbidden character survives. A name of at most 254 characters keeps its length, and every forbidden character becomes `_` in place. |
| Naming.ExtensionIsLastDotSuffix | src/index.js:367-369 | The extension the source cuts is the unique suffix that starts at the last `.` (empty without a dot). |
| Naming.SanitizeLongName | src/index.js:366-371 | A name over 254 characters becomes its scrubbed head plus the extension. The result has exactly 254 characters when the extension fits, and is the extension alone when it does not. |
| Naming.SanitizeLengthBound | src/index.js:366-371 | A sanitised name is at most 254 characters, unless it is a single over-long extension. |
| Naming.ReplaceKeepsCleanString | src/index.js:363 | Replacing forbidden characters leaves a clean string unchanged. |
| Naming.SanitizeKeepsLoneExtension | src/index.js:366-371 | A clean over-long name made only of one extension is returned unchanged. |
| Naming.SanitizeIdempotent | src/index.js:360-374 | Sanitising twice is the same as sanitising once. |
| Naming.SanitizeTestExample | src/index.js:360-374 | `inva\|id:name?.png` becomes `inva_id_name_.png`, as the repository's test expects. |
| Naming.BackslashSurvives | src/index.js:362-363 | A backslash is kept: the character class does not list it. |
| Naming.NormalizeParentFileID | src/index.js:377-383 | The result is `""` exactly for falsy identifiers; otherwise it is the identifier's `String` form. |
| Naming.NormalizeIdempotent | src/index.js:377-383 | Normalising a normalised identifier changes nothing. |
| Session.UploadTokenDecision | src/index.js:472-502 | The cached token is reused exactly when it is non-empty and its expiry is not a readable date within five minutes. So a missing, `null` or unparseable expiry keeps a non-empty token. |
| Session.RemoveTokenDecision | src/index.js:1160-1167 | Removal fetches a new token exactly when there is none, it is empty, its date has passed, or its expiry is `null` (read as the epoch). A missing or unparseable expiry keeps the token. |
| Session.FreshnessIsMonotone | src/index.js:477-487 | A token fresh enough now was fresh enough at every earlier instant. |
| Session.UploadCheckImpliesRemoveCheck | src/index.js:477-493 | Unless the expiry is `null`, a token the upload path reuses is also reused by the removal path. |
| Session.NullExpiryOnlyUploadReuses | src/index.js:476 | With a `null` expiry the upload path reuses a non-empty token and the removal path refreshes it. |
| Session.AcquireToken | src/index.js:53-83 | A usable cached token is returned unchanged and nothing is saved. When a fetch is needed, missing client credentials fail with the configuration error. An issued credential yields its access token and is saved. A rejected fetch fails with that reply's message. |
| Session.FirstUploadThisSession | src/index.js:429-458 | The flag is set when there is no record, the record is unreadable, or the last upload is more than five minutes old. An unparseable date compares false, so it does not set the flag. |
| Directory.FindFirst | src/index.js:131-137 | The index found is the first entry with the name (and type 1 when directories are wanted); none means no entry matches. |
| Directory.DuplicateTestIgnoresCase | src/index.js:120-123 | The duplicate-name test on the lower-cased message is the same test on the message itself. |
| Directory.CreateDirectory | src/index.js:86-156 | A blank name gives the root with no request. Otherwise `mkdir` is sent with the sanitised name under the root. A created directory's identifier is returned. A duplicate-name error lists the root and returns the first directory of that name, or the root. Any other error returns the root. |
| Directory.FindFirstIsFirstHit | src/index.js:131-137 | Partner of `FindFirst`: the first hit is exactly what it returns. |
| Directory.CollisionRecovery | src/index.js:125-136 | After a duplicate-name error, the existing directory's identifier is used. |
| Directory.ResolveParent | src/index.js:628-648 | No configured name means the root. The parent used is the created directory's identifier when that is truthy, and the root when it is falsy. |
| Slices.BufferSlice | src/index.js:774-776 | `Buffer.slice` bounds are normalised into `0 <= start <= end <= size`. |
| Slices.NegativeSliceSizeStops | src/index.js:774-778 | With a negative slice size, every slice from the second on is empty, so the loop stops there. |
| Slices.PlanCoversFile | src/index.js:765-789 | The reference plan tiles `[0, size)`: every byte lies in exactly one slice, and the slices are contiguous and ordered. |
| Slices.PlanFromShape | src/index.js:774-775 | Slice `i` of the plan is `[offset + i*k, min(offset + (i+1)*k, size))`, and the plan has the fewest slices that reach the end. |
| Slices.PlanShape | src/index.js:774-775 | The plan has `ceil(size/k)` slices. Slice `i` is `[i*k, min((i+1)*k, size))`, and the last holds between 1 and `k` bytes. |
| Slices.LastSliceIsRemainder | src/index.js:774-775 | The last slice holds `size % k` bytes, or a whole `k` when `k` divides the size. |
| Slices.Numbered | src/index.js:766-787 | Slice numbers run consecutively from the first one requested. |
| Slices.SliceLoopFollowsPlan | src/index.js:766-789 | The bytes sent are always a prefix of the plan. A loop that finishes sends the whole plan, and requests one URL per slice, numbered 1, 2, 3, … |
| Slices.SliceLoopSucceedsIffAllAccepted | src/index.js:766-789 | The loop finishes exactly when every planned slice gets a URL and an accepted upload. |
| Slices.UploadSlicesSendsPlan | src/index.js:765-789 | A cooperative server receives exactly the plan and the URL requests 1..n. |
| Slices.ZeroSliceSizeSendsNothing | src/index.js:766-788 | A slice size of 0 asks for one URL and then stops on the empty slice. |
| Slices.NegativeSliceSizeSendsAtMostOne | src/index.js:774-778 | A negative slice size sends at most the single range `[0, size + k)`. |
| Slices.ExampleThreeSlices | src/index.js:774-775 | 2500 bytes in 1000-byte slices are sent as `[0,1000)`, `[1000,2000)` and `[2000,2500)`. |
| Poller.Strategy | src/index.js:805-807 | The strategy always polls at least once, with a positive lookup interval. Its deadline is 45 s for a first Typora upload and 60 s otherwise. |
| Poller.StatusOutcome | src/index.js:271-303 | An empty identifier fails after two 1-second pauses of the wrapper, with no request. A reply to a real identifier passes through, with failures keeping their latency. |
| Poller.EveryStatusErrorIsPreuploadError | src/index.js:271-303 | Every status failure message mentions `preuploadID`, so the poller always counts it as an empty-identifier error. |
| Poller.WaitIsTimerDelay | src/index.js:1019-1028 | The pause for `min(ideal, timeLeft/d)` is none when that amount is not positive. It is 1 ms when the amount is below 1 ms or above Node's timer limit of 2^31-1 ms, and otherwise the amount truncated to whole milliseconds. It never exceeds the time left or the ideal. |
| Poller.AfterLoop | src/index.js:1090-1121 | After the loop, requests are only appended and the round count is kept. A timeout ends at or past the deadline, and a `NotCompleted` failure happens before it with a falsy completion identifier. The completion identifier is returned only when truthy, and the status route is never the source. |
| Poller.FinalLookupOnTimeout | src/index.js:1090-1113 | A loop that stops at or past the deadline appends exactly one request, the final listing of that round at that instant. A name hit there answers with its entry; a miss is `TimedOut`, ending after the listing's latency. |
| Poller.NoFinalLookupInTime | src/index.js:1115-1120 | A loop that stops before the deadline makes no further request and settles at once. |
| Poller.AfterLoopAnswers | src/index.js:1090-1121 | After the loop, a success is the final listing's entry with the file's name, or the completion reply's truthy identifier. |
| Poller.Round | src/index.js:968-1087 | One loop round keeps earlier calls and queries only the truthy original identifier before the deadline. It ends with a result, or continues with one more retry. Its only failure is `RecoveryExhausted`, in the last round allowed. |
| Poller.RoundFinalLookup | src/index.js:968-1087 | No round makes the final listing, times out, or falls back on the completion identifier. |
| Poller.RoundExhaustion | src/index.js:1032-1056 | Given the exact error streak, a round fails with `RecoveryExhausted` exactly when it is the last round allowed, it closes three failed status requests in a row, and its recovery listing misses the file. |
| Poller.RoundAnswer | src/index.js:981-1050 | A round that ends in success answers from its last request: the completed status reply merged over the completion reply, or the listing entry with the file's name. |
| Poller.CompletedStatusSettles | src/index.js:981-990 | A completed status reply ends polling at once, with the status data's identifier, or the completion reply's when the status data has none. |
| Poller.PeriodicLookupMade | src/index.js:996-1015 | An incomplete status in a round that is a multiple of the lookup interval is followed by a listing. A hit there ends polling with that entry's identifier. |
| Poller.RecoveryLookupMade | src/index.js:1032-1050 | The third failed status request in a row is followed by a recovery listing. A hit there ends polling with that entry's identifier. |
| Poller.RoundMakesPeriodicListing | src/index.js:996-1015 | A round with an incomplete status reply whose number is a multiple of the lookup interval lists the directory. |
| Poller.RoundMakesRecoveryListing | src/index.js:1032-1050 | A round that closes three failed rounds in a row makes a recovery listing. |
| Poller.StreakReachesRecovery | src/index.js:1032-1038 | Three failed rounds in a row ending with this one mean the streak handed in was at least two, so the recovery branch is reached. |
| Poller.RoundKeepsStreak | src/index.js:978-1035 | The error streak a round hands on is exact: reset by an answered status request, one longer after a failed one. |
| Poller.RoundDueListings | src/index.js:996-1050 | A round makes the lookup that is due in it. |
| Poller.PollLoop | src/index.js:968-1121 | The loop never exceeds the retry limit, and only queries the original identifier before the deadline. A timeout ends past the deadline. A status success needs a truthy identifier. |
| Poller.HandleAsyncPolling | src/index.js:923-1121 | The first call is the initial lookup, and a hit there settles with no status query. All status queries are well formed, and a timeout happens at or past the deadline. |
| Poller.PollLoopAnswers | src/index.js:968-1121 | A successful loop answers from its last request: a completed status merged over the completion reply, a periodic, recovery or final listing's entry with the file's name, or the completion reply's own identifier. |
| Poller.PollingAnswers | src/index.js:923-1121 | The same holds for a whole polling run, whose initial listing also counts: the success identifier always comes from the reply that ended the run. |
| Poller.RoundListings | src/index.js:997-1062 | Each lookup a round makes has its reason: a due periodic lookup after a not-yet-completed status, or a recovery after three failed rounds in a row. |
| Poller.PollLoopListings | src/index.js:968-1113 | Every lookup of the loop and the final lookup is justified. |
| Poller.PollListingsJustified | src/index.js:923-1121 | Apart from the initial one, no lookup happens without its reason. |
| Poller.PollLoopDueListings | src/index.js:968-1087 | Every lookup due in the rounds the loop runs is made. |
| Poller.LoopFromStartMakesDueListings | src/index.js:937-1087 | Started at round 0 with no errors behind it, the loop makes every due lookup. |
| Poller.DueListingsHappen | src/index.js:923-1121 | Every periodic and recovery lookup that is due in a polling run is made. With `PollListingsJustified` and `PollingFinalLookup`, the run lists the directory exactly when the code calls for it. |
| Poller.PollLoopFinalLookup | src/index.js:968-1113 | For a loop entered without a final listing: a timeout happens only after the final listing. That listing is the last request, made at or past the deadline in the round the loop stopped at; a name hit there answers with its entry and a miss times out. Running out of rounds ends before the deadline. |
| Poller.PollingFinalLookup | src/index.js:923-1121 | The same holds for a whole polling run: the final lookup on timeout is made, decides the outcome, and is the only way to time out. |
| Poller.PollLoopExhaustion | src/index.js:968-1087 | Given the exact error streak, the loop fails with `RecoveryExhausted` exactly when it runs its last allowed round and that round is exhausting. |
| Poller.PollingExhaustion | src/index.js:923-1121 | A whole polling run fails with `RecoveryExhausted` exactly when its last allowed round closes three failed status requests in a row with a recovery listing that misses. |
| Poller.FallbackRulesOutExhaustion | src/index.js:1032-1120 | A run that answers with the completion reply's own identifier ran every round allowed, and its last round was not an exhausting one. |
| Poller.EmptyIdentifierNeverQueried | src/index.js:271-274 | With a falsy original identifier the status endpoint is never called, and no result comes from it. |
| Poller.ExampleRecoveryByListing | src/index.js:1029-1050 | Three failing status rounds trigger the recovery lookup at round 2 (10350 ms), which finds the file by name. |
| Poller.ExampleCompletionOnSecondPoll | src/index.js:968-1015 | An incomplete first reply triggers the round-0 lookup. A completed second reply with identifier `F2` answers `F2`, after four requests, at 1900 ms. |
| UploadJob.DownloadUrl | src/index.js:844-863 | The link is non-empty. It is the detail reply's `downloadURL` when that is non-empty. Otherwise, including when the detail request fails, it is `https://www.123pan.com/s/` followed by the identifier's text. |
| UploadJob.AwaitAsync | src/index.js:801-836 | An asynchronous completion yields an identifier exactly when the poll settles before the strategy's deadline with a truthy identifier. That identifier is the poll's. The poll's requests are the attempt's requests. |
| UploadJob.RunAttempt | src/index.js:671-872 | A success carries a non-empty URL and a truthy identifier, and ends with the detail lookup. Its URL is the detail reply's non-empty `downloadURL`, or else the share link built from the success identifier. A missing or empty buffer fails with no request. Otherwise the first request is `create` with the normalised parent, the sanitised name and the size. |
| UploadJob.InstantUploadIsUncountedSuccess | src/index.js:723-756 | An attempt succeeds without counting exactly when `create` reports reuse with a truthy identifier. It then makes only the create and detail requests. |
| UploadJob.MissingPreuploadIDFails | src/index.js:759-761 | A non-reused file without a pre-upload identifier fails right after `create`. |
| UploadJob.ReuseWithoutFileIDFails | src/index.js:723-727 | An instant upload reported without a file identifier fails right after `create`, with no further request. |
| UploadJob.CountedSuccessSentWholeFile | src/index.js:759-871 | A counted success sent slices under the pre-upload identifier, then completed it. With a positive slice size, it sent exactly the reference plan. |
| UploadJob.SliceUrlsUseIdentifier | src/index.js:768-772 | Every slice URL request carries the pre-upload identifier. |
| UploadJob.PollingUsesCompletionIdentifier | src/index.js:810-828 | Polling queries only the identifier from the completion response, and only when it is truthy. |
| UploadJob.AsyncSuccessBeatTheTimer | src/index.js:801-836 | An asynchronous success comes from a poll that settled before the strategy's deadline, with the same identifier. |
| UploadJob.AsyncCompletionSucceeds | src/index.js:800-863 | Conversely, suppose the slices are accepted, the completion is asynchronous, and the poll settles in time with a truthy identifier. Then the attempt succeeds with that identifier, counted, at the detail-derived URL. |
| UploadJob.ExampleAsyncCompletion | src/index.js:671-872 | One slice is accepted and the completion is asynchronous. The poll completes on its second reply with `F2`, and the detail request fails. The attempt succeeds at `https://www.123pan.com/s/F2`. |
| UploadJob.CooperativeServerSucceeds | src/index.js:759-871 | A server that accepts every slice and completes synchronously with an identifier gives a counted success. |
| JobRunner.ImageName | src/index.js:679-683 | A given name is kept. A missing one becomes the clock's decimal text followed by the extension, `.png` by default. |
| JobRunner.PauseClosedForm | src/index.js:663-673 | Before attempt `a`, an image has waited 500 ms (unless it is the first image) plus 3 s, 6 s, 9 s…, that is `1500(a-1)a` ms. |
| JobRunner.UploadImage | src/index.js:651-916 | An image ends after at most `maxAutoRetries + 1` attempts. It gives up exactly when every attempt fails. The URL and counting come from the last attempt; a give-up URL is the failure link for Typora and `""` otherwise. |
| JobRunner.JobAttemptsRunTheAttempt | src/index.js:653-872 | Attempt `k` of image `i` is the single-attempt model run on that image's `k`-th script under its (possibly generated) name, for every attempt the retry budget allows. |
| JobRunner.OutcomesPartition | src/index.js:651-916 | Every image is counted, uncounted or given up, and only give-ups enter the failed list. |
| JobRunner.ProcessImages | src/index.js:610-920 | Every image is processed as `UploadImage` states. The statistics are the counted successes, give-ups and retries, and the failed list names the give-ups. Typora URLs are never empty; otherwise a URL is empty exactly for a give-up. |
| JobRunner.TyporaBackfill | src/index.js:565-575 | Every URL is filled in for Typora, and existing URLs are kept. |
| JobRunner.Urls | src/index.js:565-575 | The URL list follows the results one to one. |
| JobRunner.TyporaBackfillIsIdle | src/index.js:565-575 | After `processImages`, the Typora fill-in never changes a URL. |
| JobRunner.HandleUpload | src/index.js:385-606 | A missing configuration and an empty list stop first, and only they. With a configuration and images, the run either finishes or stops for the token. It stops for the token exactly when token acquisition after the startup pause fails, and reports that error. A finished run reports every image under the resolved parent, with consistent totals. |
| Removal.AlnumRun | src/index.js:1177 | The run of letters and digits is maximal. |
| Removal.MatchIsMaximalRun | src/index.js:1177 | The expression's group at a slash is the whole letter-or-digit run after it. |
| Removal.MatchLengthUnique | src/index.js:1177 | At a given slash at most one group length matches, so backtracking adds nothing. |
| Removal.MatchesAtMeansRegexMatch | src/index.js:1177 | The run-based test matches exactly where the regular expression matches. |
| Removal.SlashBeforeIdentifier | src/index.js:1177 | A slash followed by a plain identifier that ends the link or meets a `?` is a match, and its group is that identifier. |
| Removal.MatchFrom | src/index.js:1177-1181 | The scan captures a non-empty letter-or-digit group, and finds nothing exactly when no position matches. |
| Removal.ExtractFileID | src/index.js:1177-1183 | The identifier sent for deletion is non-empty letters and digits. None is found exactly when the link has no match. |
| Removal.SkipToMatch | src/index.js:1177 | The group returned is that of the leftmost match. |
| Removal.NoMatchInSharePrefix | src/index.js:331-338 | No slash of `https://www.123pan.com/s/` starts a match. |
| Removal.ShareLinkWithQuery | src/index.js:331-338 | A share link, with or without a `?` query, gives back the identifier it was built from. |
| Removal.ShareLinkRoundTrip | src/index.js:331-338 | Extraction inverts the share link for letter-or-digit identifiers. |
| Removal.NumericShareLinkRoundTrip | src/index.js:331-338 | The share link of a positive numeric identifier gives back its decimal text. |
| Removal.OwnFiles | src/index.js:1152 | Exactly the gallery files of type `123pan` are kept. |
| Removal.DeletionTargets | src/index.js:1171-1204 | There is at most one deletion per file, each with a plain identifier. |
| Removal.TargetOf | src/index.js:1177-1183 | A file contributes at most one deletion, and only a plain identifier. |
| Removal.HandleRemove | src/index.js:1144-1216 | No own files means nothing happens. Otherwise the deletions are the extracted identifiers of the own files, in order, when a token is available. A failed token fetch deletes nothing, and a fetched credential is saved. |
| Removal.UploadedShareLinkIsDeleted | src/index.js:1144-1216 | An uploaded image whose link is its share link is deleted by its identifier. |
| Removal.OwnFilesAppend | src/index.js:1152 | Filtering distributes over concatenation. |
| Removal.DeletionTargetsAppend | src/index.js:1171-1204 | Each file is handled on its own: a link without a match skips only its own file. |
| Removal.ForeignFilesIgnored | src/index.js:1152-1156 | Other uploaders' files never change what the hook does. |

## Left out

- HTTPS requests, JSON encoding and parsing, and the `makeRequest` helper are not modelled. Each reply is a script entry, and a parse failure or non-zero `code` is a failure reply.
- The MD5 `etag` is not modelled. It is a fingerprint the server uses for reuse, which the script decides through the `reuse` flag.
- The per-step `withTimeout` races (15 s, 20 s, 30 s) are collapsed into the step's failure reply. Only the polling race, where the clock is modelled, is timed explicitly. There the timer is taken to win a tie.
- The 60-second Typora watchdog is left out: it depends on the wall clock against the whole run, and it rewrites URLs concurrently with the run.
- The inner retries of `getUploadAsyncResultWithRetry` on a real identifier are not modelled: the script's status reply is the wrapper's final answer. The empty-identifier case is modelled with its two 1-second pauses.
- Logging, notifications, the GUI menu, the commands and the configuration form are not modelled.
- The `alternate` and `api` links of `generateFallbackUrl` are not modelled, because nothing reads them.
- A slice size of 0 or less does not make the slice loop run forever. With 0, the first range is empty, so one destination is requested and the loop stops. With a negative size, `Buffer.slice` counts from the end, so at most one range `[0, size + k)` is sent. The model follows the code (`Slices.ZeroSliceSizeSendsNothing`, `Slices.NegativeSliceSizeSendsAtMostOne`).
- Strings are sequences of characters, not UTF-16 code units, so the 254-character cap counts characters.
- Identifiers are text or integers only.
- `img.url` and `img.imgUrl` are always set together, so one URL per image stands for both.
- A listing holds what the server returns in one page. The source asks for at most 100 entries, and the model does not enforce that bound.
- `stats.success` does not count instant (reused) uploads. This is modelled as written (`counted` is false for them).
- The comment above `sanitizeFilename` mentions the backslash, but the character class does not list it; the model follows the code (`Naming.BackslashSurvives`).
- Deletion replies are not modelled: each file's delete request is sent whatever happened to the previous one, and a failure only produces a notification.
- JobRunner.HandleUpload: its contract states the run's shape: the stops, the token path, the parent, the totals and the URL rules. It does not restate the per-image promises. `JobRunner.ProcessImages`, which it calls, states those.
- Removal.HandleRemove: a missing `imgUrl` throws in the source and an empty one has no match. Both skip the file, so the model takes `""` for a missing link.
