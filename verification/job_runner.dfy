/** The image loop of `processImages` (src/index.js:610-919) and the run around it in
    `handleUpload` (src/index.js:385-606): images go one after another; a Typora run's first
    upload of the session gives each image up to three automatic retries, paced 3, 6 and 9
    seconds apart; the run keeps success, failure and retry counts and the names that failed. */
module JobRunner {
  import opened JsValues
  import opened Session
  import opened Directory
  import opened Poller
  import opened UploadJob

  /** An image of the run: `fileName` and `extname` are `""` when PicGo left them unset. */
  datatype Image = Image(fileName: string, extname: string)

  datatype ImageOutcome = Uploaded(counted: bool) | GaveUp

  /** The name an image was uploaded under, the link it ends up with (`imgUrl` and `url`), and
      how many attempts it took. */
  datatype ImageResult = ImageResult(name: string, url: string, attempts: nat, outcome: ImageOutcome)

  datatype Stats = Stats(total: nat, success: nat, failed: nat, retries: nat)

  const TyporaFirstRetries: nat := 3
  const RetryStepMs: nat := 3000
  const BetweenImagesMs: nat := 500
  const DefaultExtension: string := ".png"
  const FailedUrlPrefix: string := "https://www.123pan.com/upload-failed-"
  const TyporaFallbackPrefix: string := "https://www.123pan.com/typora-fallback-"

  /** `maxAutoRetries` (src/index.js:651). */
  function MaxAutoRetries(isTypora: bool, isFirst: bool): nat {
    if isTypora && isFirst then TyporaFirstRetries else 0
  }

  /** The file name an image is uploaded under: its own, else `${Date.now()}${extname || '.png'}`
      with the clock reading `now` of its first attempt (src/index.js:682-686). */
  function ImageName(img: Image, now: int): (name: string)
    ensures img.fileName != "" ==> name == img.fileName
    ensures img.fileName == "" ==>
              var ext := if img.extname != "" then img.extname else DefaultExtension;
              && |name| > |ext|
              && name[|name| - |ext|..] == ext
              && name[..|name| - |ext|] == IntText(now)
  {
    if img.fileName != "" then img.fileName
    else
      var ext := if img.extname != "" then img.extname else DefaultExtension;
      var stamp := IntText(now);
      assert (stamp + ext)[..|stamp|] == stamp;
      stamp + ext
  }

  /** `https://www.123pan.com/upload-failed-${Date.now()}`, the link a Typora run gives an image
      that failed for good. */
  function FailedUrl(now: int): string {
    FailedUrlPrefix + IntText(now)
  }

  /** The scripted attempt `k` of image `i`; an attempt the script leaves out cannot fetch its
      bytes. */
  function AttemptAt(scripts: seq<seq<AttemptScript>>, i: nat, k: nat): AttemptScript {
    if i < |scripts| && k < |scripts[i]| then scripts[i][k]
    else AttemptScript(BufferFailed, CreateFailed, [], CompleteFailed,
                       PollScript(ListReply([], 0), [], ListReply([], 0)), DetailFailed)
  }

  /** A clock reading from a script of readings; `0` past its end. */
  function ClockAt(clock: seq<int>, i: nat): int {
    if i < |clock| then clock[i] else 0
  }

  /** Everything one image's retry loop depends on. `outcomes[k]` is what attempt `k` would
      end with; attempts are pure functions of their scripts, so the loop may be handed all of
      them and look at them one at a time, as the source runs them. */
  datatype ImageJob = ImageJob(env: AttemptEnv, name: string, index: nat, maxRetries: nat, failNow: int,
                               outcomes: seq<AttemptOutcome>)

  /** The outcome of attempt `k`; an attempt without a script cannot read its buffer. */
  function Outcome(job: ImageJob, k: nat): AttemptOutcome {
    if k < |job.outcomes| then job.outcomes[k] else Failed(NoBuffer)
  }

  /** Pause before attempt `attempts - 1` since the image's turn came, summed step by step: half
      a second before the first attempt of any image but the first, `3000·k` before retry `k`. */
  function PauseBefore(index: nat, attempts: nat): nat
    decreases attempts
  {
    if attempts <= 1 then (if index > 0 then BetweenImagesMs else 0)
    else PauseBefore(index, attempts - 1) + RetryStepMs * (attempts - 1)
  }

  /** The pauses add up to `1500·r·(r+1)` after `r` retries. */
  lemma {:induction false} PauseClosedForm(index: nat, attempts: nat)
    requires attempts >= 1
    ensures PauseBefore(index, attempts) == (if index > 0 then BetweenImagesMs else 0) + 1500 * (attempts - 1) * attempts
    decreases attempts
  {
    if attempts > 1 {
      PauseClosedForm(index, attempts - 1);
      assert 1500 * (attempts - 2) * (attempts - 1) + 3000 * (attempts - 1) == 1500 * (attempts - 1) * attempts;
    }
  }

  /** What one image's retry loop must produce: attempts until the first success, at most
      `maxRetries + 1` of them; a give-up exactly when every allowed attempt failed; the link of
      the successful attempt, else the failure link in Typora runs and nothing otherwise. */
  predicate ImageDone(job: ImageJob, res: ImageResult) {
    && res.name == job.name
    && 1 <= res.attempts <= job.maxRetries + 1
    && (forall k :: 0 <= k < res.attempts - 1 ==> Outcome(job, k).Failed?)
    && (res.outcome.Uploaded? <==> Outcome(job, res.attempts - 1).Succeeded?)
    && (res.outcome.Uploaded? ==>
          res.url == Outcome(job, res.attempts - 1).url && res.outcome.counted == Outcome(job, res.attempts - 1).counted)
    && (res.outcome.GaveUp? ==>
          res.attempts == job.maxRetries + 1 && res.url == (if job.env.isTypora then FailedUrl(job.failNow) else ""))
  }

  /** The retry loop for one image (src/index.js:661-916). */
  method UploadImage(job: ImageJob) returns (res: ImageResult, pause: nat)
    ensures ImageDone(job, res)
    ensures res.outcome.GaveUp? <==> forall k :: 0 <= k <= job.maxRetries ==> Outcome(job, k).Failed?
    ensures pause == PauseBefore(job.index, res.attempts)
  {
    var retryCount: nat := 0;
    var success := false;
    var gaveUp := false;
    var url := "";
    var counted := false;
    pause := 0;
    while retryCount <= job.maxRetries && !success && !gaveUp
      invariant retryCount <= job.maxRetries
      invariant !(success && gaveUp)
      invariant forall k :: 0 <= k < retryCount ==> Outcome(job, k).Failed?
      invariant success ==> Outcome(job, retryCount).Succeeded? && url == Outcome(job, retryCount).url
                            && counted == Outcome(job, retryCount).counted
      invariant gaveUp ==> retryCount == job.maxRetries && Outcome(job, retryCount).Failed?
                           && url == (if job.env.isTypora then FailedUrl(job.failNow) else "")
      invariant pause == if success || gaveUp then PauseBefore(job.index, retryCount + 1)
                         else if retryCount == 0 then 0 else PauseBefore(job.index, retryCount)
      decreases (if success || gaveUp then 0 else 1), job.maxRetries - retryCount
    {
      if retryCount > 0 {
        pause := pause + RetryStepMs * retryCount;
      }
      if job.index > 0 && retryCount == 0 {
        pause := pause + BetweenImagesMs;
      }
      var outcome := Outcome(job, retryCount);
      if outcome.Succeeded? {
        success := true;
        url := outcome.url;
        counted := outcome.counted;
      } else if retryCount < job.maxRetries {
        retryCount := retryCount + 1;
      } else {
        url := if job.env.isTypora then FailedUrl(job.failNow) else "";
        gaveUp := true;
      }
    }
    res := ImageResult(job.name, url, retryCount + 1, if success then Uploaded(counted) else GaveUp);
  }

  /** Counted successes, give-ups, uncounted (instant) successes, retries, and failed names of a
      prefix of the results, each defined on the last element. */
  function CountCounted(rs: seq<ImageResult>): nat {
    if |rs| == 0 then 0 else CountCounted(rs[..|rs| - 1]) + (if rs[|rs| - 1].outcome == Uploaded(true) then 1 else 0)
  }

  function CountUncounted(rs: seq<ImageResult>): nat {
    if |rs| == 0 then 0 else CountUncounted(rs[..|rs| - 1]) + (if rs[|rs| - 1].outcome == Uploaded(false) then 1 else 0)
  }

  function CountGaveUp(rs: seq<ImageResult>): nat {
    if |rs| == 0 then 0 else CountGaveUp(rs[..|rs| - 1]) + (if rs[|rs| - 1].outcome.GaveUp? then 1 else 0)
  }

  function SumRetries(rs: seq<ImageResult>): nat {
    if |rs| == 0 then 0 else SumRetries(rs[..|rs| - 1]) + (if rs[|rs| - 1].attempts > 0 then rs[|rs| - 1].attempts - 1 else 0)
  }

  function FailedNames(rs: seq<ImageResult>): seq<string> {
    if |rs| == 0 then [] else FailedNames(rs[..|rs| - 1]) + (if rs[|rs| - 1].outcome.GaveUp? then [rs[|rs| - 1].name] else [])
  }

  /** Every image is a counted success, an uncounted instant upload, or a give-up. */
  lemma {:induction false} OutcomesPartition(rs: seq<ImageResult>)
    ensures CountCounted(rs) + CountUncounted(rs) + CountGaveUp(rs) == |rs|
    ensures |FailedNames(rs)| == CountGaveUp(rs)
    decreases |rs|
  {
    if |rs| > 0 {
      OutcomesPartition(rs[..|rs| - 1]);
    }
  }

  /** The job for image `i` of a run. */
  function JobFor(env: AttemptEnv, images: seq<Image>, scripts: seq<seq<AttemptScript>>,
                  nameClock: seq<int>, failClock: seq<int>, i: nat): ImageJob
    requires i < |images|
  {
    var name := ImageName(images[i], ClockAt(nameClock, i));
    var m := MaxAutoRetries(env.isTypora, env.isFirst);
    ImageJob(env, name, i, m, ClockAt(failClock, i),
             seq(m + 1, k requires 0 <= k < m + 1 => RunAttempt(env, name, AttemptAt(scripts, i, k)).outcome))
  }

  /** Attempt `k` of image `i` is `RunAttempt` on the image's `k`-th script, under the image's
      name, for every attempt the retry budget allows. */
  lemma JobAttemptsRunTheAttempt(env: AttemptEnv, images: seq<Image>, scripts: seq<seq<AttemptScript>>,
                                 nameClock: seq<int>, failClock: seq<int>, i: nat, k: nat)
    requires i < |images| && k <= MaxAutoRetries(env.isTypora, env.isFirst)
    ensures var job := JobFor(env, images, scripts, nameClock, failClock, i);
            && job.name == ImageName(images[i], ClockAt(nameClock, i))
            && job.maxRetries == MaxAutoRetries(env.isTypora, env.isFirst)
            && Outcome(job, k) == RunAttempt(env, job.name, AttemptAt(scripts, i, k)).outcome
  {
  }

  /** `processImages` after the parent directory is resolved: every image in turn, and the
      statistics the run reports (src/index.js:654-919). `nameClock[i]` and `failClock[i]` are
      the clock readings image `i` takes for a default name and for a failure link. */
  method ProcessImages(env: AttemptEnv, images: seq<Image>, scripts: seq<seq<AttemptScript>>,
                       nameClock: seq<int>, failClock: seq<int>)
    returns (results: seq<ImageResult>, stats: Stats, failedList: seq<string>)
    ensures |results| == |images|
    ensures AllDone(env, images, scripts, nameClock, failClock, results)
    ensures stats == Stats(|images|, CountCounted(results), CountGaveUp(results), SumRetries(results))
    ensures failedList == FailedNames(results)
    ensures env.isTypora ==> forall i :: 0 <= i < |results| ==> results[i].url != ""
    ensures !env.isTypora ==> forall i :: 0 <= i < |results| ==> (results[i].url == "" <==> results[i].outcome.GaveUp?)
  {
    results := [];
    stats := Stats(|images|, 0, 0, 0);
    failedList := [];
    var i := 0;
    while i < |images|
      invariant 0 <= i <= |images| && |results| == i
      invariant AllDone(env, images, scripts, nameClock, failClock, results)
      invariant stats == Stats(|images|, CountCounted(results), CountGaveUp(results), SumRetries(results))
      invariant failedList == FailedNames(results)
    {
      var job := JobFor(env, images, scripts, nameClock, failClock, i);
      var res, _ := UploadImage(job);
      CountsAppend(results, res);
      DoneAppend(env, images, scripts, nameClock, failClock, results, res);
      stats := Stats(stats.total,
                     stats.success + (if res.outcome == Uploaded(true) then 1 else 0),
                     stats.failed + (if res.outcome.GaveUp? then 1 else 0),
                     stats.retries + (res.attempts - 1));
      if res.outcome.GaveUp? {
        failedList := failedList + [res.name];
      }
      results := results + [res];
      i := i + 1;
    }
    DoneUrls(env, images, scripts, nameClock, failClock, results);
  }

  /** Every result so far is what its image's retry loop must produce. */
  predicate AllDone(env: AttemptEnv, images: seq<Image>, scripts: seq<seq<AttemptScript>>,
                    nameClock: seq<int>, failClock: seq<int>, results: seq<ImageResult>) {
    |results| <= |images|
    && forall i :: 0 <= i < |results| ==> ImageDone(JobFor(env, images, scripts, nameClock, failClock, i), results[i])
  }

  lemma DoneAppend(env: AttemptEnv, images: seq<Image>, scripts: seq<seq<AttemptScript>>,
                   nameClock: seq<int>, failClock: seq<int>, results: seq<ImageResult>, res: ImageResult)
    requires AllDone(env, images, scripts, nameClock, failClock, results) && |results| < |images|
    requires ImageDone(JobFor(env, images, scripts, nameClock, failClock, |results|), res)
    ensures AllDone(env, images, scripts, nameClock, failClock, results + [res])
  {
    var all := results + [res];
    forall i | 0 <= i < |all|
      ensures ImageDone(JobFor(env, images, scripts, nameClock, failClock, i), all[i])
    {
      if i < |results| {
        assert all[i] == results[i];
      }
    }
  }

  /** Links after the image loop: never empty in a Typora run, and otherwise empty exactly for
      the images that gave up. */
  lemma DoneUrls(env: AttemptEnv, images: seq<Image>, scripts: seq<seq<AttemptScript>>,
                 nameClock: seq<int>, failClock: seq<int>, results: seq<ImageResult>)
    requires AllDone(env, images, scripts, nameClock, failClock, results)
    ensures env.isTypora ==> forall i :: 0 <= i < |results| ==> results[i].url != ""
    ensures !env.isTypora ==> forall i :: 0 <= i < |results| ==> (results[i].url == "" <==> results[i].outcome.GaveUp?)
  {
    forall i | 0 <= i < |results|
      ensures env.isTypora ==> results[i].url != ""
      ensures !env.isTypora ==> (results[i].url == "" <==> results[i].outcome.GaveUp?)
    {
      var job := JobFor(env, images, scripts, nameClock, failClock, i);
      JobAttemptsRunTheAttempt(env, images, scripts, nameClock, failClock, i, results[i].attempts - 1);
      ImageDoneUrl(job, results[i]);
    }
  }

  /** Each counter of a longer prefix adds the new image's share. */
  lemma CountsAppend(rs: seq<ImageResult>, r: ImageResult)
    ensures CountCounted(rs + [r]) == CountCounted(rs) + (if r.outcome == Uploaded(true) then 1 else 0)
    ensures CountGaveUp(rs + [r]) == CountGaveUp(rs) + (if r.outcome.GaveUp? then 1 else 0)
    ensures SumRetries(rs + [r]) == SumRetries(rs) + (if r.attempts > 0 then r.attempts - 1 else 0)
    ensures FailedNames(rs + [r]) == FailedNames(rs) + (if r.outcome.GaveUp? then [r.name] else [])
  {
    assert (rs + [r])[..|rs|] == rs;
  }

  /** An image's link is empty only when it gave up outside Typora. */
  lemma ImageDoneUrl(job: ImageJob, res: ImageResult)
    requires ImageDone(job, res)
    requires Outcome(job, res.attempts - 1).Succeeded? ==> Outcome(job, res.attempts - 1).url != ""
    ensures job.env.isTypora ==> res.url != ""
    ensures !job.env.isTypora ==> (res.url == "" <==> res.outcome.GaveUp?)
  {
  }

  /** The post-pass of a Typora run (src/index.js:565-575): any image still without a link gets
      `https://www.123pan.com/typora-fallback-${Date.now()}`. */
  function TyporaBackfill(urls: seq<string>, now: int): (r: seq<string>)
    ensures |r| == |urls|
    ensures forall i :: 0 <= i < |r| ==> r[i] != ""
    ensures forall i :: 0 <= i < |r| && urls[i] != "" ==> r[i] == urls[i]
  {
    seq(|urls|, i requires 0 <= i < |urls| => if urls[i] != "" then urls[i] else TyporaFallbackPrefix + IntText(now))
  }

  function Urls(results: seq<ImageResult>): (urls: seq<string>)
    ensures |urls| == |results| && forall i :: 0 <= i < |results| ==> urls[i] == results[i].url
  {
    seq(|results|, i requires 0 <= i < |results| => results[i].url)
  }

  /** After a Typora run every image already has a link, so the post-pass changes nothing. */
  lemma TyporaBackfillIsIdle(results: seq<ImageResult>, now: int)
    requires forall i :: 0 <= i < |results| ==> results[i].url != ""
    ensures TyporaBackfill(Urls(results), now) == Urls(results)
  {
  }

  /** The run's configuration (`picBed.123pan`): the directory name, `""` when unset. */
  datatype UploadConfig = UploadConfig(parentDirName: string)

  /** How `handleUpload` ends: an exception before any upload, nothing to do, or the finished run
      with each image's result and the statistics it reports. */
  datatype RunOutcome =
    | ConfigMissing
    | NothingToUpload
    | TokenUnavailable(error: TokenError)
    | Finished(parent: JsId, results: seq<ImageResult>, stats: Stats, failedList: seq<string>)

  /** Everything the environment answers during one run. */
  datatype RunScript = RunScript(
    history: UploadHistory, cached: Option<Credential>, clientConfigured: bool, fetch: FetchReply,
    mkdir: MkdirReply, listing: ListReply, attempts: seq<seq<AttemptScript>>,
    nameClock: seq<int>, failClock: seq<int>, backfillNow: int)

  /** The pause `handleUpload` takes before a first upload of the session (src/index.js:463-470). */
  function StartupPause(isFirst: bool, isTypora: bool): nat {
    if isFirst && isTypora then 5000 else if isFirst then 2000 else 0
  }

  /** `handleUpload` (src/index.js:385-606): Typora is the caller when there is no GUI and a
      process argument mentions it; `now` is the clock at the start of the run. The token check
      reads the clock after the startup pause. */
  method HandleUpload(config: Option<UploadConfig>, images: seq<Image>, isGui: bool, argvMentionsTypora: bool,
                      now: int, script: RunScript)
    returns (outcome: RunOutcome, urls: seq<string>)
    ensures config.None? ==> outcome == ConfigMissing
    ensures config.Some? && |images| == 0 ==> outcome == NothingToUpload
    ensures outcome == NothingToUpload ==> config.Some? && |images| == 0
    ensures config.Some? && |images| > 0 ==>
              var isFirst := FirstUploadThisSession(script.history, now);
              var token := AcquireToken(script.cached, now + StartupPause(isFirst, !isGui && argvMentionsTypora),
                                        script.clientConfigured, script.fetch);
              && (outcome.Finished? || outcome.TokenUnavailable?)
              && (outcome.TokenUnavailable? <==> token.TokenFailed?)
              && (outcome.TokenUnavailable? ==> outcome.error == token.error)
    ensures outcome.TokenUnavailable? ==>
              UploadTokenDecision(script.cached, now + StartupPause(FirstUploadThisSession(script.history, now),
                                                                     !isGui && argvMentionsTypora)).FetchNew?
    ensures outcome.Finished? ==>
              && config.Some? && |images| > 0
              && outcome.parent == ResolveParent(config.value.parentDirName, script.mkdir, script.listing).fileID
              && |outcome.results| == |images| && outcome.stats.total == |images|
              && outcome.stats.success + outcome.stats.failed <= |images|
              && |urls| == |images|
    ensures outcome.Finished? && !isGui && argvMentionsTypora ==> forall i :: 0 <= i < |urls| ==> urls[i] != ""
    ensures outcome.Finished? ==> forall i :: 0 <= i < |urls| ==> (urls[i] == "" ==> outcome.results[i].outcome.GaveUp?)
  {
    urls := [];
    if config.None? {
      return ConfigMissing, urls;
    }
    if |images| == 0 {
      return NothingToUpload, urls;
    }
    var isTypora := !isGui && argvMentionsTypora;
    var isFirst := FirstUploadThisSession(script.history, now);
    var tokenNow := now + StartupPause(isFirst, isTypora);
    var token := AcquireToken(script.cached, tokenNow, script.clientConfigured, script.fetch);
    if token.TokenFailed? {
      return TokenUnavailable(token.error), urls;
    }
    var parent := ResolveParent(config.value.parentDirName, script.mkdir, script.listing).fileID;
    var env := AttemptEnv(parent, isTypora, isFirst);
    var results, stats, failedList := ProcessImages(env, images, script.attempts, script.nameClock, script.failClock);
    OutcomesPartition(results);
    urls := Urls(results);
    if isTypora {
      urls := TyporaBackfill(urls, script.backfillNow);
    }
    outcome := Finished(parent, results, stats, failedList);
  }
}
