/** One upload attempt of one image, the body of the retry loop in `processImages`
    (src/index.js:671-872): fetch the bytes, create the file (instant upload when the server
    already has them), send the slices, complete, poll when completion is asynchronous, and turn
    the identifier into a download link. Every reply comes from the attempt's script. */
module UploadJob {
  import opened JsValues
  import opened Naming
  import opened Slices
  import opened Poller
  import opened Directory

  /** The image bytes: fetched (their length), or the fetch failed or timed out. */
  datatype BufferReply = BufferOk(size: nat) | BufferFailed

  /** The create-file reply's `data`, a reply without `data`, or a rejected request. A missing
      `sliceSize` makes every cut empty, as a zero one does, so it is written as 0. */
  datatype CreateReply =
    | CreateOk(reuse: bool, fileID: JsId, preuploadID: JsId, sliceSize: int)
    | CreateNoData
    | CreateFailed

  /** The completion reply's `data`, or a rejected request (a reply without `data` fails the same
      way, on reading its `async` flag). */
  datatype CompleteReply = CompleteOk(isAsync: bool, fileID: JsId, preuploadID: JsId) | CompleteFailed

  /** The file-detail reply: a `downloadURL` (possibly empty), or a failed request. */
  datatype DetailReply = DetailOk(downloadURL: string) | DetailFailed

  datatype AttemptScript = AttemptScript(buffer: BufferReply, create: CreateReply, slices: seq<SliceReply>,
                                         complete: CompleteReply, poll: PollScript, detail: DetailReply)

  /** What the whole run fixes for an attempt: the resolved parent directory and the two flags
      that pick the polling strategy. */
  datatype AttemptEnv = AttemptEnv(parent: JsId, isTypora: bool, isFirst: bool)

  /** The requests of an attempt, in order; slice and polling traffic are grouped by phase. */
  datatype Request =
    | CreateFile(parentFileID: string, filename: string, size: nat)
    | SliceUpload(sliceCalls: seq<SliceCall>)
    | CompleteUpload(preuploadID: string)
    | AsyncPoll(pollCalls: seq<PollCall>)
    | FileDetail(fileID: string)

  /** The step an attempt failed at. */
  datatype FailedStep =
    | NoBuffer | EmptyBuffer | CreateRejected | NoCreateData | ReuseWithoutFileID | NoPreuploadID
    | SliceFailed | CompleteRejected | PollRaceLost | PollFailed(error: PollError) | NoAsyncFileID | NoFileID

  /** `counted` tells whether the attempt bumps `stats.success`; the instant-upload path does not. */
  datatype AttemptOutcome = Succeeded(url: string, fileID: JsId, counted: bool) | Failed(step: FailedStep)

  datatype AttemptRun = AttemptRun(outcome: AttemptOutcome, requests: seq<Request>)

  const ShareUrlPrefix: string := "https://www.123pan.com/s/"

  /** `generateFallbackUrl(fileID).main` (src/index.js:331-338). */
  function FallbackUrl(fileID: JsId): string {
    ShareUrlPrefix + ToText(fileID)
  }

  /** The link an uploaded file gets: the detail reply's `downloadURL` when it is non-empty, the
      share link otherwise (including when the detail request fails). */
  function DownloadUrl(detail: DetailReply, fileID: JsId): (url: string)
    ensures url != ""
    ensures detail.DetailOk? && detail.downloadURL != "" ==> url == detail.downloadURL
    ensures !(detail.DetailOk? && detail.downloadURL != "") ==>
              |url| >= |ShareUrlPrefix| && url[..|ShareUrlPrefix|] == ShareUrlPrefix && url[|ShareUrlPrefix|..] == ToText(fileID)
  {
    if detail.DetailOk? && detail.downloadURL != "" then detail.downloadURL else FallbackUrl(fileID)
  }

  /** The finishing step shared by both paths: an identifier must be truthy, then its link. */
  function Finish(detail: DetailReply, fileID: JsId, counted: bool, requests: seq<Request>): AttemptRun {
    if !Truthy(fileID) then AttemptRun(Failed(NoFileID), requests)
    else AttemptRun(Succeeded(DownloadUrl(detail, fileID), fileID, counted), requests + [FileDetail(ToText(fileID))])
  }

  /** The asynchronous branch (src/index.js:800-834): after the initial pause the poller races a
      timer of the strategy's total budget, both started at the poller's clock reading 0; the
      timer wins when the poller settles at or after the budget. */
  function AwaitAsync(env: AttemptEnv, name: string, complete: CompleteReply, poll: PollScript): (r: (Option<JsId>, FailedStep, seq<PollCall>))
    requires complete.CompleteOk?
    ensures r.0.Some? ==> Truthy(r.0.value)
    ensures var cfg := Strategy(env.isTypora, env.isFirst);
            var run := HandleAsyncPolling(cfg, complete.preuploadID, complete.fileID, name, poll, 0);
            && (r.0.Some? <==> run.finish < cfg.totalTimeoutMs && run.result.PollOk? && Truthy(run.result.fileID))
            && (r.0.Some? ==> r.0.value == run.result.fileID)
            && r.2 == run.calls
  {
    var cfg := Strategy(env.isTypora, env.isFirst);
    var run := HandleAsyncPolling(cfg, complete.preuploadID, complete.fileID, name, poll, 0);
    if run.finish >= cfg.totalTimeoutMs then (None, PollRaceLost, run.calls)
    else match run.result
      case PollErr(e) => (None, PollFailed(e), run.calls)
      case PollOk(id, _) => if Truthy(id) then (Some(id), NoAsyncFileID, run.calls) else (None, NoAsyncFileID, run.calls)
  }

  /** One attempt for the image whose (already defaulted) file name is `fileName`. */
  function RunAttempt(env: AttemptEnv, fileName: string, s: AttemptScript): (run: AttemptRun)
    ensures run.outcome.Succeeded? ==>
              && run.outcome.url != "" && Truthy(run.outcome.fileID)
              && |run.requests| >= 2 && run.requests[|run.requests| - 1] == FileDetail(ToText(run.outcome.fileID))
    ensures run.outcome.Succeeded? ==>
              run.outcome.url == (if s.detail.DetailOk? && s.detail.downloadURL != "" then s.detail.downloadURL
                                  else ShareUrlPrefix + ToText(run.outcome.fileID))
    ensures s.buffer.BufferFailed? || s.buffer.size == 0 ==> run.outcome.Failed? && run.requests == []
    ensures s.buffer.BufferOk? && s.buffer.size > 0 ==>
              |run.requests| >= 1
              && run.requests[0] == CreateFile(NormalizeParentFileID(env.parent), SanitizeFilename(fileName), s.buffer.size)
  {
    match s.buffer
    case BufferFailed => AttemptRun(Failed(NoBuffer), [])
    case BufferOk(size) =>
      if size == 0 then AttemptRun(Failed(EmptyBuffer), [])
      else
        var name := SanitizeFilename(fileName);
        var created := [CreateFile(NormalizeParentFileID(env.parent), name, size)];
        match s.create
        case CreateFailed => AttemptRun(Failed(CreateRejected), created)
        case CreateNoData => AttemptRun(Failed(NoCreateData), created)
        case CreateOk(reuse, fileID, pid, k) =>
          if reuse then
            if !Truthy(fileID) then AttemptRun(Failed(ReuseWithoutFileID), created)
            else Finish(s.detail, fileID, false, created)
          else if !Truthy(pid) then AttemptRun(Failed(NoPreuploadID), created)
          else
            var sliced := UploadSlices(size, k, ToText(pid), s.slices);
            var sent := created + [SliceUpload(sliced.calls)];
            if !sliced.result.SlicesSent? then AttemptRun(Failed(SliceFailed), sent)
            else
              var completed := sent + [CompleteUpload(ToText(pid))];
              match s.complete
              case CompleteFailed => AttemptRun(Failed(CompleteRejected), completed)
              case CompleteOk(isAsync, completeFileID, _) =>
                if !isAsync then Finish(s.detail, completeFileID, true, completed)
                else
                  var (id, step, pollCalls) := AwaitAsync(env, name, s.complete, s.poll);
                  var polled := completed + [AsyncPoll(pollCalls)];
                  if id.None? then AttemptRun(Failed(step), polled)
                  else Finish(s.detail, id.value, true, polled)
  }

  /** The attempt took the instant-upload path: the server already had the bytes. */
  predicate InstantUpload(s: AttemptScript) {
    s.buffer.BufferOk? && s.buffer.size > 0 && s.create.CreateOk? && s.create.reuse && Truthy(s.create.fileID)
  }

  /** Instant uploads are exactly the successes `stats.success` does not count, and they send
      nothing but the create and detail requests (src/index.js:722-752). */
  lemma InstantUploadIsUncountedSuccess(env: AttemptEnv, fileName: string, s: AttemptScript)
    ensures var run := RunAttempt(env, fileName, s);
            (run.outcome.Succeeded? && !run.outcome.counted) <==> InstantUpload(s)
    ensures InstantUpload(s) ==>
              var run := RunAttempt(env, fileName, s);
              && run.outcome == Succeeded(DownloadUrl(s.detail, s.create.fileID), s.create.fileID, false)
              && run.requests == [CreateFile(NormalizeParentFileID(env.parent), SanitizeFilename(fileName), s.buffer.size),
                                  FileDetail(ToText(s.create.fileID))]
  {
  }

  /** A created upload without a preupload identifier fails before any slice is sent. */
  lemma MissingPreuploadIDFails(env: AttemptEnv, fileName: string, s: AttemptScript)
    requires s.buffer.BufferOk? && s.buffer.size > 0
    requires s.create.CreateOk? && !s.create.reuse && !Truthy(s.create.preuploadID)
    ensures RunAttempt(env, fileName, s) ==
              AttemptRun(Failed(NoPreuploadID), [CreateFile(NormalizeParentFileID(env.parent), SanitizeFilename(fileName), s.buffer.size)])
  {
  }

  /** An instant upload the server reports without a file identifier fails right after
      `create`: no slice, completion or detail request follows. */
  lemma ReuseWithoutFileIDFails(env: AttemptEnv, fileName: string, s: AttemptScript)
    requires s.buffer.BufferOk? && s.buffer.size > 0
    requires s.create.CreateOk? && s.create.reuse && !Truthy(s.create.fileID)
    ensures RunAttempt(env, fileName, s) ==
              AttemptRun(Failed(ReuseWithoutFileID), [CreateFile(NormalizeParentFileID(env.parent), SanitizeFilename(fileName), s.buffer.size)])
  {
  }

  /** A counted success sent every planned slice of the buffer, in order, under the create
      reply's preupload identifier, then completed under that identifier. */
  lemma CountedSuccessSentWholeFile(env: AttemptEnv, fileName: string, s: AttemptScript)
    requires RunAttempt(env, fileName, s).outcome.Succeeded? && RunAttempt(env, fileName, s).outcome.counted
    ensures s.buffer.BufferOk? && s.create.CreateOk? && Truthy(s.create.preuploadID)
    ensures var run := RunAttempt(env, fileName, s);
            var pid := ToText(s.create.preuploadID);
            && |run.requests| >= 4
            && run.requests[1].SliceUpload?
            && run.requests[2] == CompleteUpload(pid)
            && UrlsCarry(run.requests[1].sliceCalls, pid)
            && (s.create.sliceSize > 0 ==> Puts(run.requests[1].sliceCalls) == Plan(s.buffer.size, s.create.sliceSize))
  {
    var size := s.buffer.size;
    var k := s.create.sliceSize;
    var pid := ToText(s.create.preuploadID);
    SliceUrlsUseIdentifier(size, k, pid, s.slices, 1);
    if k > 0 {
      SliceLoopFollowsPlan(size, k, pid, s.slices, 1);
    }
  }

  /** Every destination request in `calls` names the preupload identifier `pid`. */
  predicate UrlsCarry(calls: seq<SliceCall>, pid: string) {
    forall i :: 0 <= i < |calls| && calls[i].GetSliceUrl? ==> calls[i].preuploadID == pid
  }

  /** Every destination request of the slice loop carries the identifier it was given. */
  lemma {:induction false} SliceUrlsUseIdentifier(size: nat, k: int, pid: string, replies: seq<SliceReply>, sliceNo: nat)
    requires sliceNo >= 1
    ensures UrlsCarry(SliceLoop(size, k, pid, replies, sliceNo).calls, pid)
    decreases Remaining(size, k, sliceNo)
  {
    var reply := ReplyAt(replies, sliceNo);
    var r := BufferSlice(size, (sliceNo - 1) * k, Min(sliceNo * k, size));
    var end := Min(sliceNo * k, size);
    if reply.urlGranted && r.start != r.end && 200 <= reply.putStatus < 300 && end < size {
      assert k > 0 || sliceNo == 1 by {
        if k < 0 && sliceNo >= 2 {
          NegativeSliceSizeStops(size, k, sliceNo);
        }
      }
      StepProduct(sliceNo, k);
      SliceUrlsUseIdentifier(size, k, pid, replies, sliceNo + 1);
      var rest := SliceLoop(size, k, pid, replies, sliceNo + 1).calls;
      var sent := [GetSliceUrl(pid, sliceNo), PutSlice(sliceNo, r)];
      var whole: seq<SliceCall> := sent + rest;
      assert SliceLoop(size, k, pid, replies, sliceNo).calls == whole;
      forall i | 0 <= i < |whole| && whole[i].GetSliceUrl?
        ensures whole[i].preuploadID == pid
      {
        if i >= 2 {
          assert whole[i] == rest[i - 2];
          assert rest[i - 2].GetSliceUrl?;
          assert rest[i - 2].preuploadID == pid;
        } else {
          assert whole[i] == sent[i];
        }
      }
    }
  }

  /** Completion polling queries the identifier of the completion reply; when that reply has none,
      the status endpoint is never asked and success can only come from a listing. */
  lemma PollingUsesCompletionIdentifier(env: AttemptEnv, name: string, complete: CompleteReply, poll: PollScript)
    requires complete.CompleteOk?
    ensures var calls := AwaitAsync(env, name, complete, poll).2;
            forall i :: 0 <= i < |calls| && calls[i].StatusQuery? ==>
              Truthy(complete.preuploadID) && calls[i].preuploadID == ToText(complete.preuploadID)
  {
  }

  /** An asynchronous completion succeeds only if the poller settled inside its budget with a
      truthy identifier, and that identifier is the one linked. */
  lemma AsyncSuccessBeatTheTimer(env: AttemptEnv, fileName: string, s: AttemptScript)
    requires var run := RunAttempt(env, fileName, s);
             run.outcome.Succeeded? && run.outcome.counted
    requires s.complete.CompleteOk? && s.complete.isAsync
    ensures var cfg := Strategy(env.isTypora, env.isFirst);
            var poll := HandleAsyncPolling(cfg, s.complete.preuploadID, s.complete.fileID,
                                           SanitizeFilename(fileName), s.poll, 0);
            && poll.finish < cfg.totalTimeoutMs
            && poll.result.PollOk?
            && poll.result.fileID == RunAttempt(env, fileName, s).outcome.fileID
  {
  }

  /** The converse: an asynchronous completion whose poller settles inside its budget with a
      truthy identifier finishes the attempt with that identifier and its link, counted as a
      success (src/index.js:800-863). */
  lemma AsyncCompletionSucceeds(env: AttemptEnv, fileName: string, s: AttemptScript)
    requires s.buffer.BufferOk? && s.buffer.size > 0
    requires s.create.CreateOk? && !s.create.reuse && Truthy(s.create.preuploadID)
    requires UploadSlices(s.buffer.size, s.create.sliceSize, ToText(s.create.preuploadID), s.slices).result.SlicesSent?
    requires s.complete.CompleteOk? && s.complete.isAsync
    requires var cfg := Strategy(env.isTypora, env.isFirst);
             var poll := HandleAsyncPolling(cfg, s.complete.preuploadID, s.complete.fileID,
                                            SanitizeFilename(fileName), s.poll, 0);
             poll.finish < cfg.totalTimeoutMs && poll.result.PollOk? && Truthy(poll.result.fileID)
    ensures var cfg := Strategy(env.isTypora, env.isFirst);
            var id := HandleAsyncPolling(cfg, s.complete.preuploadID, s.complete.fileID,
                                         SanitizeFilename(fileName), s.poll, 0).result.fileID;
            RunAttempt(env, fileName, s).outcome == Succeeded(DownloadUrl(s.detail, id), id, true)
  {
  }

  /** An example attempt: a one-slice file whose completion is asynchronous; the first status
      reply is still pending, the second reports `F2`, and the detail request fails, so the
      attempt links the share page of `F2`. */
  lemma ExampleAsyncCompletion()
    ensures var empty := ListReply([], 50);
            var script := PollScript(empty, [PollStep(StatusOk(false, Absent, 100), empty),
                                             PollStep(StatusOk(true, Text("F2"), 100), empty)], empty);
            var s := AttemptScript(BufferOk(500), CreateOk(false, Absent, Text("p1"), 1000),
                                   [SliceReply(true, 200)], CompleteOk(true, Absent, Text("p1")), script, DetailFailed);
            RunAttempt(AttemptEnv(Absent, false, false), "a.png", s).outcome
              == Succeeded("https://www.123pan.com/s/F2", Text("F2"), true)
  {
    var empty := ListReply([], 50);
    var script := PollScript(empty, [PollStep(StatusOk(false, Absent, 100), empty),
                                     PollStep(StatusOk(true, Text("F2"), 100), empty)], empty);
    var s := AttemptScript(BufferOk(500), CreateOk(false, Absent, Text("p1"), 1000),
                           [SliceReply(true, 200)], CompleteOk(true, Absent, Text("p1")), script, DetailFailed);
    var env := AttemptEnv(Absent, false, false);
    assert SanitizeFilename("a.png") == "a.png";
    assert Strategy(false, false) == DefaultStrategy;
    assert HandleAsyncPolling(DefaultStrategy, Text("p1"), Absent, "a.png", script, 0).result == PollOk(Text("F2"), FromStatus)
      && HandleAsyncPolling(DefaultStrategy, Text("p1"), Absent, "a.png", script, 0).finish < DefaultStrategy.totalTimeoutMs by {
      ExampleCompletionOnSecondPoll();
    }
    assert UploadSlices(500, 1000, "p1", s.slices).result.SlicesSent? by {
      assert AcceptedRun(s.slices, 1, 1 + |Plan(500, 1000)|) by {
        PlanShape(500, 1000);
      }
      UploadSlicesSendsPlan(500, 1000, "p1", s.slices);
    }
    AsyncCompletionSucceeds(env, "a.png", s);
    assert DownloadUrl(DetailFailed, Text("F2")) == "https://www.123pan.com/s/F2";
  }

  /** When every request goes through, a synchronous completion yields the completion reply's
      identifier and its download link. */
  lemma CooperativeServerSucceeds(env: AttemptEnv, fileName: string, s: AttemptScript)
    requires s.buffer.BufferOk? && s.buffer.size > 0
    requires s.create.CreateOk? && !s.create.reuse && Truthy(s.create.preuploadID) && s.create.sliceSize > 0
    requires AcceptedRun(s.slices, 1, 1 + |Plan(s.buffer.size, s.create.sliceSize)|)
    requires s.complete.CompleteOk? && !s.complete.isAsync && Truthy(s.complete.fileID)
    ensures RunAttempt(env, fileName, s).outcome == Succeeded(DownloadUrl(s.detail, s.complete.fileID), s.complete.fileID, true)
  {
    UploadSlicesSendsPlan(s.buffer.size, s.create.sliceSize, ToText(s.create.preuploadID), s.slices);
  }
}
