/** Asynchronous completion polling: `handleAsyncPolling` (src/index.js:923-1121) together with
    the error messages of `uploadAsyncResult` (src/index.js:271-303) and the inner retry wrapper
    `getUploadAsyncResultWithRetry` (src/index.js:1124-1140). The server is a script of replies,
    one per polling round, and the clock an integer number of milliseconds advanced by the
    latencies in the script and by the waits the poller schedules. */
module Poller {
  import opened JsValues
  import opened Directory

  /** The polling options `processImages` passes (src/index.js:805-807). */
  datatype PollConfig = PollConfig(maxRetries: nat, retryDelay: nat, lookupInterval: nat, totalTimeoutMs: nat)

  /** The more aggressive strategy for a Typora run's first upload of the session. */
  const TyporaFirstStrategy: PollConfig := PollConfig(10, 2000, 2, 45000)
  const DefaultStrategy: PollConfig := PollConfig(15, 1500, 3, 60000)

  /** The pause before polling starts (`initialDelay`). */
  const InitialDelayMs: nat := 2000

  /** Consecutive preupload-identifier errors that trigger a recovery listing. */
  const MaxEmptyPreuploadRetries: nat := 3

  /** `getUploadAsyncResultWithRetry` tries three times with one-second pauses. */
  const InnerRetryPauseMs: nat := 1000
  const InnerRetries: nat := 2

  function Strategy(isTypora: bool, isFirst: bool): (cfg: PollConfig)
    ensures cfg.lookupInterval > 0 && cfg.maxRetries > 0
    ensures cfg.totalTimeoutMs == (if isTypora && isFirst then 45000 else 60000)
  {
    if isTypora && isFirst then TyporaFirstStrategy else DefaultStrategy
  }

  /** What one `getUploadAsyncResultWithRetry` call yields, inner retries included: the reply's
      `data` (with `fileID` `Absent` when the key is missing), or the message of the last inner
      request error; `latency` is the time the whole call took. */
  datatype StatusReply = StatusOk(completed: bool, fileID: JsId, latency: nat) | StatusFailed(message: string, latency: nat)

  /** The server's behaviour in one polling round: the status reply, and the listing the round
      gets if it lists the directory. */
  datatype PollStep = PollStep(status: StatusReply, lookup: ListReply)

  datatype PollScript = PollScript(initial: ListReply, steps: seq<PollStep>, final: ListReply)

  /** A round the script says nothing about fails without reaching the server. */
  function StepAt(steps: seq<PollStep>, round: nat): PollStep {
    if round < |steps| then steps[round] else PollStep(StatusFailed("", 0), ListReply([], 0))
  }

  const PreuploadWord: string := "preuploadID"
  /** "预上传ID不能为空" (the preupload identifier must not be empty). */
  const EmptyPreuploadWord: string := "\U{9884}\U{4E0A}\U{4F20}ID\U{4E0D}\U{80FD}\U{4E3A}\U{7A7A}"

  const EmptyPreuploadMessage: string := "Empty " + PreuploadWord + " passed to uploadAsyncResult function"

  /** The error `uploadAsyncResult` raises when its request fails. */
  function WrappedStatusError(message: string, preuploadID: string): string {
    "uploadAsyncResult failed: " + message + " (" + PreuploadWord + ": " + preuploadID + ")"
  }

  /** What the poller sees for a round: with a falsy identifier no request is made and all three
      inner attempts fail at once, so only the two inner pauses elapse. */
  function StatusOutcome(orig: JsId, reply: StatusReply): (s: StatusReply)
    ensures !Truthy(orig) ==> s == StatusFailed(EmptyPreuploadMessage, InnerRetries * InnerRetryPauseMs)
    ensures Truthy(orig) && reply.StatusOk? ==> s == reply
    ensures Truthy(orig) && reply.StatusFailed? ==> s.StatusFailed? && s.latency == reply.latency
  {
    if !Truthy(orig) then StatusFailed(EmptyPreuploadMessage, InnerRetries * InnerRetryPauseMs)
    else match reply
      case StatusOk(_, _, _) => reply
      case StatusFailed(m, latency) => StatusFailed(WrappedStatusError(m, ToText(orig)), latency)
  }

  /** The test that routes an error to the preupload-identifier branch (src/index.js:1039). */
  predicate IsPreuploadError(message: string) {
    Contains(message, EmptyPreuploadWord) || Contains(message, PreuploadWord)
  }

  /** Every error the poller can see names the preupload identifier, so the branch for other
      errors (src/index.js:1075-1086) is never taken. */
  lemma EveryStatusErrorIsPreuploadError(orig: JsId, reply: StatusReply)
    requires StatusOutcome(orig, reply).StatusFailed?
    ensures IsPreuploadError(StatusOutcome(orig, reply).message)
  {
    var s := StatusOutcome(orig, reply);
    if !Truthy(orig) {
      assert s.message == "Empty " + PreuploadWord + " passed to uploadAsyncResult function";
      assert s.message[6..6 + |PreuploadWord|] == PreuploadWord;
      ContainsAt(s.message, PreuploadWord, 6);
    } else {
      var pre := "uploadAsyncResult failed: " + reply.message + " (";
      var post := ": " + ToText(orig) + ")";
      assert s.message == pre + PreuploadWord + post;
      assert s.message[|pre|..|pre| + |PreuploadWord|] == PreuploadWord;
      ContainsAt(s.message, PreuploadWord, |pre|);
    }
  }

  lemma MulStep(q: int, d: int)
    ensures (q - 1) * d == q * d - d
  {
  }

  /** Multiplication by a positive factor preserves strict order, so it can be cancelled. */
  lemma MulCancel(a: int, b: int, d: int)
    requires d >= 1 && a * d < b * d
    ensures a < b
  {
    assert a * d - b * d == (a - b) * d;
  }

  lemma MulAtLeast(a: int, d: int)
    requires a >= 0 && d >= 1
    ensures a * d >= a
  {
    assert a * d - a == a * (d - 1);
  }

  /** Node's largest timer delay, `2^31 - 1` milliseconds. */
  const TimeoutMax: int := 0x7FFF_FFFF

  /** `await delay(Math.min(ideal, timeLeft / d))`, skipped when the amount is not positive.
      `setTimeout` replaces a delay below 1 ms or above `TimeoutMax` by 1 ms and truncates any
      other to whole milliseconds. */
  function Wait(ideal: int, timeLeft: int, d: nat): nat
    requires d >= 1
  {
    var m := Min(ideal * d, timeLeft);
    if m <= 0 then 0
    else if m < d || m > TimeoutMax * d then 1
    else m / d
  }

  /** With `m = min(ideal * d, timeLeft)`, the pause is none when `m` is not positive, one
      millisecond when `m / d` lies outside `[1, TimeoutMax]`, and otherwise the whole number of
      milliseconds in `m / d`, stated without division; it never exceeds the time left or the
      ideal. */
  lemma WaitIsTimerDelay(ideal: int, timeLeft: int, d: nat)
    requires d >= 1
    ensures var m := Min(ideal * d, timeLeft);
            var w := Wait(ideal, timeLeft, d);
            && (m <= 0 ==> w == 0)
            && (0 < m && (m < d || m > TimeoutMax * d) ==> w == 1)
            && (d <= m <= TimeoutMax * d ==> w * d <= m < (w + 1) * d)
            && (timeLeft > 0 ==> w <= timeLeft)
            && w <= Max(0, ideal)
  {
    var m := Min(ideal * d, timeLeft);
    if m <= 0 {
    } else if m < d || m > TimeoutMax * d {
      MulCancel(0, ideal, d);
    } else {
      var w := m / d;
      assert w * d + m % d == m;
      MulStep(w + 1, d);
      MulStep(ideal + 1, d);
      MulCancel(w, ideal + 1, d);
      MulAtLeast(w, d);
    }
  }

  /** `retries % lookupInterval === 0`; an interval of 0 gives `NaN`, which never equals 0. */
  predicate LookupDue(round: nat, interval: nat) {
    interval != 0 && round % interval == 0
  }

  datatype LookupPurpose = Initial | Periodic | Recovery | Final

  /** A request of the poller: a status query of round `round`, or a listing of the target
      directory, each with the clock reading at which it was sent. */
  datatype PollCall =
    | StatusQuery(preuploadID: string, round: nat, at: int)
    | Listing(purpose: LookupPurpose, round: nat, at: int)

  datatype PollError = RecoveryExhausted | TimedOut | NotCompleted

  /** Where a returned identifier came from. */
  datatype Source = FromStatus | FromListing | FromCompleteResponse

  datatype PollResult = PollOk(fileID: JsId, source: Source) | PollErr(error: PollError)

  /** The outcome, the clock reading when the poller settles, the requests it made, and the
      number of rounds it ran. */
  datatype PollRun = PollRun(result: PollResult, finish: int, calls: seq<PollCall>, rounds: nat)

  /** Everything fixed for the duration of one polling run. `completeFileID` is the `fileID` of
      the completion reply the poller's result object starts from. */
  datatype PollContext = PollContext(cfg: PollConfig, orig: JsId, completeFileID: JsId, name: string,
                                     script: PollScript, endTime: int)

  /** A listing finds the target by file name alone, without a type check. */
  function Lookup(reply: ListReply, name: string): Option<JsId> {
    LookupID(reply.entries, name, false)
  }

  /** The merged result keeps the completion reply's `fileID` unless the status data has one. */
  function Merge(statusFileID: JsId, completeFileID: JsId): JsId {
    if statusFileID.Absent? then completeFileID else statusFileID
  }

  /** The status outcome of round `j`. */
  function OutcomeAt(c: PollContext, j: nat): StatusReply {
    StatusOutcome(c.orig, StepAt(c.script.steps, j).status)
  }

  /** The requests appended after position `from` all obey the poller's discipline: status
      queries use the completion reply's identifier and go out before the deadline. */
  predicate QueriesWellFormed(c: PollContext, calls: seq<PollCall>, from: nat) {
    forall i :: from <= i < |calls| && calls[i].StatusQuery? ==>
      Truthy(c.orig) && calls[i].preuploadID == ToText(c.orig) && calls[i].at < c.endTime
  }

  /** The last request of a run. */
  function LastCall(calls: seq<PollCall>): PollCall
    requires |calls| > 0
  {
    calls[|calls| - 1]
  }

  /** The directory listing the server returns to a listing with this purpose in this round. */
  function ListingReply(c: PollContext, purpose: LookupPurpose, round: nat): ListReply {
    match purpose
    case Initial => c.script.initial
    case Final => c.script.final
    case _ => StepAt(c.script.steps, round).lookup
  }

  /** A successful result is read off the reply to the run's last request: a completed status
      reply of the last round, merged over the completion reply (src/index.js:983-989), or the
      first entry with the file's name in the listing just received (src/index.js:1001-1007,
      1041-1047, 1095-1101, 950-958); the completion reply's own identifier is used only after
      the loop. */
  predicate AnsweredByLastReply(c: PollContext, run: PollRun) {
    run.result.PollOk? ==>
      match run.result.source
      case FromStatus =>
        && |run.calls| > 0 && LastCall(run.calls).StatusQuery? && LastCall(run.calls).round + 1 == run.rounds
        && OutcomeAt(c, LastCall(run.calls).round).StatusOk? && OutcomeAt(c, LastCall(run.calls).round).completed
        && run.result.fileID == Merge(OutcomeAt(c, LastCall(run.calls).round).fileID, c.completeFileID)
      case FromListing =>
        && |run.calls| > 0 && LastCall(run.calls).Listing?
        && Lookup(ListingReply(c, LastCall(run.calls).purpose, LastCall(run.calls).round), c.name) == Some(run.result.fileID)
      case FromCompleteResponse => run.result.fileID == c.completeFileID && Truthy(c.completeFileID)
  }

  /** The code after the loop (src/index.js:1090-1120). */
  function AfterLoop(c: PollContext, rounds: nat, now: int, calls: seq<PollCall>): (run: PollRun)
    ensures run.rounds == rounds && run.finish >= now
    ensures |run.calls| >= |calls| && run.calls[..|calls|] == calls
    ensures run.result == PollErr(TimedOut) ==> run.finish >= c.endTime
    ensures run.result == PollErr(NotCompleted) ==> !Truthy(c.completeFileID) && now < c.endTime
    ensures run.result.PollOk? && run.result.source == FromCompleteResponse ==>
              run.result.fileID == c.completeFileID && Truthy(c.completeFileID)
    ensures run.result.PollOk? ==> run.result.source != FromStatus
  {
    if now >= c.endTime then
      var called := calls + [Listing(Final, rounds, now)];
      var t := now + c.script.final.latency;
      match Lookup(c.script.final, c.name)
      case Some(id) => PollRun(PollOk(id, FromListing), t, called, rounds)
      case None => PollRun(PollErr(TimedOut), t, called, rounds)
    else if !Truthy(c.completeFileID) then PollRun(PollErr(NotCompleted), now, calls, rounds)
    else PollRun(PollOk(c.completeFileID, FromCompleteResponse), now, calls, rounds)
  }

  /** The code after the loop answers with the final listing's entry or the completion
      reply's identifier. */
  lemma AfterLoopAnswers(c: PollContext, rounds: nat, now: int, calls: seq<PollCall>)
    ensures AnsweredByLastReply(c, AfterLoop(c, rounds, now, calls))
  {
  }

  /** One listing in round `round` when `due`: the calls and clock after it, and what it found. */
  function MaybeList(due: bool, purpose: LookupPurpose, round: nat, reply: ListReply, name: string,
                     now: int, calls: seq<PollCall>): (seq<PollCall>, int, Option<JsId>)
  {
    if due then (calls + [Listing(purpose, round, now)], now + reply.latency, Lookup(reply, name))
    else (calls, now, None)
  }

  /** What one pass through the loop body leads to: the poller settles, or the loop goes on
      from the given state. */
  datatype RoundEnd =
    | Settle(run: PollRun)
    | Continue(retries: nat, consecutive: nat, now: int, calls: seq<PollCall>)

  /** The requests made up to the end of a round. */
  function CallsOf(e: RoundEnd): seq<PollCall> {
    if e.Settle? then e.run.calls else e.calls
  }

  /** The loop body in round `retries`, entered with the clock at `now` (src/index.js:970-1087). */
  function Round(c: PollContext, retries: nat, consecutive: nat, now: int, calls: seq<PollCall>): (e: RoundEnd)
    requires retries < c.cfg.maxRetries && now < c.endTime
    ensures e.Settle? ==>
              && e.run.rounds == retries + 1 && e.run.finish >= now
              && |e.run.calls| >= |calls| && e.run.calls[..|calls|] == calls
              && QueriesWellFormed(c, e.run.calls, |calls|)
              && (e.run.result.PollErr? ==> e.run.result.error == RecoveryExhausted && retries + 1 == c.cfg.maxRetries)
              && (e.run.result.PollOk? ==> e.run.result.source != FromCompleteResponse)
              && (e.run.result.PollOk? && e.run.result.source == FromStatus ==> Truthy(c.orig))
    ensures e.Continue? ==>
              && e.retries == retries + 1 && e.now >= now
              && |e.calls| >= |calls| && e.calls[..|calls|] == calls
              && QueriesWellFormed(c, e.calls, |calls|)
  {
    var step := StepAt(c.script.steps, retries);
    var status := OutcomeAt(c, retries);
    var asked := if Truthy(c.orig) then calls + [StatusQuery(ToText(c.orig), retries, now)] else calls;
    var t1 := now + status.latency;
    match status
    case StatusOk(completed, fileID, _) =>
      if completed then Settle(PollRun(PollOk(Merge(fileID, c.completeFileID), FromStatus), t1, asked, retries + 1))
      else
        var (listed, t2, hit) := MaybeList(LookupDue(retries, c.cfg.lookupInterval), Periodic, retries,
                                           step.lookup, c.name, t1, asked);
        if hit.Some? then Settle(PollRun(PollOk(hit.value, FromListing), t2, listed, retries + 1))
        else Continue(retries + 1, 0, t2 + Wait(c.cfg.retryDelay + (retries + 1) * 100, c.endTime - t2, 2), listed)
    case StatusFailed(message, _) =>
      if IsPreuploadError(message) then
        var errors := consecutive + 1;
        var (listed, t2, hit) := MaybeList(errors >= MaxEmptyPreuploadRetries, Recovery, retries,
                                           step.lookup, c.name, t1, asked);
        if hit.Some? then Settle(PollRun(PollOk(hit.value, FromListing), t2, listed, retries + 1))
        else if errors >= MaxEmptyPreuploadRetries && retries + 1 >= c.cfg.maxRetries then
          Settle(PollRun(PollErr(RecoveryExhausted), t2, listed, retries + 1))
        else Continue(retries + 1, errors, t2 + Wait(2000 * (errors + 1), c.endTime - t2, 2), listed)
      else Continue(retries + 1, consecutive, t1 + Wait(c.cfg.retryDelay, c.endTime - t1, 3), asked)
  }

  /** A round that settles with a success answers with the reply to its last request. */
  lemma RoundAnswer(c: PollContext, retries: nat, consecutive: nat, now: int, calls: seq<PollCall>)
    requires retries < c.cfg.maxRetries && now < c.endTime
    ensures var e := Round(c, retries, consecutive, now, calls);
            e.Settle? ==> AnsweredByLastReply(c, e.run)
  {
  }

  /** A completed status reply ends polling with the status data merged over the completion
      reply (src/index.js:981-990). */
  lemma CompletedStatusSettles(c: PollContext, retries: nat, consecutive: nat, now: int, calls: seq<PollCall>)
    requires retries < c.cfg.maxRetries && now < c.endTime
    requires OutcomeAt(c, retries).StatusOk? && OutcomeAt(c, retries).completed
    ensures var s := OutcomeAt(c, retries);
            Round(c, retries, consecutive, now, calls)
              == Settle(PollRun(PollOk(Merge(s.fileID, c.completeFileID), FromStatus), now + s.latency,
                                calls + [StatusQuery(ToText(c.orig), retries, now)], retries + 1))
  {
  }

  /** A status reply that is not complete in a round whose number is a multiple of the lookup
      interval is followed by a listing, the round's last request; when the listing names the
      file, polling ends with that entry's identifier (src/index.js:996-1015). */
  lemma PeriodicLookupMade(c: PollContext, retries: nat, consecutive: nat, now: int, calls: seq<PollCall>)
    requires retries < c.cfg.maxRetries && now < c.endTime
    requires OutcomeAt(c, retries).StatusOk? && !OutcomeAt(c, retries).completed
    requires LookupDue(retries, c.cfg.lookupInterval)
    ensures var e := Round(c, retries, consecutive, now, calls);
            |CallsOf(e)| > |calls| && LastCall(CallsOf(e)) == Listing(Periodic, retries, now + OutcomeAt(c, retries).latency)
    ensures var found := Lookup(StepAt(c.script.steps, retries).lookup, c.name);
            found.Some? ==> Round(c, retries, consecutive, now, calls).Settle?
                            && Round(c, retries, consecutive, now, calls).run.result == PollOk(found.value, FromListing)
  {
  }

  /** A failed status request that makes `maxEmptyPreuploadRetries` failures in a row is
      followed by a recovery listing, the round's last request; when the listing names the
      file, polling ends with that entry's identifier (src/index.js:1032-1050). */
  lemma RecoveryLookupMade(c: PollContext, retries: nat, consecutive: nat, now: int, calls: seq<PollCall>)
    requires retries < c.cfg.maxRetries && now < c.endTime
    requires OutcomeAt(c, retries).StatusFailed? && consecutive + 1 >= MaxEmptyPreuploadRetries
    ensures var e := Round(c, retries, consecutive, now, calls);
            |CallsOf(e)| > |calls| && LastCall(CallsOf(e)) == Listing(Recovery, retries, now + OutcomeAt(c, retries).latency)
    ensures var found := Lookup(StepAt(c.script.steps, retries).lookup, c.name);
            found.Some? ==> Round(c, retries, consecutive, now, calls).Settle?
                            && Round(c, retries, consecutive, now, calls).run.result == PollOk(found.value, FromListing)
  {
    EveryStatusErrorIsPreuploadError(c.orig, StepAt(c.script.steps, retries).status);
  }

  /** The `while (retries < maxRetries && Date.now() < endTime)` loop from round `retries` on,
      with `consecutive` preupload-identifier errors in a row behind it. */
  function PollLoop(c: PollContext, retries: nat, consecutive: nat, now: int, calls: seq<PollCall>): (run: PollRun)
    requires retries <= c.cfg.maxRetries
    ensures retries <= run.rounds <= c.cfg.maxRetries
    ensures run.finish >= now
    ensures |run.calls| >= |calls| && run.calls[..|calls|] == calls
    ensures QueriesWellFormed(c, run.calls, |calls|)
    ensures run.result == PollErr(TimedOut) ==> run.finish >= c.endTime
    ensures run.result == PollErr(NotCompleted) ==> !Truthy(c.completeFileID) && run.rounds == c.cfg.maxRetries
    ensures run.result == PollErr(RecoveryExhausted) ==> run.rounds == c.cfg.maxRetries
    ensures run.result.PollOk? && run.result.source == FromCompleteResponse ==>
              run.result.fileID == c.completeFileID && Truthy(c.completeFileID) && run.rounds == c.cfg.maxRetries
    ensures run.result.PollOk? && run.result.source == FromStatus ==> Truthy(c.orig)
    decreases c.cfg.maxRetries - retries
  {
    if !(retries < c.cfg.maxRetries && now < c.endTime) then AfterLoop(c, retries, now, calls)
    else match Round(c, retries, consecutive, now, calls)
      case Settle(run) => run
      case Continue(r, k, t, cs) =>
        var run := PollLoop(c, r, k, t, cs);
        WellFormedPrefix(c, run.calls, cs, |calls|);
        run
  }

  /** Well-formedness of the old part and of the new part give well-formedness of the whole. */
  lemma WellFormedPrefix(c: PollContext, whole: seq<PollCall>, prefix: seq<PollCall>, from: nat)
    requires |whole| >= |prefix| && whole[..|prefix|] == prefix
    requires QueriesWellFormed(c, prefix, from)
    requires QueriesWellFormed(c, whole, |prefix|)
    ensures QueriesWellFormed(c, whole, from)
  {
    forall i | from <= i < |prefix|
      ensures whole[i] == prefix[i]
    {
      assert whole[..|prefix|][i] == whole[i];
    }
  }

  /** `handleAsyncPolling` started at clock reading `start`: the initial listing, then the loop. */
  function HandleAsyncPolling(cfg: PollConfig, orig: JsId, completeFileID: JsId, name: string,
                              script: PollScript, start: int): (run: PollRun)
    ensures |run.calls| >= 1 && run.calls[0] == Listing(Initial, 0, start)
    ensures run.rounds <= cfg.maxRetries && run.finish >= start
    ensures QueriesWellFormed(PollContext(cfg, orig, completeFileID, name, script, start + cfg.totalTimeoutMs), run.calls, 0)
    ensures run.result == PollErr(TimedOut) ==> run.finish >= start + cfg.totalTimeoutMs
    ensures Lookup(script.initial, name).Some? ==>
              run.result == PollOk(Lookup(script.initial, name).value, FromListing) && run.rounds == 0
  {
    var c := PollContext(cfg, orig, completeFileID, name, script, start + cfg.totalTimeoutMs);
    var calls := [Listing(Initial, 0, start)];
    match Lookup(script.initial, name)
    case Some(id) => PollRun(PollOk(id, FromListing), start + script.initial.latency, calls, 0)
    case None => PollLoop(c, 0, 0, start + script.initial.latency, calls)
  }

  /** A successful loop answers with the reply to its last request. */
  lemma {:induction false} PollLoopAnswers(c: PollContext, retries: nat, consecutive: nat, now: int, calls: seq<PollCall>)
    requires retries <= c.cfg.maxRetries
    ensures AnsweredByLastReply(c, PollLoop(c, retries, consecutive, now, calls))
    decreases c.cfg.maxRetries - retries
  {
    if !(retries < c.cfg.maxRetries && now < c.endTime) {
      AfterLoopAnswers(c, retries, now, calls);
    } else {
      RoundAnswer(c, retries, consecutive, now, calls);
      match Round(c, retries, consecutive, now, calls)
      case Settle(_) =>
      case Continue(r, k, t, cs) =>
        PollLoopAnswers(c, r, k, t, cs);
    }
  }

  /** Rounds `[from, to)` all ended in a failed status outcome. */
  predicate FailedRounds(c: PollContext, from: int, to: int) {
    forall j: nat :: from <= j < to ==> OutcomeAt(c, j).StatusFailed?
  }

  /** Lookups happen only when the code asks for them: a periodic listing in a round whose status
      was answered but not completed and whose number is a multiple of the lookup interval, a
      recovery listing in a round that closes three failed rounds in a row. */
  predicate ListingsJustified(c: PollContext, calls: seq<PollCall>, from: nat) {
    forall i :: from <= i < |calls| && calls[i].Listing? ==>
      match calls[i].purpose
      case Periodic =>
        LookupDue(calls[i].round, c.cfg.lookupInterval)
        && OutcomeAt(c, calls[i].round).StatusOk? && !OutcomeAt(c, calls[i].round).completed
      case Recovery =>
        calls[i].round + 1 >= MaxEmptyPreuploadRetries
        && FailedRounds(c, calls[i].round + 1 - MaxEmptyPreuploadRetries, calls[i].round + 1)
      case Final => c.endTime <= calls[i].at
      case Initial => false
  }

  /** The listings of one round are justified, and the error streak it hands on is accurate. */
  lemma RoundListings(c: PollContext, retries: nat, consecutive: nat, now: int, calls: seq<PollCall>)
    requires retries < c.cfg.maxRetries && now < c.endTime
    requires consecutive <= retries && FailedRounds(c, retries - consecutive, retries)
    ensures match Round(c, retries, consecutive, now, calls)
            case Settle(run) => ListingsJustified(c, run.calls, |calls|)
            case Continue(r, k, _, cs) =>
              ListingsJustified(c, cs, |calls|) && k <= r && FailedRounds(c, r - k, r)
  {
    var step := StepAt(c.script.steps, retries);
    var status := OutcomeAt(c, retries);
    var asked := if Truthy(c.orig) then calls + [StatusQuery(ToText(c.orig), retries, now)] else calls;
    var t1 := now + status.latency;
    assert ListingsJustified(c, asked, |calls|);
    if status.StatusFailed? {
      var errors := consecutive + 1;
      assert FailedRounds(c, retries + 1 - errors, retries + 1);
      if IsPreuploadError(status.message) && errors >= MaxEmptyPreuploadRetries {
        assert FailedRounds(c, retries + 1 - MaxEmptyPreuploadRetries, retries + 1);
        var listed := asked + [Listing(Recovery, retries, t1)];
        assert ListingsJustified(c, listed, |calls|);
      }
    }
  }

  lemma {:induction false} PollLoopListings(c: PollContext, retries: nat, consecutive: nat, now: int, calls: seq<PollCall>)
    requires retries <= c.cfg.maxRetries
    requires consecutive <= retries && FailedRounds(c, retries - consecutive, retries)
    ensures ListingsJustified(c, PollLoop(c, retries, consecutive, now, calls).calls, |calls|)
    decreases c.cfg.maxRetries - retries
  {
    var run := PollLoop(c, retries, consecutive, now, calls);
    if retries < c.cfg.maxRetries && now < c.endTime {
      RoundListings(c, retries, consecutive, now, calls);
      match Round(c, retries, consecutive, now, calls)
      case Settle(_) =>
      case Continue(r, k, t, cs) =>
        PollLoopListings(c, r, k, t, cs);
        JustifiedPrefix(c, run.calls, cs, |calls|);
    }
  }

  /** Justification of the old part and of the new part give justification of the whole. */
  lemma JustifiedPrefix(c: PollContext, whole: seq<PollCall>, prefix: seq<PollCall>, from: nat)
    requires |whole| >= |prefix| && whole[..|prefix|] == prefix
    requires ListingsJustified(c, prefix, from)
    requires ListingsJustified(c, whole, |prefix|)
    ensures ListingsJustified(c, whole, from)
  {
    forall i | from <= i < |prefix|
      ensures whole[i] == prefix[i]
    {
      assert whole[..|prefix|][i] == whole[i];
    }
  }

  /** `consecutive` is exactly the number of failed rounds right before round `retries`. */
  predicate ExactStreak(c: PollContext, retries: nat, consecutive: nat) {
    && consecutive <= retries
    && FailedRounds(c, retries - consecutive, retries)
    && (consecutive < retries ==> OutcomeAt(c, retries - consecutive - 1).StatusOk?)
  }

  /** From round 0, the loop makes every lookup due in the rounds it runs. */
  lemma LoopFromStartMakesDueListings(c: PollContext, now: int, calls: seq<PollCall>)
    ensures DueListingsMade(c, PollLoop(c, 0, 0, now, calls).calls, 0, PollLoop(c, 0, 0, now, calls).rounds)
  {
    NoStreakAtStart(c);
    PollLoopDueListings(c, 0, 0, now, calls);
  }

  /** Polling starts with no failed rounds behind it. */
  lemma NoStreakAtStart(c: PollContext)
    ensures ExactStreak(c, 0, 0) && FailedRounds(c, 0, 0)
  {
  }

  /** The requests include a listing with this purpose made in round `round`. */
  predicate ListsIn(calls: seq<PollCall>, purpose: LookupPurpose, round: nat) {
    exists i :: 0 <= i < |calls| && calls[i].Listing? && calls[i].purpose == purpose && calls[i].round == round
  }

  /** Every lookup the code asks for in rounds `[from, to)` was made: a periodic listing after
      each answered but incomplete status in a round whose number is a multiple of the lookup
      interval, a recovery listing in each round that closes three failed rounds in a row. */
  predicate DueListingsMade(c: PollContext, calls: seq<PollCall>, from: nat, to: nat) {
    forall j: nat :: from <= j < to ==> RoundListingsMade(c, calls, j)
  }

  /** The lookups due in round `j` are among the requests. */
  predicate RoundListingsMade(c: PollContext, calls: seq<PollCall>, j: nat) {
    && (OutcomeAt(c, j).StatusOk? && !OutcomeAt(c, j).completed && LookupDue(j, c.cfg.lookupInterval)
        ==> ListsIn(calls, Periodic, j))
    && (j + 1 >= MaxEmptyPreuploadRetries && FailedRounds(c, j + 1 - MaxEmptyPreuploadRetries, j + 1)
        ==> ListsIn(calls, Recovery, j))
  }

  /** Three failed rounds in a row ending with round `retries` mean the streak handed to that
      round was at least two long. */
  lemma StreakReachesRecovery(c: PollContext, retries: nat, consecutive: nat)
    requires ExactStreak(c, retries, consecutive)
    requires retries + 1 >= MaxEmptyPreuploadRetries
    requires FailedRounds(c, retries + 1 - MaxEmptyPreuploadRetries, retries + 1)
    ensures consecutive + 1 >= MaxEmptyPreuploadRetries
  {
  }

  /** A round hands on the exact error streak: reset by an answered status request, one longer
      after a failed one. */
  lemma RoundKeepsStreak(c: PollContext, retries: nat, consecutive: nat, now: int, calls: seq<PollCall>)
    requires retries < c.cfg.maxRetries && now < c.endTime
    requires ExactStreak(c, retries, consecutive)
    ensures var e := Round(c, retries, consecutive, now, calls);
            e.Continue? ==> ExactStreak(c, e.retries, e.consecutive)
  {
    if OutcomeAt(c, retries).StatusFailed? {
      EveryStatusErrorIsPreuploadError(c.orig, StepAt(c.script.steps, retries).status);
    }
  }

  /** A round with an incomplete status reply whose number is a multiple of the lookup
      interval lists the directory. */
  lemma RoundMakesPeriodicListing(c: PollContext, retries: nat, consecutive: nat, now: int, calls: seq<PollCall>)
    requires retries < c.cfg.maxRetries && now < c.endTime
    requires OutcomeAt(c, retries).StatusOk? && !OutcomeAt(c, retries).completed
    requires LookupDue(retries, c.cfg.lookupInterval)
    ensures ListsIn(CallsOf(Round(c, retries, consecutive, now, calls)), Periodic, retries)
  {
    var cs := CallsOf(Round(c, retries, consecutive, now, calls));
    PeriodicLookupMade(c, retries, consecutive, now, calls);
    assert cs[|cs| - 1].Listing?;
  }

  /** A round that closes three failed rounds in a row makes a recovery listing. */
  lemma RoundMakesRecoveryListing(c: PollContext, retries: nat, consecutive: nat, now: int, calls: seq<PollCall>)
    requires retries < c.cfg.maxRetries && now < c.endTime
    requires ExactStreak(c, retries, consecutive)
    requires retries + 1 >= MaxEmptyPreuploadRetries
    requires FailedRounds(c, retries + 1 - MaxEmptyPreuploadRetries, retries + 1)
    ensures ListsIn(CallsOf(Round(c, retries, consecutive, now, calls)), Recovery, retries)
  {
    var cs := CallsOf(Round(c, retries, consecutive, now, calls));
    StreakReachesRecovery(c, retries, consecutive);
    RecoveryLookupMade(c, retries, consecutive, now, calls);
    assert cs[|cs| - 1].Listing?;
  }

  /** One round makes the lookups due in it. */
  lemma RoundDueListings(c: PollContext, retries: nat, consecutive: nat, now: int, calls: seq<PollCall>)
    requires retries < c.cfg.maxRetries && now < c.endTime
    requires ExactStreak(c, retries, consecutive)
    ensures RoundListingsMade(c, CallsOf(Round(c, retries, consecutive, now, calls)), retries)
  {
    var s := OutcomeAt(c, retries);
    if s.StatusOk? && !s.completed && LookupDue(retries, c.cfg.lookupInterval) {
      RoundMakesPeriodicListing(c, retries, consecutive, now, calls);
    }
    if retries + 1 >= MaxEmptyPreuploadRetries && FailedRounds(c, retries + 1 - MaxEmptyPreuploadRetries, retries + 1) {
      RoundMakesRecoveryListing(c, retries, consecutive, now, calls);
    }
  }

  /** A listing among the first requests is still among them after more are appended. */
  lemma ListsInPrefix(whole: seq<PollCall>, prefix: seq<PollCall>, purpose: LookupPurpose, round: nat)
    requires |whole| >= |prefix| && whole[..|prefix|] == prefix
    requires ListsIn(prefix, purpose, round)
    ensures ListsIn(whole, purpose, round)
  {
    var i :| 0 <= i < |prefix| && prefix[i].Listing? && prefix[i].purpose == purpose && prefix[i].round == round;
    assert whole[..|prefix|][i] == whole[i];
  }

  /** The due lookups of round `j`, made by the first requests, and those of rounds
      `[j + 1, to)` give those of rounds `[j, to)`. */
  lemma DueListingsStep(c: PollContext, whole: seq<PollCall>, prefix: seq<PollCall>, j: nat, to: nat)
    requires |whole| >= |prefix| && whole[..|prefix|] == prefix
    requires RoundListingsMade(c, prefix, j)
    requires DueListingsMade(c, whole, j + 1, to)
    ensures DueListingsMade(c, whole, j, to)
  {
    if ListsIn(prefix, Periodic, j) {
      ListsInPrefix(whole, prefix, Periodic, j);
    }
    if ListsIn(prefix, Recovery, j) {
      ListsInPrefix(whole, prefix, Recovery, j);
    }
    assert RoundListingsMade(c, whole, j);
  }

  lemma {:induction false} PollLoopDueListings(c: PollContext, retries: nat, consecutive: nat, now: int, calls: seq<PollCall>)
    requires retries <= c.cfg.maxRetries
    requires ExactStreak(c, retries, consecutive)
    ensures var run := PollLoop(c, retries, consecutive, now, calls);
            DueListingsMade(c, run.calls, retries, run.rounds)
    decreases c.cfg.maxRetries - retries
  {
    var run := PollLoop(c, retries, consecutive, now, calls);
    if retries < c.cfg.maxRetries && now < c.endTime {
      RoundDueListings(c, retries, consecutive, now, calls);
      RoundKeepsStreak(c, retries, consecutive, now, calls);
      match Round(c, retries, consecutive, now, calls)
      case Settle(_) =>
        DueListingsStep(c, run.calls, run.calls, retries, retries + 1);
      case Continue(r, k, t, cs) =>
        PollLoopDueListings(c, r, k, t, cs);
        DueListingsStep(c, run.calls, cs, retries, run.rounds);
    } else {
      assert run.rounds == retries;
    }
  }

  /** Polling that finds nothing in the initial listing runs the loop from round 0, with no
      errors behind it and the initial listing as its only earlier request. */
  lemma PollingStartsLoop(cfg: PollConfig, orig: JsId, completeFileID: JsId, name: string,
                          script: PollScript, start: int)
    requires Lookup(script.initial, name).None?
    ensures var c := PollContext(cfg, orig, completeFileID, name, script, start + cfg.totalTimeoutMs);
            HandleAsyncPolling(cfg, orig, completeFileID, name, script, start)
              == PollLoop(c, 0, 0, start + script.initial.latency, [Listing(Initial, 0, start)])
  {
  }

  /** Every listing of a whole polling run after the initial one is one the code asks for. */
  lemma PollListingsJustified(cfg: PollConfig, orig: JsId, completeFileID: JsId, name: string,
                              script: PollScript, start: int)
    ensures ListingsJustified(PollContext(cfg, orig, completeFileID, name, script, start + cfg.totalTimeoutMs),
                              HandleAsyncPolling(cfg, orig, completeFileID, name, script, start).calls, 1)
  {
    var c := PollContext(cfg, orig, completeFileID, name, script, start + cfg.totalTimeoutMs);
    if Lookup(script.initial, name).None? {
      var calls := [Listing(Initial, 0, start)];
      var loop := PollLoop(c, 0, 0, start + script.initial.latency, calls);
      assert ListingsJustified(c, loop.calls, 1) by {
        NoStreakAtStart(c);
        PollLoopListings(c, 0, 0, start + script.initial.latency, calls);
      }
      PollingStartsLoop(cfg, orig, completeFileID, name, script, start);
    }
  }

  /** Every lookup due in the rounds of a whole polling run is made; with
      `PollListingsJustified`, the run lists the directory exactly when the code says so. */
  lemma DueListingsHappen(cfg: PollConfig, orig: JsId, completeFileID: JsId, name: string,
                          script: PollScript, start: int)
    ensures DueListingsMade(PollContext(cfg, orig, completeFileID, name, script, start + cfg.totalTimeoutMs),
                            HandleAsyncPolling(cfg, orig, completeFileID, name, script, start).calls, 0,
                            HandleAsyncPolling(cfg, orig, completeFileID, name, script, start).rounds)
  {
    var c := PollContext(cfg, orig, completeFileID, name, script, start + cfg.totalTimeoutMs);
    if Lookup(script.initial, name).None? {
      LoopFromStartMakesDueListings(c, start + script.initial.latency, [Listing(Initial, 0, start)]);
      PollingStartsLoop(cfg, orig, completeFileID, name, script, start);
    }
  }

  /** A successful polling run answers with the reply to its last request: the initial listing,
      a completed status merged over the completion reply, a periodic, recovery or final
      listing, or, after the loop, the completion reply's own identifier. */
  lemma PollingAnswers(cfg: PollConfig, orig: JsId, completeFileID: JsId, name: string,
                       script: PollScript, start: int)
    ensures AnsweredByLastReply(PollContext(cfg, orig, completeFileID, name, script, start + cfg.totalTimeoutMs),
                                HandleAsyncPolling(cfg, orig, completeFileID, name, script, start))
  {
    var c := PollContext(cfg, orig, completeFileID, name, script, start + cfg.totalTimeoutMs);
    if Lookup(script.initial, name).None? {
      PollLoopAnswers(c, 0, 0, start + script.initial.latency, [Listing(Initial, 0, start)]);
      PollingStartsLoop(cfg, orig, completeFileID, name, script, start);
    }
  }

  /** The last request is the final listing. */
  predicate EndsWithFinalListing(calls: seq<PollCall>) {
    |calls| > 0 && LastCall(calls).Listing? && LastCall(calls).purpose == Final
  }

  /** The final listing decides the runs that reach it: it is made only at or past the deadline,
      in the round the loop stopped at, as the last request; a name hit there is the answer and a
      miss is `TimedOut`, and `TimedOut` arises no other way. A run that gives up for want of
      rounds ends before the deadline (src/index.js:1090-1120). */
  predicate FinalLookupDecides(c: PollContext, run: PollRun) {
    && (run.result == PollErr(TimedOut) ==> EndsWithFinalListing(run.calls))
    && (EndsWithFinalListing(run.calls) ==>
          && c.endTime <= LastCall(run.calls).at && LastCall(run.calls).round == run.rounds
          && run.finish == LastCall(run.calls).at + c.script.final.latency
          && (Lookup(c.script.final, c.name).Some? ==> run.result == PollOk(Lookup(c.script.final, c.name).value, FromListing))
          && (Lookup(c.script.final, c.name).None? ==> run.result == PollErr(TimedOut)))
    && ((run.result == PollErr(NotCompleted) || (run.result.PollOk? && run.result.source == FromCompleteResponse))
          ==> run.finish < c.endTime)
  }


  /** A loop that stops at or past the deadline makes the final listing, and its reply decides
      the run (src/index.js:1090-1113). */
  lemma FinalLookupOnTimeout(c: PollContext, rounds: nat, now: int, calls: seq<PollCall>)
    requires now >= c.endTime
    ensures var run := AfterLoop(c, rounds, now, calls);
            && run.calls == calls + [Listing(Final, rounds, now)]
            && FinalLookupDecides(c, run)
  {
  }

  /** A loop that stops before the deadline makes no further request (src/index.js:1116-1120). */
  lemma NoFinalLookupInTime(c: PollContext, rounds: nat, now: int, calls: seq<PollCall>)
    requires now < c.endTime
    ensures var run := AfterLoop(c, rounds, now, calls);
            run.calls == calls && run.finish == now
  {
  }

  /** No round makes the final listing or fails with an error other than `RecoveryExhausted`. */
  lemma RoundFinalLookup(c: PollContext, retries: nat, consecutive: nat, now: int, calls: seq<PollCall>)
    requires retries < c.cfg.maxRetries && now < c.endTime
    requires !EndsWithFinalListing(calls)
    ensures var e := Round(c, retries, consecutive, now, calls);
            && (e.Settle? ==> FinalLookupDecides(c, e.run))
            && (e.Continue? ==> !EndsWithFinalListing(e.calls))
  {
  }

  lemma {:induction false} PollLoopFinalLookup(c: PollContext, retries: nat, consecutive: nat, now: int, calls: seq<PollCall>)
    requires retries <= c.cfg.maxRetries
    requires !EndsWithFinalListing(calls)
    ensures FinalLookupDecides(c, PollLoop(c, retries, consecutive, now, calls))
    decreases c.cfg.maxRetries - retries
  {
    if !(retries < c.cfg.maxRetries && now < c.endTime) {
      if now >= c.endTime {
        FinalLookupOnTimeout(c, retries, now, calls);
      } else {
        NoFinalLookupInTime(c, retries, now, calls);
      }
    } else {
      RoundFinalLookup(c, retries, consecutive, now, calls);
      match Round(c, retries, consecutive, now, calls)
      case Settle(_) =>
      case Continue(r, k, t, cs) =>
        PollLoopFinalLookup(c, r, k, t, cs);
    }
  }

  /** The final listing decides every polling run that reaches it, and only those time out. */
  lemma PollingFinalLookup(cfg: PollConfig, orig: JsId, completeFileID: JsId, name: string,
                           script: PollScript, start: int)
    ensures FinalLookupDecides(PollContext(cfg, orig, completeFileID, name, script, start + cfg.totalTimeoutMs),
                               HandleAsyncPolling(cfg, orig, completeFileID, name, script, start))
  {
    var c := PollContext(cfg, orig, completeFileID, name, script, start + cfg.totalTimeoutMs);
    var run := HandleAsyncPolling(cfg, orig, completeFileID, name, script, start);
    if Lookup(script.initial, name).None? {
      PollingStartsLoop(cfg, orig, completeFileID, name, script, start);
      RunFromStartFinalLookup(c, start + script.initial.latency, start, run);
    } else {
      InitialHitDecides(c, run, start);
    }
  }

  /** A run answered by the initial listing has no final listing to decide it. */
  lemma InitialHitDecides(c: PollContext, run: PollRun, start: int)
    requires run.result.PollOk? && run.result.source == FromListing && run.calls == [Listing(Initial, 0, start)]
    ensures FinalLookupDecides(c, run)
  {
  }

  lemma RunFromStartFinalLookup(c: PollContext, now: int, start: int, run: PollRun)
    requires run == PollLoop(c, 0, 0, now, [Listing(Initial, 0, start)])
    ensures FinalLookupDecides(c, run)
  {
    LoopFromStartFinalLookup(c, now, start);
  }

  /** After the initial listing, the loop's final listing decides the runs that reach it. */
  lemma LoopFromStartFinalLookup(c: PollContext, now: int, start: int)
    ensures FinalLookupDecides(c, PollLoop(c, 0, 0, now, [Listing(Initial, 0, start)]))
  {
    PollLoopFinalLookup(c, 0, 0, now, [Listing(Initial, 0, start)]);
  }

  /** Round `j` ends three failed status requests in a row, and its recovery listing misses. */
  predicate ExhaustingRound(c: PollContext, j: nat) {
    && j + 1 >= MaxEmptyPreuploadRetries
    && FailedRounds(c, j + 1 - MaxEmptyPreuploadRetries, j + 1)
    && Lookup(StepAt(c.script.steps, j).lookup, c.name).None?
  }

  /** Three failed rounds in a row ending with round `retries` are what a streak of at least two
      before it means. */
  lemma StreakMeansFailedRounds(c: PollContext, retries: nat, consecutive: nat)
    requires ExactStreak(c, retries, consecutive)
    requires OutcomeAt(c, retries).StatusFailed? && consecutive + 1 >= MaxEmptyPreuploadRetries
    ensures retries + 1 >= MaxEmptyPreuploadRetries
    ensures FailedRounds(c, retries + 1 - MaxEmptyPreuploadRetries, retries + 1)
  {
  }

  /** A round gives up with `RecoveryExhausted` exactly when it is the last round allowed and
      its recovery listing misses (src/index.js:1032-1056). */
  lemma RoundExhaustion(c: PollContext, retries: nat, consecutive: nat, now: int, calls: seq<PollCall>)
    requires retries < c.cfg.maxRetries && now < c.endTime
    requires ExactStreak(c, retries, consecutive)
    ensures var e := Round(c, retries, consecutive, now, calls);
            (e.Settle? && e.run.result == PollErr(RecoveryExhausted))
              <==> retries + 1 == c.cfg.maxRetries && ExhaustingRound(c, retries)
  {
    if OutcomeAt(c, retries).StatusFailed? {
      EveryStatusErrorIsPreuploadError(c.orig, StepAt(c.script.steps, retries).status);
      if consecutive + 1 >= MaxEmptyPreuploadRetries {
        StreakMeansFailedRounds(c, retries, consecutive);
      } else if retries + 1 >= MaxEmptyPreuploadRetries
                && FailedRounds(c, retries + 1 - MaxEmptyPreuploadRetries, retries + 1) {
        StreakReachesRecovery(c, retries, consecutive);
      }
    }
  }

  lemma {:induction false} PollLoopExhaustion(c: PollContext, retries: nat, consecutive: nat, now: int, calls: seq<PollCall>)
    requires retries <= c.cfg.maxRetries
    requires ExactStreak(c, retries, consecutive)
    ensures ExhaustionDecided(c, PollLoop(c, retries, consecutive, now, calls), retries)
    decreases c.cfg.maxRetries - retries
  {
    var run := PollLoop(c, retries, consecutive, now, calls);
    if retries < c.cfg.maxRetries && now < c.endTime {
      var e := Round(c, retries, consecutive, now, calls);
      RoundExhaustion(c, retries, consecutive, now, calls);
      if e.Settle? {
        assert run == e.run && run.rounds == retries + 1;
      } else {
        RoundKeepsStreak(c, retries, consecutive, now, calls);
        PollLoopExhaustion(c, e.retries, e.consecutive, e.now, e.calls);
        assert run == PollLoop(c, e.retries, e.consecutive, e.now, e.calls);
        ExhaustionCarries(c, retries, run);
      }
    } else {
      assert run == AfterLoop(c, retries, now, calls);
    }
  }

  /** A round that goes on past the last allowed round was not an exhausting one, so the
      answer of the rounds after it decides as well from one round earlier. */
  lemma ExhaustionCarries(c: PollContext, retries: nat, run: PollRun)
    requires run.rounds >= retries + 1
    requires retries + 1 == c.cfg.maxRetries ==> !ExhaustingRound(c, retries)
    requires ExhaustionDecided(c, run, retries + 1)
    ensures ExhaustionDecided(c, run, retries)
  {
  }

  /** A run that began at round `from` gives up with `RecoveryExhausted` exactly when it ran
      a round and its last round, the last one allowed, is exhausting. */
  predicate ExhaustionDecided(c: PollContext, run: PollRun, from: nat) {
    (run.result == PollErr(RecoveryExhausted))
      <==> (from < run.rounds == c.cfg.maxRetries && ExhaustingRound(c, run.rounds - 1))
  }

  /** From round 0, the loop gives up with `RecoveryExhausted` exactly when its last allowed
      round is an exhausting one. */
  lemma LoopFromStartExhaustion(c: PollContext, now: int, calls: seq<PollCall>)
    ensures ExhaustionDecided(c, PollLoop(c, 0, 0, now, calls), 0)
  {
    NoStreakAtStart(c);
    PollLoopExhaustion(c, 0, 0, now, calls);
  }

  /** A polling run gives up with `RecoveryExhausted` exactly when its last allowed round closes
      three failed rounds in a row with a listing that misses; so a run that falls back on the
      completion reply's identifier never had such a last round. */
  lemma PollingExhaustion(cfg: PollConfig, orig: JsId, completeFileID: JsId, name: string,
                          script: PollScript, start: int)
    ensures ExhaustionDecided(PollContext(cfg, orig, completeFileID, name, script, start + cfg.totalTimeoutMs),
                              HandleAsyncPolling(cfg, orig, completeFileID, name, script, start), 0)
  {
    var c := PollContext(cfg, orig, completeFileID, name, script, start + cfg.totalTimeoutMs);
    if Lookup(script.initial, name).None? {
      LoopFromStartExhaustion(c, start + script.initial.latency, [Listing(Initial, 0, start)]);
      PollingStartsLoop(cfg, orig, completeFileID, name, script, start);
    }
  }

  /** Falling back on the completion reply's identifier means the loop ran out of rounds. */
  predicate FallbackUsedAllRounds(cfg: PollConfig, run: PollRun) {
    run.result.PollOk? && run.result.source == FromCompleteResponse ==> run.rounds == cfg.maxRetries
  }

  lemma LoopFromStartFallback(c: PollContext, now: int, calls: seq<PollCall>)
    ensures FallbackUsedAllRounds(c.cfg, PollLoop(c, 0, 0, now, calls))
  {
  }

  /** A polling run that answers with the completion reply's own identifier ran every round
      allowed, and its last round was not one that gives up with `RecoveryExhausted`
      (src/index.js:1053-1055, 1115-1120). */
  lemma FallbackRulesOutExhaustion(cfg: PollConfig, orig: JsId, completeFileID: JsId, name: string,
                                   script: PollScript, start: int)
    ensures var c := PollContext(cfg, orig, completeFileID, name, script, start + cfg.totalTimeoutMs);
            var run := HandleAsyncPolling(cfg, orig, completeFileID, name, script, start);
            run.result.PollOk? && run.result.source == FromCompleteResponse ==>
              && run.rounds == cfg.maxRetries
              && (cfg.maxRetries > 0 ==> !ExhaustingRound(c, cfg.maxRetries - 1))
  {
    var c := PollContext(cfg, orig, completeFileID, name, script, start + cfg.totalTimeoutMs);
    var run := HandleAsyncPolling(cfg, orig, completeFileID, name, script, start);
    PollingExhaustion(cfg, orig, completeFileID, name, script, start);
    assert FallbackUsedAllRounds(cfg, run) by {
      if Lookup(script.initial, name).None? {
        LoopFromStartFallback(c, start + script.initial.latency, [Listing(Initial, 0, start)]);
        PollingStartsLoop(cfg, orig, completeFileID, name, script, start);
      }
    }
    FallbackExcludes(c, run);
  }

  /** The two whole-run facts together rule the exhausting last round out. */
  lemma FallbackExcludes(c: PollContext, run: PollRun)
    requires ExhaustionDecided(c, run, 0) && FallbackUsedAllRounds(c.cfg, run)
    ensures run.result.PollOk? && run.result.source == FromCompleteResponse ==>
              && run.rounds == c.cfg.maxRetries
              && (c.cfg.maxRetries > 0 ==> !ExhaustingRound(c, c.cfg.maxRetries - 1))
  {
  }

  /** A falsy completion identifier never reaches the server: no status query is sent and no
      result is taken from a status reply. */
  lemma EmptyIdentifierNeverQueried(cfg: PollConfig, orig: JsId, completeFileID: JsId, name: string,
                                    script: PollScript, start: int)
    requires !Truthy(orig)
    ensures var run := HandleAsyncPolling(cfg, orig, completeFileID, name, script, start);
            && (forall i :: 0 <= i < |run.calls| ==> !run.calls[i].StatusQuery?)
            && !(run.result.PollOk? && run.result.source == FromStatus)
  {
  }

  /** An example run: the status endpoint keeps rejecting the identifier; the third failure in
      a row triggers a listing that finds the file, and its identifier is the answer. */
  lemma ExampleRecoveryByListing()
    ensures var failing := StatusFailed("API Error", 100);
            var empty := ListReply([], 50);
            var found := ListReply([Entry("a.png", Number(42), 0)], 50);
            var script := PollScript(empty, [PollStep(failing, empty), PollStep(failing, empty), PollStep(failing, found)], empty);
            var run := HandleAsyncPolling(DefaultStrategy, Text("p1"), Absent, "a.png", script, 0);
            && run.result == PollOk(Number(42), FromListing)
            && run.rounds == 3
            && |run.calls| == 5
            && run.calls[4] == Listing(Recovery, 2, 10350)
            && run.finish == 10400
  {
    var failing := StatusFailed("API Error", 100);
    var empty := ListReply([], 50);
    var found := ListReply([Entry("a.png", Number(42), 0)], 50);
    var script := PollScript(empty, [PollStep(failing, empty), PollStep(failing, empty), PollStep(failing, found)], empty);
    var c := PollContext(DefaultStrategy, Text("p1"), Absent, "a.png", script, 60000);
    EveryStatusErrorIsPreuploadError(Text("p1"), failing);
    assert Lookup(found, "a.png") == Some(Number(42));
    assert Lookup(empty, "a.png") == None;
    var q := StatusQuery(ToText(Text("p1")), 0, 50);
    var calls1 := [Listing(Initial, 0, 0), q];
    assert Round(c, 0, 0, 50, [Listing(Initial, 0, 0)]) == Continue(1, 1, 4150, calls1);
    var calls2 := calls1 + [StatusQuery(ToText(Text("p1")), 1, 4150)];
    assert Round(c, 1, 1, 4150, calls1) == Continue(2, 2, 10250, calls2);
    RecoveryLookupMade(c, 2, 2, 10250, calls2);
  }

  /** An example run: the first status reply is not complete, so round 0 also lists the
      directory; the second reply completes with identifier `F2`, which is the answer. */
  lemma ExampleCompletionOnSecondPoll()
    ensures var empty := ListReply([], 50);
            var pending := StatusOk(false, Absent, 100);
            var done := StatusOk(true, Text("F2"), 100);
            var script := PollScript(empty, [PollStep(pending, empty), PollStep(done, empty)], empty);
            var run := HandleAsyncPolling(DefaultStrategy, Text("p1"), Absent, "a.png", script, 0);
            && run.result == PollOk(Text("F2"), FromStatus)
            && run.rounds == 2
            && run.calls == [Listing(Initial, 0, 0), StatusQuery("p1", 0, 50), Listing(Periodic, 0, 150),
                             StatusQuery("p1", 1, 1800)]
            && run.finish == 1900
  {
    var empty := ListReply([], 50);
    var pending := StatusOk(false, Absent, 100);
    var done := StatusOk(true, Text("F2"), 100);
    var script := PollScript(empty, [PollStep(pending, empty), PollStep(done, empty)], empty);
    var c := PollContext(DefaultStrategy, Text("p1"), Absent, "a.png", script, 60000);
    assert Lookup(empty, "a.png") == None;
    var calls1 := [Listing(Initial, 0, 0), StatusQuery("p1", 0, 50), Listing(Periodic, 0, 150)];
    assert Round(c, 0, 0, 50, [Listing(Initial, 0, 0)]) == Continue(1, 0, 1800, calls1);
    CompletedStatusSettles(c, 1, 0, 1800, calls1);
  }
}
