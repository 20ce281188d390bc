/** Run preamble of `handleUpload`: the "first upload this session" heuristic
    (src/index.js:432-458) and the cached-token freshness check (src/index.js:472-502),
    plus the laxer check `handleRemove` uses (src/index.js:1160-1167). Time is an integer
    number of milliseconds; the clock reading is a parameter. */
module Session {
  import opened JsValues

  const FiveMinutesMs: int := 5 * 60 * 1000

  /** The persisted `expiredAt` field: missing (or empty), `null`, a parsable date, or a
      string `new Date` turns into an invalid date. `new Date(null)` is the epoch, while a
      missing or empty field gives an invalid date. */
  datatype Expiry = NoExpiry | NullExpiry | ExpiresAt(ms: int) | Unparseable

  datatype Credential = Credential(accessToken: string, expiredAt: Expiry)

  datatype TokenDecision = UseCached(token: string) | FetchNew

  /** Cached credential after the five-minute buffer check (src/index.js:477-491). An invalid
      date compares false against the clock, so such a credential is never dropped here. */
  function AfterExpiryCheck(cached: Option<Credential>, now: int): Option<Credential> {
    match cached
    case None => None
    case Some(c) =>
      if c.expiredAt.ExpiresAt? && c.expiredAt.ms - FiveMinutesMs <= now then None else cached
  }

  /** Whether `handleUpload` reuses the cached token or asks for a new one (src/index.js:477-500). */
  function UploadTokenDecision(cached: Option<Credential>, now: int): (d: TokenDecision)
    ensures d.UseCached? ==> cached.Some? && d.token == cached.value.accessToken
    ensures d.UseCached? <==>
              && cached.Some? && cached.value.accessToken != ""
              && (cached.value.expiredAt.ExpiresAt? ==> cached.value.expiredAt.ms - now > FiveMinutesMs)
  {
    match AfterExpiryCheck(cached, now)
    case None => FetchNew
    case Some(c) => if c.accessToken == "" then FetchNew else UseCached(c.accessToken)
  }

  /** The instant `new Date(expiredAt)` denotes, or `None` for an invalid date. */
  function DateOf(e: Expiry): Option<int> {
    match e
    case NoExpiry => None
    case NullExpiry => Some(0)
    case ExpiresAt(ms) => Some(ms)
    case Unparseable => None
  }

  /** `handleRemove` refreshes only once the expiry itself has passed (src/index.js:1161). An
      invalid date compares false, so such a token is kept; a `null` expiry is the epoch. */
  function RemoveTokenDecision(cached: Option<Credential>, now: int): (d: TokenDecision)
    ensures d.UseCached? ==> cached.Some? && d.token == cached.value.accessToken
    ensures d.FetchNew? <==>
              || cached.None? || cached.value.accessToken == ""
              || (cached.value.expiredAt.ExpiresAt? && cached.value.expiredAt.ms <= now)
              || (cached.value.expiredAt.NullExpiry? && 0 <= now)
  {
    match cached
    case None => FetchNew
    case Some(c) =>
      var expiry := DateOf(c.expiredAt);
      if c.accessToken == "" || (expiry.Some? && expiry.value <= now) then FetchNew
      else UseCached(c.accessToken)
  }

  /** A token fresh enough now was fresh enough at every earlier instant. */
  lemma FreshnessIsMonotone(cached: Option<Credential>, earlier: int, now: int)
    requires earlier <= now
    requires UploadTokenDecision(cached, now).UseCached?
    ensures UploadTokenDecision(cached, earlier) == UploadTokenDecision(cached, now)
  {
  }

  /** For a token with a date or without one, the upload check is the stricter one: a token it
      keeps, deletion keeps too. */
  lemma UploadCheckImpliesRemoveCheck(cached: Option<Credential>, now: int)
    requires UploadTokenDecision(cached, now).UseCached?
    requires !cached.value.expiredAt.NullExpiry?
    ensures RemoveTokenDecision(cached, now) == UploadTokenDecision(cached, now)
  {
  }

  /** A `null` expiry is the one case where the two checks disagree the other way: the upload
      path skips its check for the falsy field, while deletion reads it as the epoch and
      refreshes. */
  lemma NullExpiryOnlyUploadReuses(token: string, now: int)
    requires token != "" && now >= 0
    ensures UploadTokenDecision(Some(Credential(token, NullExpiry)), now) == UseCached(token)
    ensures RemoveTokenDecision(Some(Credential(token, NullExpiry)), now) == FetchNew
  {
  }

  /** Reply of the access-token endpoint (src/index.js:53-83). */
  datatype FetchReply = Issued(credential: Credential) | FetchFailed(message: string)

  datatype TokenError = MissingClientCredentials | AuthenticationFailed(message: string)

  /** The token a run uses, and the credential it saves when it fetched a new one. */
  datatype TokenOutcome = TokenReady(token: string, saved: Option<Credential>) | TokenFailed(error: TokenError)

  /** Token acquisition of `handleUpload`: reuse, or fetch with the configured client
      identifier and secret; a failure aborts the run (src/index.js:472-502, 53-83). */
  function AcquireToken(cached: Option<Credential>, now: int, configured: bool, fetch: FetchReply): (r: TokenOutcome)
    ensures r.TokenReady? && r.saved.None? ==> UploadTokenDecision(cached, now) == UseCached(r.token)
    ensures r.TokenReady? && r.saved.Some? ==>
              && configured && fetch == Issued(r.saved.value) && r.token == fetch.credential.accessToken
    ensures UploadTokenDecision(cached, now).FetchNew? && !configured ==> r == TokenFailed(MissingClientCredentials)
    ensures r.TokenFailed? ==> UploadTokenDecision(cached, now).FetchNew?
    ensures UploadTokenDecision(cached, now).UseCached? ==> r == TokenReady(UploadTokenDecision(cached, now).token, None)
    ensures UploadTokenDecision(cached, now).FetchNew? && configured && fetch.Issued? ==>
              r == TokenReady(fetch.credential.accessToken, Some(fetch.credential))
    ensures UploadTokenDecision(cached, now).FetchNew? && configured && fetch.FetchFailed? ==>
              r == TokenFailed(AuthenticationFailed(fetch.message))
  {
    match UploadTokenDecision(cached, now)
    case UseCached(t) => TokenReady(t, None)
    case FetchNew =>
      if !configured then TokenFailed(MissingClientCredentials)
      else match fetch
        case Issued(c) => TokenReady(c.accessToken, Some(c))
        case FetchFailed(m) => TokenFailed(AuthenticationFailed(m))
  }

  /** The persisted upload-state record: unreadable, never written, or a last upload time. */
  datatype UploadHistory = HistoryUnreadable | NeverUploaded | LastUploadAt(ms: int) | LastUploadUnparseable

  /** `isFirstUploadThisSession` (src/index.js:429-458): no record, an unreadable record, or a
      last upload more than five minutes ago. */
  function FirstUploadThisSession(history: UploadHistory, now: int): (first: bool)
    ensures history.LastUploadAt? ==> (first <==> now - history.ms > FiveMinutesMs)
    ensures history.NeverUploaded? || history.HistoryUnreadable? ==> first
    ensures history.LastUploadUnparseable? ==> !first
  {
    match history
    case HistoryUnreadable => true
    case NeverUploaded => true
    case LastUploadAt(ms) => ms < now - FiveMinutesMs
    case LastUploadUnparseable => false
  }
}
