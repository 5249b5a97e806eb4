/**
 * Token expiry arithmetic: `isTokenExpired`, `getTokenTimeLeft` and `isAuthenticated`.
 * The expiry is the stored text (an ISO-8601 date in practice); turning it into milliseconds
 * (`new Date(text).getTime()`) is a library call, so it is a parameter `dateOf`, whose `None`
 * stands for NaN, the value an unreadable date gives. The clock (`Date.now()`) is the parameter `now`.
 */
module Expiry {
  import opened Wrappers
  import opened JsValues

  /** `new Date(text).getTime()`: milliseconds since the epoch, or `None` for NaN. */
  type DateParser = string -> Option<int>

  /** The default look-ahead of `isTokenExpired`, in seconds (five minutes). */
  const DefaultBufferSeconds: int := 300

  /** A JavaScript number as far as `getTokenTimeLeft` can produce one. */
  datatype Number = Finite(value: int) | NaN

  /**
   * `isTokenExpired(bufferSeconds)`: a missing or empty expiry counts as expired; otherwise the
   * token is expired from `bufferSeconds` seconds before its expiry on. An unreadable date
   * compares false with everything (`now >= NaN`), so it never counts as expired.
   */
  predicate IsTokenExpired(expiresAt: Option<string>, dateOf: DateParser, now: int, bufferSeconds: int)
    ensures !Truthy(expiresAt) ==> IsTokenExpired(expiresAt, dateOf, now, bufferSeconds)
    ensures Truthy(expiresAt) && dateOf(expiresAt.value).None? ==> !IsTokenExpired(expiresAt, dateOf, now, bufferSeconds)
  {
    if !Truthy(expiresAt) then true
    else
      match dateOf(expiresAt.value)
      case Some(expiresTime) => now >= expiresTime - bufferSeconds * 1000
      case None => false
  }

  /**
   * `getTokenTimeLeft()`: whole seconds until expiry, never negative; 0 without an expiry.
   * `Math.floor` of a quotient by the positive 1000 is Dafny's `/` on `int`.
   */
  function TokenTimeLeft(expiresAt: Option<string>, dateOf: DateParser, now: int): (r: Number)
    ensures r.Finite? ==> r.value >= 0
    ensures !Truthy(expiresAt) ==> r == Finite(0)
    ensures r.NaN? <==> Truthy(expiresAt) && dateOf(expiresAt.value).None?
    ensures Truthy(expiresAt) && dateOf(expiresAt.value).Some? ==>
      var left := dateOf(expiresAt.value).value - now;
      r.Finite? && (r.value == 0 <==> left < 1000) &&
      (left >= 0 ==> r.value * 1000 <= left < r.value * 1000 + 1000)
  {
    if !Truthy(expiresAt) then Finite(0)
    else
      match dateOf(expiresAt.value)
      case Some(expiresTime) =>
        var seconds := (expiresTime - now) / 1000;
        Finite(if seconds < 0 then 0 else seconds)
      case None => NaN
  }

  /** `isAuthenticated()`: a truthy token that is not expired under the default buffer. */
  predicate IsAuthenticated(token: Option<string>, expiresAt: Option<string>, dateOf: DateParser, now: int)
    ensures IsAuthenticated(token, expiresAt, dateOf, now) ==> Truthy(token) && Truthy(expiresAt)
  {
    Truthy(token) && !IsTokenExpired(expiresAt, dateOf, now, DefaultBufferSeconds)
  }

  /** What `isTokenExpired` decides, case by case. */
  lemma ExpiredCases(expiresAt: Option<string>, dateOf: DateParser, now: int, bufferSeconds: int)
    ensures !Truthy(expiresAt) ==> IsTokenExpired(expiresAt, dateOf, now, bufferSeconds)
    ensures Truthy(expiresAt) && dateOf(expiresAt.value).Some? ==>
      (IsTokenExpired(expiresAt, dateOf, now, bufferSeconds) <==>
       now >= dateOf(expiresAt.value).value - bufferSeconds * 1000)
    ensures Truthy(expiresAt) && dateOf(expiresAt.value).None? ==>
      !IsTokenExpired(expiresAt, dateOf, now, bufferSeconds)
  {
  }

  /** Once expired, a token stays expired at every later time and under every larger buffer. */
  lemma ExpiredMonotone(expiresAt: Option<string>, dateOf: DateParser, now: int, later: int,
                        bufferSeconds: int, largerBuffer: int)
    requires now <= later && bufferSeconds <= largerBuffer
    requires IsTokenExpired(expiresAt, dateOf, now, bufferSeconds)
    ensures IsTokenExpired(expiresAt, dateOf, later, largerBuffer)
  {
  }

  /** `isAuthenticated()` holds exactly for a truthy token with a truthy expiry that is unreadable or more than 300 s away. */
  lemma AuthenticatedIff(token: Option<string>, expiresAt: Option<string>, dateOf: DateParser, now: int)
    ensures IsAuthenticated(token, expiresAt, dateOf, now) <==>
      Truthy(token) && Truthy(expiresAt) &&
      (dateOf(expiresAt.value).None? || now < dateOf(expiresAt.value).value - 300000)
  {
  }

  /** A token held without an expiry never counts as authenticated. */
  lemma NoExpiryNeverAuthenticated(token: Option<string>, dateOf: DateParser, now: int)
    ensures !IsAuthenticated(token, None, dateOf, now)
    ensures !IsAuthenticated(token, Some(""), dateOf, now)
  {
  }

  /** Once not authenticated, the same session stays unauthenticated at every later time. */
  lemma UnauthenticatedStays(token: Option<string>, expiresAt: Option<string>, dateOf: DateParser,
                             now: int, later: int)
    requires now <= later
    requires !IsAuthenticated(token, expiresAt, dateOf, now)
    ensures !IsAuthenticated(token, expiresAt, dateOf, later)
  {
    if Truthy(token) {
      ExpiredMonotone(expiresAt, dateOf, now, later, DefaultBufferSeconds, DefaultBufferSeconds);
    }
  }

  /** An expiry 60 s away is inside the buffer and counts as expired; one an hour away does not. */
  lemma BufferExamples(token: string, expiresAt: string, dateOf: DateParser, now: int)
    requires token != "" && expiresAt != ""
    ensures dateOf(expiresAt) == Some(now + 60000) ==> !IsAuthenticated(Some(token), Some(expiresAt), dateOf, now)
    ensures dateOf(expiresAt) == Some(now + 3600000) ==> IsAuthenticated(Some(token), Some(expiresAt), dateOf, now)
  {
  }

  /** At and after the expiry instant the time left is 0; it is 0 already in the last second. */
  lemma TimeLeftAtExpiry(expiresAt: string, dateOf: DateParser, now: int)
    requires expiresAt != "" && dateOf(expiresAt).Some?
    ensures now >= dateOf(expiresAt).value - 999 ==> TokenTimeLeft(Some(expiresAt), dateOf, now) == Finite(0)
    ensures now < dateOf(expiresAt).value - 999 ==> TokenTimeLeft(Some(expiresAt), dateOf, now).value > 0
  {
  }
}
