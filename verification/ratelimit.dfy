/** The client-side admission controller for calls to the generative backend:
    a daily request cap and a minimum spacing between requests, over a state
    `{lastRequestTime, requestCount, resetTime}` kept in local storage under
    one key. `Date.now()` is the explicit parameter `now` (epoch milliseconds). */
module RateLimit {
  import opened Common
  import Text

  /** Ten requests per minute: one every six seconds. */
  const MinDelayBetweenRequests: int := 6000
  /** Two below the provider's twenty requests per day. */
  const DailyLimit: int := 18
  /** Twenty-four hours in milliseconds. */
  const WindowMillis: int := 24 * 60 * 60 * 1000

  datatype RateLimitState = RateLimitState(lastRequestTime: int, requestCount: int, resetTime: int)

  /** A new window opened at `now`. */
  function FreshState(now: int): RateLimitState
  {
    RateLimitState(0, 0, now + WindowMillis)
  }

  /** The state the controller acts on: the stored state while its window is
      open, else a fresh window opened at `now` (also on the server, where no
      storage exists, and when nothing is stored yet). */
  function GetRateLimitState(slot: Slot<RateLimitState>, now: int): (s: RateLimitState)
    ensures now <= s.resetTime
    ensures (slot.Available? && slot.stored.Some? && now <= slot.stored.value.resetTime)
            ==> s == slot.stored.value
    ensures !(slot.Available? && slot.stored.Some? && now <= slot.stored.value.resetTime)
            ==> s == FreshState(now)
  {
    match slot
    case Available(Some(state)) =>
      if now > state.resetTime then FreshState(now) else state
    case _ => FreshState(now)
  }

  /** Why a request was refused. */
  datatype Reason = DailyLimitReached | TooSoon(seconds: int)

  /** The user-facing wording of a refusal. */
  function ReasonText(reason: Reason): string
  {
    match reason
    case DailyLimitReached =>
      "Daily limit reached (" + Text.IntToString(DailyLimit) + " requests). Please try again later."
    case TooSoon(seconds) =>
      "Please wait " + Text.IntToString(seconds) + " seconds before making another request."
  }

  datatype Decision = Allowed | Denied(waitTime: int, reason: Reason)

  /** `Math.ceil(waitTime / 1000)` for a positive wait: whole seconds, rounded up. */
  function WaitSeconds(waitTime: int): (n: int)
    requires waitTime > 0
    ensures 1 <= n && (n - 1) * 1000 < waitTime <= n * 1000
  {
    (waitTime + 999) / 1000
  }

  /** Admission check: the daily cap is checked before the spacing, and a
      refusal says how long to wait. The check returns only a decision; it
      never writes the slot, so a window rollover it observes is not kept. */
  function CanMakeRequest(slot: Slot<RateLimitState>, now: int): (d: Decision)
    ensures var s := GetRateLimitState(slot, now);
            && (d.Allowed? <==> s.requestCount < DailyLimit && now - s.lastRequestTime >= MinDelayBetweenRequests)
            && (s.requestCount >= DailyLimit ==> d == Denied(s.resetTime - now, DailyLimitReached))
            && (s.requestCount < DailyLimit && now - s.lastRequestTime < MinDelayBetweenRequests ==>
                  && d.Denied? && d.reason.TooSoon?
                  && d.waitTime == MinDelayBetweenRequests - (now - s.lastRequestTime)
                  && (d.reason.seconds - 1) * 1000 < d.waitTime <= d.reason.seconds * 1000)
    ensures d.Denied? ==> d.waitTime >= 0
    ensures d.Denied? && d.reason.TooSoon? ==> d.waitTime > 0
  {
    var state := GetRateLimitState(slot, now);
    if state.requestCount >= DailyLimit then
      Denied(state.resetTime - now, DailyLimitReached)
    else
      var timeSinceLastRequest := now - state.lastRequestTime;
      if timeSinceLastRequest < MinDelayBetweenRequests then
        var waitTime := MinDelayBetweenRequests - timeSinceLastRequest;
        Denied(waitTime, TooSoon(WaitSeconds(waitTime)))
      else
        Allowed
  }

  /** Records one dispatched request against the effective window and saves
      it (saving is a no-op on the server). */
  function RecordRequest(slot: Slot<RateLimitState>, now: int): (r: Slot<RateLimitState>)
    ensures r.Available? <==> slot.Available?
    ensures r.Available? ==> r.stored.Some?
    ensures r.Available? ==>
              var before := GetRateLimitState(slot, now);
              r.stored.value == RateLimitState(now, before.requestCount + 1, before.resetTime)
  {
    var state := GetRateLimitState(slot, now);
    Save(slot, state.(lastRequestTime := now, requestCount := state.requestCount + 1))
  }

  /** `Math.max(0, DailyLimit - requestCount)`. */
  function GetRemainingRequests(slot: Slot<RateLimitState>, now: int): (n: int)
    ensures 0 <= n
    ensures GetRateLimitState(slot, now).requestCount >= 0 ==> n <= DailyLimit
  {
    var state := GetRateLimitState(slot, now);
    if DailyLimit - state.requestCount > 0 then DailyLimit - state.requestCount else 0
  }

  /** `Math.max(0, resetTime - now)`. */
  function GetTimeUntilReset(slot: Slot<RateLimitState>, now: int): (t: int)
    ensures 0 <= t
    ensures t == GetRateLimitState(slot, now).resetTime - now
  {
    var state := GetRateLimitState(slot, now);
    if state.resetTime - now > 0 then state.resetTime - now else 0
  }

  /** Re-deriving the effective state is idempotent: checking against the
      stored state or against the rolled-over one it would be replaced by gives
      the same decision, so leaving the rollover unsaved is harmless. */
  lemma RolloverIsObservational(slot: Slot<RateLimitState>, now: int)
    ensures var effective := Available(Some(GetRateLimitState(slot, now)));
            && GetRateLimitState(effective, now) == GetRateLimitState(slot, now)
            && CanMakeRequest(effective, now) == CanMakeRequest(slot, now)
            && (slot.Available? ==> RecordRequest(effective, now) == RecordRequest(slot, now))
  {
  }

  /** An expired window behaves exactly like an empty store, and recording in
      it starts the count again at one. */
  lemma ExpiredWindowActsFresh(s: RateLimitState, now: int)
    requires now > s.resetTime
    ensures CanMakeRequest(Available(Some(s)), now) == CanMakeRequest(Available(None), now)
    ensures RecordRequest(Available(Some(s)), now) == Available(Some(RateLimitState(now, 1, now + WindowMillis)))
  {
  }

  /** A fresh window admits any request made at least six seconds after the
      epoch. */
  lemma FreshStateAllowed(slot: Slot<RateLimitState>, now: int)
    requires GetRateLimitState(slot, now) == FreshState(now)
    requires now >= MinDelayBetweenRequests
    ensures CanMakeRequest(slot, now) == Allowed
  {
  }

  /** On the server the state is always fresh and nothing is ever saved. */
  lemma ServerNeverStores(now: int)
    ensures GetRateLimitState(Unavailable, now) == FreshState(now)
    ensures RecordRequest(Unavailable, now) == Unavailable
    ensures GetRemainingRequests(Unavailable, now) == DailyLimit
    ensures GetTimeUntilReset(Unavailable, now) == WindowMillis
  {
  }

  /** Recording at `t` and checking again `elapsed` milliseconds later in the
      same window: refused with the rest of the six seconds to wait, then
      admitted once six seconds have passed (while under the cap). */
  lemma RecordThenCheck(slot: Slot<RateLimitState>, t: int, elapsed: int)
    requires slot.Available?
    requires GetRateLimitState(slot, t).requestCount + 1 < DailyLimit
    requires 0 <= elapsed && t + elapsed <= GetRateLimitState(slot, t).resetTime
    ensures elapsed < MinDelayBetweenRequests ==>
              CanMakeRequest(RecordRequest(slot, t), t + elapsed)
              == Denied(MinDelayBetweenRequests - elapsed, TooSoon(WaitSeconds(MinDelayBetweenRequests - elapsed)))
    ensures elapsed >= MinDelayBetweenRequests ==> CanMakeRequest(RecordRequest(slot, t), t + elapsed) == Allowed
  {
  }

  /** Records one request at each of `times`, in order. */
  function RecordAll(slot: Slot<RateLimitState>, times: seq<int>): Slot<RateLimitState>
    decreases |times|
  {
    if |times| == 0 then slot else RecordAll(RecordRequest(slot, times[0]), times[1..])
  }

  /** Requests recorded inside an open window are each counted once, and only
      the last one's time is kept. */
  lemma {:induction false} RecordAllWithinWindow(s: RateLimitState, times: seq<int>)
    requires forall i :: 0 <= i < |times| ==> times[i] <= s.resetTime
    ensures |times| == 0 ==> RecordAll(Available(Some(s)), times) == Available(Some(s))
    ensures |times| > 0 ==>
              RecordAll(Available(Some(s)), times)
              == Available(Some(RateLimitState(times[|times| - 1], s.requestCount + |times|, s.resetTime)))
    decreases |times|
  {
    if |times| > 0 {
      var next := RateLimitState(times[0], s.requestCount + 1, s.resetTime);
      assert RecordRequest(Available(Some(s)), times[0]) == Available(Some(next));
      RecordAllWithinWindow(next, times[1..]);
      if |times| > 1 {
        assert times[1..][|times[1..]| - 1] == times[|times| - 1];
      }
    }
  }

  /** Eighteen requests recorded within a day of the first one exhaust the
      day: the next check is refused until the window that the first request
      opened closes, however long ago the last request was. */
  lemma DailyCapAfterEighteen(times: seq<int>, now: int)
    requires |times| >= DailyLimit
    requires forall i :: 0 <= i < |times| ==> times[i] <= times[0] + WindowMillis
    requires now <= times[0] + WindowMillis
    ensures CanMakeRequest(RecordAll(Available(None), times), now)
            == Denied(times[0] + WindowMillis - now, DailyLimitReached)
  {
    var first := RateLimitState(times[0], 1, times[0] + WindowMillis);
    assert RecordRequest(Available(None), times[0]) == Available(Some(first));
    assert RecordAll(Available(None), times) == RecordAll(Available(Some(first)), times[1..]);
    assert forall i :: 0 <= i < |times[1..]| ==> times[1..][i] == times[i + 1];
    RecordAllWithinWindow(first, times[1..]);
  }

  /** The remaining-requests display reaches zero exactly when the check
      refuses for the daily cap. */
  lemma RemainingZeroIffCapped(slot: Slot<RateLimitState>, now: int)
    ensures GetRemainingRequests(slot, now) == 0
            <==> CanMakeRequest(slot, now).Denied? && CanMakeRequest(slot, now).reason == DailyLimitReached
  {
  }

  /** Recording a request uses up exactly one of the remaining requests while
      any are left, and leaves none once the cap is reached; on the server the
      display stays at the full limit. */
  lemma RecordLowersRemaining(slot: Slot<RateLimitState>, now: int)
    ensures var before := GetRemainingRequests(slot, now);
            var after := GetRemainingRequests(RecordRequest(slot, now), now);
            && (slot.Available? && GetRateLimitState(slot, now).requestCount < DailyLimit ==> after == before - 1)
            && (slot.Available? && GetRateLimitState(slot, now).requestCount >= DailyLimit ==> after == 0 == before)
            && (slot.Unavailable? ==> after == before == DailyLimit)
  {
  }

  /** The daily-cap refusal names the cap. */
  lemma DailyLimitReasonCitesLimit()
    ensures Text.Contains(ReasonText(DailyLimitReached), "18")
  {
    assert Text.IntToString(DailyLimit) == "18" by {
      assert Text.NatToString(18) == Text.NatToString(1) + [Text.DigitChar(8)];
    }
    assert Text.OccursAt(ReasonText(DailyLimitReached), "18", 21);
  }
}
