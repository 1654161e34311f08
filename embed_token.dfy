/** The payload signed into a dashboard embedding token
    (backend/controllers/dashboardController.js, `getDashboardEmbed`).
    The clock reading `Date.now()` is an input; signing is not modelled. */
module EmbedToken {
  import opened Js
  import opened ScopeParams

  /** Token lifetime, `10 * 60` seconds. */
  const LifetimeSeconds := 10 * 60

  /** `Math.round(nowMs / 1000)`: JavaScript rounds halves upwards, and for
      an integer number of milliseconds this is exact integer arithmetic. */
  function RoundToSeconds(nowMs: int): (s: int)
    ensures 1000 * s - 500 <= nowMs < 1000 * s + 500
  {
    (nowMs + 500) / 1000
  }

  /** The `exp` claim (a NumericDate, section 4.1.4 of RFC 7519): the
      rounded clock reading plus ten minutes. */
  function Expiry(nowMs: int): (exp: int)
    ensures 1000 * (exp - LifetimeSeconds) - 500 <= nowMs < 1000 * (exp - LifetimeSeconds) + 500
  {
    RoundToSeconds(nowMs) + LifetimeSeconds
  }

  /** `{ resource: { dashboard }, params, exp }`. */
  datatype EmbedPayload = EmbedPayload(dashboard: JsValue, params: Params, exp: int)

  /** The expiry is the only second whose window contains the clock
      reading: the bounds above determine it. */
  lemma ExpiryUnique(nowMs: int, exp: int)
    requires 1000 * (exp - LifetimeSeconds) - 500 <= nowMs < 1000 * (exp - LifetimeSeconds) + 500
    ensures exp == Expiry(nowMs)
  {
  }

  /** A later clock reading never gives an earlier expiry. */
  lemma ExpiryMonotone(a: int, b: int)
    requires a <= b
    ensures Expiry(a) <= Expiry(b)
  {
  }

  /** The expiry is not fresh per call: readings in the same rounded second
      give the same `exp`, e.g. 1000 ms and 1499 ms. */
  lemma SameSecondSameExpiry()
    ensures Expiry(1000) == Expiry(1499) == 601
    ensures Expiry(1500) == 602
  {
  }
}
