/**
 * The rate-limiting engine: a per-token sliding-window counter per upstream
 * provider, and the registry that owns one limiter per provider.
 *
 * Time is an explicit integer clock reading `now` (whole seconds) passed to
 * every operation that the engine would otherwise read from the wall clock.
 * Each method of a limiter or of the registry is one atomic step: the locks
 * that serialise them are not modelled.
 */
module RateLimiter {
  import opened Wrappers

  // ---------------------------------------------------------------------------
  // Providers and configuration
  // ---------------------------------------------------------------------------

  /** The closed set of upstream providers. */
  datatype Provider = Connexpay | Qolo

  /** Maximum number of requests per window, and the window length in seconds. */
  datatype RateLimitConfig = RateLimitConfig(rateLimit: int, timeWindow: int)
  {
    /** Both fields must be strictly positive. */
    predicate Valid()
    {
      rateLimit > 0 && timeWindow > 0
    }
  }

  /** A configuration that passed validation; no other kind can exist. */
  type ValidConfig = c: RateLimitConfig | c.Valid() witness RateLimitConfig(1, 1)

  /** Which fields were rejected when building a configuration. */
  datatype ConfigError = ConfigError(rateLimitNotPositive: bool, timeWindowNotPositive: bool)

  /** Validating construction of a configuration: accepted exactly when both fields are positive. */
  function NewConfig(rateLimit: int, timeWindow: int): (r: Result<ValidConfig, ConfigError>)
    ensures r.Success? <==> rateLimit > 0 && timeWindow > 0
    ensures r.Success? ==> r.value.rateLimit == rateLimit && r.value.timeWindow == timeWindow
    ensures r.Failure? ==>
              r.error.rateLimitNotPositive == (rateLimit <= 0) &&
              r.error.timeWindowNotPositive == (timeWindow <= 0)
  {
    if rateLimit > 0 && timeWindow > 0 then Success(RateLimitConfig(rateLimit, timeWindow))
    else Failure(ConfigError(rateLimit <= 0, timeWindow <= 0))
  }

  /** The built-in configuration table: connexpay 5 per 30 s, qolo 200 per 60 s. */
  function DefaultConfig(provider: Provider): (config: RateLimitConfig)
    ensures config.Valid()
  {
    match provider
    case Connexpay => RateLimitConfig(5, 30)
    case Qolo => RateLimitConfig(200, 60)
  }

  // ---------------------------------------------------------------------------
  // One token's window
  // ---------------------------------------------------------------------------

  /** The requests recorded for one token, oldest first, and when its window began. */
  datatype RequestWindow = RequestWindow(timestamps: seq<int>, windowStart: int)

  /** The window a token gets on first sight: nothing recorded, starting now. */
  function NewWindow(now: int): (w: RequestWindow)
    ensures w.timestamps == [] && w.windowStart == now
  {
    RequestWindow([], now)
  }

  /** The token's window, created on access when the token is new. */
  function WindowOf(requests: map<string, RequestWindow>, token: string, now: int): (w: RequestWindow)
    ensures token in requests ==> w == requests[token]
    ensures token !in requests ==> w.timestamps == [] && w.windowStart == now
  {
    if token in requests then requests[token] else NewWindow(now)
  }

  /** `r` is `s` with some elements left out, the rest in their original order. */
  predicate IsSubsequence(r: seq<int>, s: seq<int>)
    decreases |s|
  {
    r == [] || (s != [] && ((r[0] == s[0] && IsSubsequence(r[1..], s[1..])) || IsSubsequence(r, s[1..])))
  }

  /** A timestamp counts at `now` when it is at most `timeWindow` seconds old. */
  predicate IsRecent(ts: int, now: int, timeWindow: int): (recent: bool)
    ensures recent <==> ts >= now - timeWindow
  {
    now - ts <= timeWindow
  }

  /** The timestamps still inside the window at `now`, in their original order. */
  function RetainRecent(timestamps: seq<int>, now: int, timeWindow: int): (kept: seq<int>)
    ensures |kept| <= |timestamps|
    ensures forall i :: 0 <= i < |kept| ==> IsRecent(kept[i], now, timeWindow)
  {
    if timestamps == [] then []
    else
      var rest := RetainRecent(timestamps[1..], now, timeWindow);
      if IsRecent(timestamps[0], now, timeWindow) then [timestamps[0]] + rest else rest
  }

  /** Each recent timestamp is kept exactly as often as it occurred; each stale one is dropped. */
  lemma {:induction false} RetainRecentCounts(timestamps: seq<int>, now: int, timeWindow: int)
    ensures forall x :: multiset(RetainRecent(timestamps, now, timeWindow))[x]
                        == if IsRecent(x, now, timeWindow) then multiset(timestamps)[x] else 0
  {
    if timestamps != [] {
      RetainRecentCounts(timestamps[1..], now, timeWindow);
      assert timestamps == [timestamps[0]] + timestamps[1..];
    }
  }

  /** What is kept is a subsequence: the filter never reorders. */
  lemma {:induction false} RetainRecentIsSubsequence(timestamps: seq<int>, now: int, timeWindow: int)
    ensures IsSubsequence(RetainRecent(timestamps, now, timeWindow), timestamps)
  {
    if timestamps != [] {
      RetainRecentIsSubsequence(timestamps[1..], now, timeWindow);
      var rest := RetainRecent(timestamps[1..], now, timeWindow);
      if IsRecent(timestamps[0], now, timeWindow) {
        assert ([timestamps[0]] + rest)[1..] == rest;
      }
    }
  }

  /**
   * Expiry of one window at `now`: a window that began more than `timeWindow`
   * seconds ago is reset wholesale; otherwise only stale timestamps go.
   */
  function Cleanup(w: RequestWindow, now: int, timeWindow: int): (r: RequestWindow)
    requires timeWindow > 0
    ensures now - w.windowStart > timeWindow ==> r == NewWindow(now)
    ensures now - w.windowStart <= timeWindow ==> r.windowStart == w.windowStart
    ensures now - r.windowStart <= timeWindow
    ensures |r.timestamps| <= |w.timestamps|
    ensures forall i :: 0 <= i < |r.timestamps| ==> IsRecent(r.timestamps[i], now, timeWindow)
  {
    if now - w.windowStart > timeWindow then NewWindow(now)
    else w.(timestamps := RetainRecent(w.timestamps, now, timeWindow))
  }

  /** The cleanup that runs right after a window is created leaves it as it is. */
  lemma NewWindowSurvivesCleanup(now: int, timeWindow: int)
    requires timeWindow > 0
    ensures Cleanup(NewWindow(now), now, timeWindow) == NewWindow(now)
  {
  }

  /**
   * A cleanup that does not reset keeps the window's start and exactly the
   * recent timestamps, each as often as before and in the same order.
   */
  lemma CleanupWithoutReset(w: RequestWindow, now: int, timeWindow: int)
    requires timeWindow > 0
    requires now - w.windowStart <= timeWindow
    ensures var r := Cleanup(w, now, timeWindow);
            && r.windowStart == w.windowStart
            && (forall x :: multiset(r.timestamps)[x] == if IsRecent(x, now, timeWindow) then multiset(w.timestamps)[x] else 0)
            && IsSubsequence(r.timestamps, w.timestamps)
  {
    RetainRecentCounts(w.timestamps, now, timeWindow);
    RetainRecentIsSubsequence(w.timestamps, now, timeWindow);
  }

  /** The three values a check reports: the limit, what is left of it, and seconds until reset. */
  datatype RateLimitHeaders = RateLimitHeaders(limit: int, remaining: int, reset: int)

  /** What one check reports, and the token's window after it. */
  datatype CheckOutcome = CheckOutcome(limited: bool, headers: RateLimitHeaders, window: RequestWindow)

  /**
   * One check of a token's window at `now`: clean up, record `now` when asked
   * to and there is room, and report on the count after recording.
   */
  function Check(w: RequestWindow, now: int, rateLimit: int, timeWindow: int, increment: bool): (r: CheckOutcome)
    requires rateLimit > 0 && timeWindow > 0
    ensures var c := Cleanup(w, now, timeWindow);
            && r.window.windowStart == c.windowStart
            && (r.window.timestamps == c.timestamps + [now] <==> increment && |c.timestamps| < rateLimit)
            && (!(increment && |c.timestamps| < rateLimit) ==> r.window.timestamps == c.timestamps)
    ensures r.limited <==> |r.window.timestamps| >= rateLimit
    ensures r.headers.limit == rateLimit
    ensures r.headers.remaining == Max(rateLimit - |r.window.timestamps|, 0)
    ensures r.headers.remaining >= 0 && (r.headers.remaining == 0 <==> r.limited)
    ensures r.headers.reset == timeWindow - (now - r.window.windowStart)
    ensures 0 <= r.headers.reset && (now >= w.windowStart ==> r.headers.reset <= timeWindow)
    ensures |w.timestamps| <= rateLimit ==> |r.window.timestamps| <= rateLimit
  {
    var c := Cleanup(w, now, timeWindow);
    var count := |c.timestamps|;
    var ts := if increment && count < rateLimit then c.timestamps + [now] else c.timestamps;
    var after := RequestWindow(ts, c.windowStart);
    CheckOutcome(
      |ts| >= rateLimit,
      RateLimitHeaders(rateLimit, Max(rateLimit - |ts|, 0), timeWindow - (now - c.windowStart)),
      after)
  }

  /** Consecutive recording checks (`increment` set) of one token at the given instants. */
  function Replay(w: RequestWindow, times: seq<int>, rateLimit: int, timeWindow: int): (r: (seq<bool>, RequestWindow))
    requires rateLimit > 0 && timeWindow > 0
    ensures |r.0| == |times|
    decreases |times|
  {
    if times == [] then ([], w)
    else
      var o := Check(w, times[0], rateLimit, timeWindow, true);
      var rest := Replay(o.window, times[1..], rateLimit, timeWindow);
      ([o.limited] + rest.0, rest.1)
  }

  // ---------------------------------------------------------------------------
  // Properties of the window functions
  // ---------------------------------------------------------------------------

  /** Whatever the instants, a run of recording checks never leaves more requests on record than the limit. */
  lemma {:induction false} ReplayStaysWithinLimit(w: RequestWindow, times: seq<int>, rateLimit: int, timeWindow: int)
    requires rateLimit > 0 && timeWindow > 0
    requires |w.timestamps| <= rateLimit
    ensures |Replay(w, times, rateLimit, timeWindow).1.timestamps| <= rateLimit
    decreases |times|
  {
    if times != [] {
      var o := Check(w, times[0], rateLimit, timeWindow, true);
      ReplayStaysWithinLimit(o.window, times[1..], rateLimit, timeWindow);
    }
  }

  /** Filtering keeps everything when everything is recent. */
  lemma {:induction false} RetainRecentAllRecent(timestamps: seq<int>, now: int, timeWindow: int)
    requires forall i :: 0 <= i < |timestamps| ==> IsRecent(timestamps[i], now, timeWindow)
    ensures RetainRecent(timestamps, now, timeWindow) == timestamps
  {
    if timestamps != [] {
      RetainRecentAllRecent(timestamps[1..], now, timeWindow);
    }
  }

  /** Filtering at an earlier instant and then at a later one is filtering once at the later one. */
  lemma {:induction false} RetainRecentLater(timestamps: seq<int>, earlier: int, later: int, timeWindow: int)
    requires earlier <= later
    ensures RetainRecent(RetainRecent(timestamps, earlier, timeWindow), later, timeWindow)
            == RetainRecent(timestamps, later, timeWindow)
  {
    if timestamps != [] {
      RetainRecentLater(timestamps[1..], earlier, later, timeWindow);
      var rest := RetainRecent(timestamps[1..], earlier, timeWindow);
      if IsRecent(timestamps[0], earlier, timeWindow) {
        assert RetainRecent(timestamps, earlier, timeWindow) == [timestamps[0]] + rest;
        assert ([timestamps[0]] + rest)[1..] == rest;
      }
    }
  }

  /** A window just cleaned at `now` is left alone by another cleanup at the same instant. */
  lemma CleanupIdempotent(w: RequestWindow, now: int, timeWindow: int)
    requires timeWindow > 0
    ensures Cleanup(Cleanup(w, now, timeWindow), now, timeWindow) == Cleanup(w, now, timeWindow)
  {
    var c := Cleanup(w, now, timeWindow);
    RetainRecentAllRecent(c.timestamps, now, timeWindow);
  }

  /** A token seen for the first time gets a full window and one recorded request at most. */
  lemma FirstCheckOfNewToken(now: int, rateLimit: int, timeWindow: int, increment: bool)
    requires rateLimit > 0 && timeWindow > 0
    ensures var r := Check(NewWindow(now), now, rateLimit, timeWindow, increment);
            && r.window == RequestWindow(if increment then [now] else [], now)
            && r.headers == RateLimitHeaders(rateLimit, rateLimit - (if increment then 1 else 0), timeWindow)
            && (r.limited <==> increment && rateLimit == 1)
  {
  }

  /** The request that takes the last free slot is recorded and yet reported as limited. */
  lemma LastSlotAdmittedButLimited(w: RequestWindow, now: int, rateLimit: int, timeWindow: int)
    requires rateLimit > 0 && timeWindow > 0
    requires |Cleanup(w, now, timeWindow).timestamps| == rateLimit - 1
    ensures var r := Check(w, now, rateLimit, timeWindow, true);
            && r.window.timestamps == Cleanup(w, now, timeWindow).timestamps + [now]
            && r.limited
            && r.headers.remaining == 0
  {
  }

  /** A check on a full window is limited and records nothing, whether or not it asked to. */
  lemma FullWindowRejects(w: RequestWindow, now: int, rateLimit: int, timeWindow: int, increment: bool)
    requires rateLimit > 0 && timeWindow > 0
    requires |Cleanup(w, now, timeWindow).timestamps| >= rateLimit
    ensures var r := Check(w, now, rateLimit, timeWindow, increment);
            && r.window == Cleanup(w, now, timeWindow)
            && r.limited
            && r.headers.remaining == 0
  {
  }

  /** A check that does not record is a cleanup and nothing more; repeating it changes nothing. */
  lemma PeekIsIdempotent(w: RequestWindow, now: int, rateLimit: int, timeWindow: int)
    requires rateLimit > 0 && timeWindow > 0
    ensures Check(w, now, rateLimit, timeWindow, false).window == Cleanup(w, now, timeWindow)
    ensures var once := Check(w, now, rateLimit, timeWindow, false);
            Check(once.window, now, rateLimit, timeWindow, false) == once
  {
    CleanupIdempotent(w, now, timeWindow);
  }

  /**
   * A non-recording check that does not itself reset the window does not
   * change what a later check sees or reports.
   */
  lemma PeekIsTransparentWithinWindow(w: RequestWindow, earlier: int, later: int, rateLimit: int, timeWindow: int, increment: bool)
    requires rateLimit > 0 && timeWindow > 0
    requires earlier <= later && earlier - w.windowStart <= timeWindow
    ensures var peeked := Check(w, earlier, rateLimit, timeWindow, false).window;
            Check(peeked, later, rateLimit, timeWindow, increment) == Check(w, later, rateLimit, timeWindow, increment)
  {
    RetainRecentLater(w.timestamps, earlier, later, timeWindow);
  }

  /**
   * Once a window has expired, a non-recording check restarts it at its own
   * instant: a later recording check inside the restarted window reports
   * the time left from the peek's instant, where without the peek it would
   * have reset the window itself and reported the full window.
   */
  lemma PeekAfterExpiryMovesWindowStart(w: RequestWindow, earlier: int, later: int, rateLimit: int, timeWindow: int)
    requires rateLimit > 0 && timeWindow > 0
    requires earlier - w.windowStart > timeWindow
    requires earlier <= later <= earlier + timeWindow
    ensures var peeked := Check(w, earlier, rateLimit, timeWindow, false).window;
            && peeked == NewWindow(earlier)
            && Check(peeked, later, rateLimit, timeWindow, true).headers.reset == timeWindow - (later - earlier)
            && Check(w, later, rateLimit, timeWindow, true).headers.reset == timeWindow
  {
  }

  /**
   * One recording check inside the window, on a window whose recorded
   * requests all fall inside it: nothing expires, and `now` is recorded
   * exactly when there is room.
   */
  lemma CheckInsideWindow(prior: seq<int>, start: int, now: int, rateLimit: int, timeWindow: int)
    requires rateLimit > 0 && timeWindow > 0
    requires forall i :: 0 <= i < |prior| ==> start <= prior[i]
    requires start <= now <= start + timeWindow
    ensures var o := Check(RequestWindow(prior, start), now, rateLimit, timeWindow, true);
            && o.window == RequestWindow(if |prior| < rateLimit then prior + [now] else prior, start)
            && o.limited == (|prior| + 1 >= rateLimit)
  {
    RetainRecentAllRecent(prior, now, timeWindow);
  }

  /** The first of a run of recording checks inside the window, in terms of the rest of the run. */
  lemma ReplayFirstInsideWindow(prior: seq<int>, start: int, times: seq<int>, rateLimit: int, timeWindow: int)
    requires rateLimit > 0 && timeWindow > 0
    requires forall i :: 0 <= i < |prior| ==> start <= prior[i]
    requires times != [] && start <= times[0] <= start + timeWindow
    ensures var next := if |prior| < rateLimit then prior + [times[0]] else prior;
            var rest := Replay(RequestWindow(next, start), times[1..], rateLimit, timeWindow);
            Replay(RequestWindow(prior, start), times, rateLimit, timeWindow)
            == ([|prior| + 1 >= rateLimit] + rest.0, rest.1)
  {
    CheckInsideWindow(prior, start, times[0], rateLimit, timeWindow);
  }

  /** Appending an instant inside the window keeps every recorded request inside it. */
  lemma NextStaysInsideWindow(prior: seq<int>, start: int, now: int)
    requires forall i :: 0 <= i < |prior| ==> start <= prior[i]
    requires start <= now
    ensures forall i :: 0 <= i < |prior + [now]| ==> start <= (prior + [now])[i]
  {
  }

  /**
   * Recording checks at instants inside one window, on a window whose
   * recorded requests all fall inside it, take the free slots in order; once
   * the window is full a check records nothing.
   */
  lemma {:induction false} BurstFillsWindow(prior: seq<int>, start: int, times: seq<int>, rateLimit: int, timeWindow: int)
    requires rateLimit > 0 && timeWindow > 0
    requires |prior| <= rateLimit
    requires forall i :: 0 <= i < |prior| ==> start <= prior[i]
    requires forall i :: 0 <= i < |times| ==> start <= times[i] <= start + timeWindow
    ensures Replay(RequestWindow(prior, start), times, rateLimit, timeWindow).1
            == RequestWindow(prior + times[..Min(|times|, rateLimit - |prior|)], start)
    decreases |times|
  {
    if times != [] {
      var now := times[0];
      ReplayFirstInsideWindow(prior, start, times, rateLimit, timeWindow);
      if |prior| < rateLimit {
        NextStaysInsideWindow(prior, start, now);
        BurstFillsWindow(prior + [now], start, times[1..], rateLimit, timeWindow);
        PrefixStep(prior, times, Min(|times| - 1, rateLimit - |prior| - 1));
      } else {
        BurstFillsWindow(prior, start, times[1..], rateLimit, timeWindow);
      }
    }
  }

  /**
   * Recording checks at instants inside one window, on a window whose
   * recorded requests all fall inside it: each is reported as limited
   * exactly when the count has reached the limit, so the check that takes
   * the last slot already is.
   */
  lemma {:induction false} BurstReportsLimited(prior: seq<int>, start: int, times: seq<int>, rateLimit: int, timeWindow: int)
    requires rateLimit > 0 && timeWindow > 0
    requires |prior| <= rateLimit
    requires forall i :: 0 <= i < |prior| ==> start <= prior[i]
    requires forall i :: 0 <= i < |times| ==> start <= times[i] <= start + timeWindow
    ensures var flags := Replay(RequestWindow(prior, start), times, rateLimit, timeWindow).0;
            forall i :: 0 <= i < |times| ==> flags[i] == (|prior| + i + 1 >= rateLimit)
    decreases |times|
  {
    if times != [] {
      var now := times[0];
      var next := if |prior| < rateLimit then prior + [now] else prior;
      ReplayFirstInsideWindow(prior, start, times, rateLimit, timeWindow);
      if |prior| < rateLimit {
        NextStaysInsideWindow(prior, start, now);
      }
      BurstReportsLimited(next, start, times[1..], rateLimit, timeWindow);
      var rest := Replay(RequestWindow(next, start), times[1..], rateLimit, timeWindow).0;
      var flags := [|prior| + 1 >= rateLimit] + rest;
      forall i | 1 <= i < |times|
        ensures flags[i] == (|prior| + i + 1 >= rateLimit)
      {
        assert flags[i] == rest[i - 1];
      }
    }
  }

  /** Taking one more instant from the front of a run extends the recorded prefix by it. */
  lemma PrefixStep(prior: seq<int>, times: seq<int>, k: nat)
    requires k < |times|
    ensures prior + [times[0]] + times[1..][..k] == prior + times[..k + 1]
  {
    assert times[..k + 1] == [times[0]] + times[1..][..k];
  }

  /**
   * Connexpay's default configuration: five recording checks of a new token
   * one second apart are let through, the fifth already reported as limited,
   * and a sixth one second later is limited and leaves five requests on record.
   */
  lemma ConnexpayBurst(t: int)
    ensures var config := DefaultConfig(Connexpay);
            var r := Replay(NewWindow(t), [t, t + 1, t + 2, t + 3, t + 4, t + 5], config.rateLimit, config.timeWindow);
            && r.0 == [false, false, false, false, true, true]
            && r.1 == RequestWindow([t, t + 1, t + 2, t + 3, t + 4], t)
  {
    var times := [t, t + 1, t + 2, t + 3, t + 4, t + 5];
    assert forall i :: 0 <= i < |times| ==> t <= times[i] <= t + 30;
    BurstFillsWindow([], t, times, 5, 30);
    BurstReportsLimited([], t, times, 5, 30);
    var r := Replay(NewWindow(t), times, 5, 30);
    assert Min(|times|, 5 - 0) == 5;
    assert [] + times[..5] == [t, t + 1, t + 2, t + 3, t + 4];
    assert r.0 == [false, false, false, false, true, true] by {
      forall i | 0 <= i < 6 ensures r.0[i] == (i + 1 >= 5) {}
    }
  }

  // ---------------------------------------------------------------------------
  // The limiter of one provider
  // ---------------------------------------------------------------------------

  /** One provider's limiter: its configuration and the window of every token seen so far. */
  class ProviderRateLimiter {
    const rateLimit: int
    const timeWindow: int
    var requests: map<string, RequestWindow>

    /** The configuration is valid and no token has more requests on record than the limit. */
    ghost predicate Valid()
      reads this
    {
      && rateLimit > 0 && timeWindow > 0
      && forall token :: token in requests ==> |requests[token].timestamps| <= rateLimit
    }

    constructor (config: ValidConfig)
      ensures Valid()
      ensures rateLimit == config.rateLimit && timeWindow == config.timeWindow
      ensures requests == map[]
    {
      rateLimit := config.rateLimit;
      timeWindow := config.timeWindow;
      requests := map[];
    }

    /** Expires the token's window at `now`, creating the window first when the token is new. */
    method CleanupOldRequests(token: string, now: int)
      requires Valid()
      modifies this
      ensures Valid()
      ensures requests == old(requests)[token := Cleanup(WindowOf(old(requests), token, now), now, timeWindow)]
    {
      var window := WindowOf(requests, token, now);
      if now - window.windowStart > timeWindow {
        window := window.(timestamps := []);
        window := window.(windowStart := now);
      } else {
        window := window.(timestamps := RetainRecent(window.timestamps, now, timeWindow));
      }
      requests := requests[token := window];
    }

    /**
     * Checks the token at `now` and, when `increment` is set and there is
     * room, records the request. Only the token's own window changes.
     */
    method CheckRateLimit(token: string, now: int, increment: bool) returns (limited: bool, headers: RateLimitHeaders)
      requires Valid()
      modifies this
      ensures Valid()
      ensures var out := Check(WindowOf(old(requests), token, now), now, rateLimit, timeWindow, increment);
              && limited == out.limited
              && headers == out.headers
              && requests == old(requests)[token := out.window]
    {
      CleanupOldRequests(token, now);
      var window := requests[token];
      var currentRequests := |window.timestamps|;
      var isLimited := currentRequests >= rateLimit;
      if increment && !isLimited {
        window := window.(timestamps := window.timestamps + [now]);
        requests := requests[token := window];
        currentRequests := currentRequests + 1;
      }
      var resetTime := timeWindow - (now - window.windowStart);
      var remaining := Max(rateLimit - currentRequests, 0);
      headers := RateLimitHeaders(rateLimit, remaining, resetTime);
      limited := currentRequests >= rateLimit;
    }
  }

  // ---------------------------------------------------------------------------
  // The registry of limiters
  // ---------------------------------------------------------------------------

  /** One limiter per provider, created on first use. */
  class RateLimiterRegistry {
    var providerLimiters: map<Provider, ProviderRateLimiter>

    /** Every stored limiter is valid, and no two providers share one. */
    ghost predicate Valid()
      reads this, providerLimiters.Values
    {
      && (forall p :: p in providerLimiters ==> providerLimiters[p].Valid())
      && (forall p, q :: p in providerLimiters && q in providerLimiters && p != q ==>
            providerLimiters[p] != providerLimiters[q])
    }

    constructor ()
      ensures Valid() && providerLimiters == map[]
    {
      providerLimiters := map[];
    }

    /**
     * The provider's limiter; on first use a new one under the default
     * configuration is stored. Other providers' entries are untouched.
     */
    method GetLimiter(provider: Provider) returns (limiter: ProviderRateLimiter)
      requires Valid()
      modifies this
      ensures Valid()
      ensures provider in providerLimiters && limiter == providerLimiters[provider]
      ensures provider in old(providerLimiters) ==> providerLimiters == old(providerLimiters)
      ensures provider !in old(providerLimiters) ==>
                && fresh(limiter)
                && providerLimiters == old(providerLimiters)[provider := limiter]
                && limiter.rateLimit == DefaultConfig(provider).rateLimit
                && limiter.timeWindow == DefaultConfig(provider).timeWindow
                && limiter.requests == map[]
    {
      if provider !in providerLimiters {
        var config := DefaultConfig(provider);
        limiter := new ProviderRateLimiter(config);
        providerLimiters := providerLimiters[provider := limiter];
      }
      limiter := providerLimiters[provider];
    }

    /** Replaces the provider's limiter with a new one under `config`, with no token on record. */
    method UpdateConfig(provider: Provider, config: ValidConfig)
      requires Valid()
      modifies this
      ensures Valid()
      ensures provider in providerLimiters
      ensures providerLimiters == old(providerLimiters)[provider := providerLimiters[provider]]
      ensures var limiter := providerLimiters[provider];
              && fresh(limiter)
              && limiter.rateLimit == config.rateLimit
              && limiter.timeWindow == config.timeWindow
              && limiter.requests == map[]
    {
      var limiter := new ProviderRateLimiter(config);
      providerLimiters := providerLimiters[provider := limiter];
    }
  }

  // ---------------------------------------------------------------------------
  // Callers' view of the registry
  // ---------------------------------------------------------------------------

  /** Looking a provider up twice yields the same limiter, created at most once. */
  method LookupTwice(registry: RateLimiterRegistry, provider: Provider)
    returns (first: ProviderRateLimiter, second: ProviderRateLimiter)
    requires registry.Valid()
    modifies registry
    ensures registry.Valid()
    ensures provider in registry.providerLimiters && first == second && registry.providerLimiters[provider] == first
  {
    first := registry.GetLimiter(provider);
    second := registry.GetLimiter(provider);
  }

  /**
   * After reconfiguration, any token starts afresh: its first check reports
   * the full window and is limited only when it records into a limit of one.
   */
  method ReconfigureThenCheck(registry: RateLimiterRegistry, provider: Provider, config: ValidConfig,
                              token: string, now: int, increment: bool)
    returns (limited: bool, headers: RateLimitHeaders)
    requires registry.Valid()
    modifies registry
    ensures registry.Valid()
    ensures limited <==> increment && config.rateLimit == 1
    ensures headers == RateLimitHeaders(config.rateLimit, config.rateLimit - (if increment then 1 else 0), config.timeWindow)
  {
    registry.UpdateConfig(provider, config);
    var limiter := registry.GetLimiter(provider);
    limited, headers := limiter.CheckRateLimit(token, now, increment);
    FirstCheckOfNewToken(now, config.rateLimit, config.timeWindow, increment);
  }

  /**
   * The path every request takes: look the provider up, then check and
   * record the token. Only that provider's limiter, and in it only that
   * token's window, changes; every other provider's limiter is untouched.
   */
  method CheckThroughRegistry(registry: RateLimiterRegistry, provider: Provider, token: string, now: int)
    returns (limited: bool, headers: RateLimitHeaders)
    requires registry.Valid()
    modifies registry, registry.providerLimiters.Values
    ensures registry.Valid()
    ensures provider in registry.providerLimiters
    ensures registry.providerLimiters.Keys == old(registry.providerLimiters.Keys) + {provider}
    ensures provider in old(registry.providerLimiters) ==> registry.providerLimiters == old(registry.providerLimiters)
    ensures provider !in old(registry.providerLimiters) ==>
              && fresh(registry.providerLimiters[provider])
              && registry.providerLimiters[provider].rateLimit == DefaultConfig(provider).rateLimit
              && registry.providerLimiters[provider].timeWindow == DefaultConfig(provider).timeWindow
    ensures forall q :: q in old(registry.providerLimiters) && q != provider ==>
              && registry.providerLimiters[q] == old(registry.providerLimiters[q])
              && registry.providerLimiters[q].requests == old(registry.providerLimiters[q].requests)
    ensures var limiter := registry.providerLimiters[provider];
            var before := if provider in old(registry.providerLimiters) then old(registry.providerLimiters[provider].requests) else map[];
            var out := Check(WindowOf(before, token, now), now, limiter.rateLimit, limiter.timeWindow, true);
            && limited == out.limited
            && headers == out.headers
            && limiter.requests == before[token := out.window]
  {
    ghost var before := if provider in registry.providerLimiters then registry.providerLimiters[provider].requests else map[];
    var limiter := registry.GetLimiter(provider);
    assert limiter.requests == before;
    ghost var limiters := registry.providerLimiters;
    limited, headers := limiter.CheckRateLimit(token, now, true);
    assert registry.providerLimiters == limiters;
  }
}
