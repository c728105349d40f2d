# Rate-limiting engine, modelled in Dafny

This project models the engine of an HTTP gatekeeper that enforces per-client, per-provider
rate limits with a sliding time window (`rate_limiter.py`). The model has three parts:

- **Configuration**: a `RateLimitConfig` (requests per window, window length in seconds).
  Both fields must be positive. There is also a built-in table with the defaults for the two
  providers, connexpay (5 per 30 s) and qolo (200 per 60 s).
- **`ProviderRateLimiter`**: a class holding one provider's configuration and a map from
  client token to that token's `RequestWindow`. A window is the list of recorded request
  instants plus the instant the window began. `CleanupOldRequests` expires a window.
  `CheckRateLimit` checks a token, may record the request, and reports the limit, the
  remaining allowance and the seconds until reset.
- **`RateLimiterRegistry`**: a class mapping each provider to its limiter. `GetLimiter`
  creates a limiter lazily under the default configuration. `UpdateConfig` replaces a
  provider's limiter with a new, empty one.

The methods are proved against pure specification functions:

- `RetainRecent` is the filter of stale timestamps.
- `Cleanup` is the reset-or-filter of one window.
- `Check` is one whole check of a window.
- `Replay` is a run of recording checks by one token.

The lemmas state what the engine promises about those functions. The clock is an integer
parameter `now`, in whole seconds. Every limiter or registry method is one atomic step.

Files: `wrappers.dfy` (module `Wrappers`: `Result`, `Min`, `Max`) and `rate_limiter.dfy`
(module `RateLimiter`).

### Behaviour worth knowing

- The boolean a check returns is computed from the count *after* the request was recorded.
  So the request that takes the last free slot is recorded and still reported as limited
  (`LastSlotAdmittedButLimited`, `BurstReportsLimited`). The model keeps this behaviour.
- Consequently, after `update_config` with a limit of 1, a token's first recording check is
  reported as limited, even though its window is new. It is not limited only when it does not
  record, or when the limit is at least 2 (`FirstCheckOfNewToken`, `ReconfigureThenCheck`).
- After cleanup, `now - window_start <= time_window` always holds, so the reported reset value
  is never negative (`Check`). It exceeds `time_window` only when the clock has gone back
  before the window's start.
- A check that does not record (the status endpoint) still runs cleanup. Once a window has
  expired, such a check restarts it, which moves the reset value that later checks report
  (`PeekAfterExpiryMovesWindowStart`). When the peek itself does not reset the window, it is
  invisible to later checks (`PeekIsTransparentWithinWindow`).
- `Provider` is a closed enumeration and the default table covers both of its values, so the
  table lookup in `get_limiter` cannot fail.

## Model

| member | source | states |
|---|---|---|
| `RateLimiter.NewConfig` | rate_limiter.py:13-15 | a configuration is accepted exactly when both fields are positive; it keeps the given values; a rejection names each non-positive field |
| `RateLimiter.DefaultConfig` | rate_limiter.py:17-20 | every entry of the default table (connexpay 5/30, qolo 200/60) is a valid configuration |
| `RateLimiter.NewWindow` | rate_limiter.py:31-33 | a token's window on first sight has no timestamps and starts at `now` |
| `RateLimiter.NewWindowSurvivesCleanup` | rate_limiter.py:31-45 | the cleanup that runs right after a window is created leaves it unchanged |
| `RateLimiter.WindowOf` | rate_limiter.py:31-37 | looking a token up gives its stored window when present, else a new empty window starting at `now` |
| `RateLimiter.IsRecent` | rate_limiter.py:44 | a timestamp counts iff it is no earlier than `now - time_window` |
| `RateLimiter.RetainRecent` | rate_limiter.py:42-45 | the filtered list is no longer than the original and every timestamp kept is at most `time_window` seconds old |
| `RateLimiter.RetainRecentCounts` | rate_limiter.py:42-45 | each recent timestamp is kept exactly as many times as it occurred, and each stale one is dropped |
| `RateLimiter.RetainRecentIsSubsequence` | rate_limiter.py:42-45 | the filter keeps the original order |
| `RateLimiter.RetainRecentAllRecent` | rate_limiter.py:42-45 | a list whose timestamps are all recent is returned unchanged |
| `RateLimiter.RetainRecentLater` | rate_limiter.py:42-45 | filtering at an earlier instant and then at a later one equals filtering once at the later one |
| `RateLimiter.Cleanup` | rate_limiter.py:36-45 | strictly more than `time_window` after `window_start`, the window is reset to empty starting now; otherwise the start is kept; either way the result is no longer, everything kept is recent, and `now - window_start <= time_window` |
| `RateLimiter.CleanupWithoutReset` | rate_limiter.py:41-45 | a cleanup that does not reset keeps the start and exactly the recent timestamps, with their multiplicities and in order |
| `RateLimiter.CleanupIdempotent` | rate_limiter.py:36-45 | a second cleanup at the same instant changes nothing |
| `RateLimiter.Check` | rate_limiter.py:47-70 | `now` is appended exactly when recording is asked and the cleaned count is below the limit, otherwise the cleaned window stays; limited iff the count after is at least the limit; limit is the configured one; remaining is `max(limit - count, 0)`, is never negative, and is 0 iff limited; reset is `time_window - (now - window_start)`, never negative, and at most `time_window` when the clock has not gone back; the count bound `<= rate_limit` is preserved |
| `RateLimiter.Replay` | main.py:45-46 | a run of recording checks yields one limited flag per request |
| `RateLimiter.ReplayStaysWithinLimit` | rate_limiter.py:55-59 | starting from at most `rate_limit` timestamps, any run of recording checks at any instants ends with at most `rate_limit` timestamps |
| `RateLimiter.FirstCheckOfNewToken` | rate_limiter.py:31-33 | a new token's first check reports the full `time_window` as reset and `limit - 1` (recording) or `limit` (not recording) as remaining; it is limited iff it records into a limit of 1 |
| `RateLimiter.LastSlotAdmittedButLimited` | rate_limiter.py:55-70 | the request that takes the last slot is appended, reported as limited, and has 0 remaining |
| `RateLimiter.FullWindowRejects` | rate_limiter.py:55-59 | a check on a full window is limited and leaves exactly the cleaned window, recording or not |
| `RateLimiter.PeekIsIdempotent` | rate_limiter.py:47-59 | a non-recording check only cleans up, and repeating it at the same instant changes nothing |
| `RateLimiter.PeekIsTransparentWithinWindow` | rate_limiter.py:36-59 | when an earlier non-recording check does not itself reset the window, it does not change what a later check reports or leaves |
| `RateLimiter.PeekAfterExpiryMovesWindowStart` | rate_limiter.py:38-40 | a non-recording check after expiry restarts the window at its own instant, so a later recording check within `time_window` of it reports `time_window - (later - earlier)` instead of the full `time_window` it would report without the peek |
| `RateLimiter.CheckInsideWindow` | rate_limiter.py:36-59 | inside the window, with every recorded request inside it, nothing expires and `now` is recorded iff there is room |
| `RateLimiter.BurstFillsWindow` | rate_limiter.py:55-59 | recording checks inside one window take the free slots in order, and the timestamp list never grows past the limit |
| `RateLimiter.BurstReportsLimited` | rate_limiter.py:55-70 | in such a run, the i-th check is limited iff `prior + i + 1 >= limit`: from the check that fills the last slot onwards |
| `RateLimiter.ConnexpayBurst` | rate_limiter.py:17-20 | under connexpay's default, six checks one second apart report `false x4, true, true` and leave five timestamps |
| `RateLimiter.ProviderRateLimiter.constructor` | rate_limiter.py:28-34 | a new limiter has the config's limit and window and no tokens |
| `RateLimiter.ProviderRateLimiter.CleanupOldRequests` | rate_limiter.py:36-45 | the token's window (created starting now if absent) becomes `Cleanup` of it; no other token changes; the count bound is kept |
| `RateLimiter.ProviderRateLimiter.CheckRateLimit` | rate_limiter.py:47-70 | the result and headers are those of `Check` on the token's window; only that token's entry is created or changed; the count bound is kept |
| `RateLimiter.RateLimiterRegistry.constructor` | rate_limiter.py:73-75 | a new registry holds no limiters |
| `RateLimiter.RateLimiterRegistry.GetLimiter` | rate_limiter.py:77-82 | returns the stored limiter, or stores and returns a new one under the default config; other providers' entries are unchanged |
| `RateLimiter.RateLimiterRegistry.UpdateConfig` | rate_limiter.py:84-86 | the provider's limiter is replaced by a new one with the given config and no tokens; other entries are unchanged |
| `RateLimiter.LookupTwice` | rate_limiter.py:77-82 | repeated lookups of a provider return the same limiter instance |
| `RateLimiter.ReconfigureThenCheck` | rate_limiter.py:84-86 | after reconfiguration any token starts fresh: full reset, fresh remaining, and limited only when recording into a limit of 1 |
| `RateLimiter.CheckThroughRegistry` | main.py:45-46 | a request's lookup-then-check keeps the provider's stored limiter, or installs a new one under the default config when there is none; it then changes only that limiter's entry for the token, as `Check` with that limiter's limits says, and leaves every other provider's limiter untouched |

## Left out

- Locking (`threading.Lock` in the limiter and the registry): each method is modelled as one atomic step, and interleavings are not modelled.
- Wall-clock time and float timestamps: `now` is an integer parameter. So the `int(...)` truncation of a fractional reset value is not modelled; with whole seconds it is exact.
- The separate clock read in the default factory of the token map: a new token's window starts at the same `now` as the check that creates it.
- `RequestWindow` is a value stored in the limiter's map, not a shared mutable object. No reference to it escapes the limiter, so nothing observable is lost.
- Header formatting: the three header values are integers, not their string forms or the `X-RateLimit-*` header names.
- `check_rate_limit`'s default `increment=True`: every call passes `increment` explicitly.
- The HTTP layer (application setup, CORS, bearer header parsing, 401/400/429 mapping, route handlers) and the provider parsing from headers or query parameters are not part of this model.
- Eviction of stale tokens: the engine never removes a token's window, and neither does the model.
