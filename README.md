# URL shortener: shorten and resolve handlers

A model of the two request handlers of a Go URL-shortening service backed by
Redis. `ShortenURL` (POST /shorten) rate-limits each client IP, validates the
URL, picks a short id, refuses an id already in use, stores the mapping with
an expiry, then consumes one unit of the client's quota and reports what is
left. `ResolveURL` (GET /:url) looks the id up, redirects to the stored URL
with 301 and bumps a global access counter.

The Redis server is modelled by `Database`: database 0 holds the mappings
(`id -> url` with a TTL in seconds), database 1 holds one rate-limit entry per
client IP (remaining count with a TTL) and the global `"counter"` key. The
`Store` class carries the commands the handlers send (GET, SET, DECR, TTL,
INCR) and a clock step, `Advance`, that lets keys expire. Whether each
database answers during a request is an input (`Net`), so every error answer
of the handlers is reachable.

Each handler is modelled twice:

- a specification function (`ShortenEffect`, `ResolveEffect`) that gives the
  answer and the new contents of both databases, with the promises of the
  handler as its postconditions;
- a method (`ShortenURL`, `ResolveURL`) that runs the handler command by
  command against a `Store`, proved to produce exactly what the function
  says.

Lemmas about the specification cover several requests in a row, with time
passing between them (the quota countdown within a window, the fresh quota
after a window, the round trip from shorten to resolve and the expiry of a
link).

The helpers the handlers call and the process environment are inputs (`Env`):

- `govalidator.IsURL` is `isURL`;
- `helpers.RemoveDomainError` is `domainOK`;
- `helpers.EnforceHTTP` is `enforce`;
- `API_QUOTA` is `quota`;
- `DOMAIN` is `domain`.

The six characters cut from a fresh UUID are an input of each call
(`GeneratedId`, a string of length 6).

Two behaviours of the code that a reader might not expect:

- A store fault during the rate check is reported as "rate limit exceeded"
  (with a reset of 0 minutes), not as a connectivity error. The failed read
  leaves an empty string, and `strconv.Atoi` turns it into 0.
- The access counter is incremented only when the id is found, not on every
  resolution attempt.

## Model

| member | source | states |
|---|---|---|
| `Database.Store.GetMapping` | api/routes/resolve.go:24 | GET in database 0 answers the stored value, Nil for a missing key, or a fault when the database is unreachable |
| `Database.Store.SetMapping` | api/routes/shorten.go:124 | SET in database 0 succeeds iff the database answers, and then the key holds exactly the new value and TTL, every other key unchanged |
| `Database.Store.GetLimit` | api/routes/shorten.go:64 | GET in database 1, with the same three answers |
| `Database.Store.SetLimit` | api/routes/shorten.go:66 | SET in database 1 writes exactly the client's entry when the database answers |
| `Database.Store.DecrLimit` | api/routes/shorten.go:138 | DECR lowers the client's count by one and keeps its expiry (a missing key becomes -1) |
| `Database.Store.TtlLimit` | api/routes/shorten.go:71 | TTL answers the remaining seconds, or 0 when the command fails |
| `Database.Store.IncrCounter` | api/routes/resolve.go:37 | INCR "counter" raises the counter by exactly one when database 1 answers and leaves it otherwise |
| `Database.Store.Advance` | api/routes/shorten.go:124 | letting time pass removes exactly the keys whose expiry has come and shortens the others' TTL |
| `Database.TextOf` | api/routes/shorten.go:114-116 | the string a handler holds after a GET whose error it ignores: exactly the stored value when one was read, and the empty string after a missing key or a failed read |
| `Database.NumberOf` | api/routes/shorten.go:68-69 | the count a handler holds after a GET and `strconv.Atoi` whose errors it ignores: exactly the stored count when one was read, and 0 after a missing key or a failed read |
| `Database.TtlReply` | api/routes/shorten.go:141 | a positive TTL result is exactly the remaining lifetime of a key that exists in a reachable database |
| `Database.Decremented` | api/routes/shorten.go:138 | DECR changes only the decremented key, by exactly one, keeping its TTL |
| `Database.Tick` | api/routes/shorten.go:66 | after `dt` seconds a key survives iff it had no expiry or more than `dt` seconds left, keeps its value, and its TTL drops by `dt` |
| `Api.StatusCode` | api/routes/shorten.go:70-129 | a created link answers 200 and a redirect 301, and only these are successes; rate limiting and a self-referencing domain answer 503, an invalid URL 400, an id in use 403, an unknown id 404 and a failed write or lookup 500 (the codes of GET /:url are stated again, per answer, on `Resolve.ResolveEffect`) |
| `Api.WholeMinutes` | api/routes/shorten.go:74 | the reset is the TTL in whole minutes, truncated toward zero as Go's division does |
| `Shorten.RateCheck` | api/routes/shorten.go:62-77 | a request is let through iff database 1 answers and the client has no entry or a positive count; a new client gets an entry of `quota` for 1800 s without consuming any of it; a denial carries the TTL in whole minutes, 0 when the store failed |
| `Shorten.ChooseId` | api/routes/shorten.go:104-109 | the id is the custom short verbatim when it is non-empty, else the generated 6-character id |
| `Shorten.EffectiveExpiry` | api/routes/shorten.go:121-123 | an expiry of 0 becomes 24 hours, any other is kept, so the stored expiry is never 0 |
| `Shorten.ShortenEffect` | api/routes/shorten.go:48-146 | each outcome occurs exactly when all earlier checks pass and its own check fails: rate limit, URL validity, domain, id in use, storage failure. A denial changes nothing. Every later failure leaves at most the new client entry, with no mapping written and no decrement. A success adds exactly `id -> EnforceHTTP(url)` with TTL expiry×3600, lowers the client's count by exactly one and reports it with the reset minutes. A non-empty mapping is never overwritten, the counter is never touched, and entries keep expiring within 30 minutes |
| `Shorten.ShortenURL` | api/routes/shorten.go:48-146 | the handler, run command by command against the store, gives exactly the answer and the store contents of `ShortenEffect` |
| `Shorten.Run` | api/routes/shorten.go:57-61 | handling requests one after another, with given time gaps before each, gives one answer per request and never touches the access counter |
| `Shorten.SuccessKeepsIdsFree` | api/routes/shorten.go:114-138 | an admitted, valid request with a free id succeeds, consumes one unit, and leaves the distinct ids of the following requests free |
| `Shorten.FirstOfMany` | api/routes/shorten.go:67-142 | after any gap shorter than the client's entry's TTL, a valid request with a free id succeeds iff calls are left, reports the minutes left on the entry, and leaves the entry that much older and one unit lower on success |
| `Shorten.FirstOfFresh` | api/routes/shorten.go:64-66 | the first valid request of a client without an entry succeeds with quota-1 left and a 30-minute reset, and opens an entry of quota-1 for 1800 s |
| `Shorten.ShiftReports` | api/routes/shorten.go:67-142 | a countdown from `left` is the first request's report followed by the countdown from the entry it leaves behind |
| `Shorten.CountdownStep` | api/routes/shorten.go:67-142 | after the first request of a client with an entry, the entry holds the next count and still outlives the remaining gaps, and the remaining ids are still free |
| `Shorten.FreshStep` | api/routes/shorten.go:64-142 | after the first request of a client without an entry, the entry holds quota-1 for 30 minutes and the remaining ids are still free |
| `Shorten.Countdown` | api/routes/shorten.go:67-142 | a client with `left` calls left, whose requests all arrive before its entry expires, gets exactly `left` more successes, reporting left-1 down to 0, and every later call is rate-limited; each answer reports the whole minutes left on the entry at the time it arrives |
| `Shorten.FreshClient` | api/routes/shorten.go:57-142 | starting with no entry and quota Q, if all later calls arrive within 30 minutes of the first, calls 1..Q report Q-1 down to 0 and the next calls are rate-limited; each answer reports the whole minutes left in the 30-minute window opened by the first call (a quota below 1 still lets the first call through) |
| `Shorten.ElapseKeepsWindow` | api/routes/shorten.go:66 | letting time pass keeps every client entry expiring within 30 minutes |
| `Shorten.WindowReset` | api/routes/shorten.go:64-66 | once 30 minutes have passed every client entry is gone, and the next request is admitted with a fresh entry of the full quota |
| `Resolve.ResolveEffect` | api/routes/resolve.go:15-41 | NotFound iff the id is missing, StorageError iff database 0 is unreachable, otherwise a 301 to exactly the stored value; the status sent is 404, 500 and 301 respectively; neither database's keys change, and the counter rises by exactly one only on a hit |
| `Resolve.ResolveURL` | api/routes/resolve.go:15-41 | the handler, run command by command against the store, gives exactly the answer and the store contents of `ResolveEffect`, changing nothing but the counter |
| `Lifecycle.RoundTrip` | api/routes/resolve.go:24-39 | after a successful shorten and before its mapping expires, resolving the id redirects to `EnforceHTTP(url)` |
| `Lifecycle.ExpiredNotFound` | api/routes/shorten.go:124 | once the mapping's expiry has passed, resolving its id answers not found |
| `Lifecycle.ShortenThenResolve` | api/routes/resolve.go:24-39 | running the two handlers back to back with both databases reachable gives exactly the answers and the final store of `ShortenEffect` followed by `ResolveEffect`; a created link resolves to the normalised URL, and the returned short link is `DOMAIN + "/" + id` |

## Left out

- HTTP plumbing: JSON body parsing (and its 400 answer), the JSON response maps and `c.Redirect` are not modelled; outcomes are a datatype and `StatusCode` gives their status.
- Redis connections (`database.CreateClient`, `Close`) are not modelled; reachability of each database is a per-request input rather than something that can change between two commands of one request. So a SET at api/routes/shorten.go:66 failing after its GET answered, and a DECR at api/routes/shorten.go:138 failing after the rate check passed (which the code would still answer with success, reporting whatever the next GET reads), are not modelled.
- `govalidator.IsURL`, `helpers.RemoveDomainError`, `helpers.EnforceHTTP` and the UUID generator are not part of this model; they are inputs.
- `API_QUOTA` is taken as an integer; an environment value that does not parse as a number is not modelled.
- The `"counter"` key shares database 1 with the client entries; the model keeps it in its own field, assuming no client IP is the string "counter".
- A mapping written with a non-positive duration has no expiry (the Redis client sends no expiry then); the nanosecond overflow of `expiry*3600*time.Second` is not modelled, expiries are unbounded integers.
- Redis TTL results are in whole seconds; go-redis reports its -1/-2 sentinels as nanoseconds, which give 0 whole minutes either way.
- Concurrency: the check-then-decrement race between two requests of one client, and a rate entry expiring between the check and the DECR, are not modelled; requests run one at a time.
