/**
  POST /shorten: admit the client under its per-IP quota, validate the URL,
  pick a short id, refuse an id already in use, store the mapping with its
  expiry, then consume one unit of the quota and report what is left.
 */
module Shorten {
  import opened Database
  import opened Api

  /** Lifetime of a client's rate-limit entry: 30 minutes, in seconds. */
  const Window: int := 30 * 60

  /** Expiry in hours when the request gives none. */
  const DefaultExpiry: int := 24

  /** The first 6 characters of a freshly generated UUID. */
  type GeneratedId = s: string | |s| == 6 witness "000000"

  /** The JSON body of POST /shorten: `url`, `short` and `expiry` (hours). */
  datatype Request = Request(url: string, custom: string, expiry: int)

  /** What the handler takes from outside: the API_QUOTA and DOMAIN
      environment values and the helpers it calls (`govalidator.IsURL`,
      `helpers.RemoveDomainError`, `helpers.EnforceHTTP`). */
  datatype Env = Env(
    quota: int,
    domain: string,
    isURL: string -> bool,
    domainOK: string -> bool,
    enforce: string -> string)

  /** One request: the client's IP, its body, and the UUID prefix drawn for it. */
  datatype Call = Call(ip: string, body: Request, generated: GeneratedId)

  /** The rate check either lets the request through, with the client's
      entry in place, or denies it with the minutes until the entry expires. */
  datatype Admission = Admit(limits: map<string, Entry<int>>) | Deny(resetMinutes: int)

  /** Database 1 answers and the client has no entry or one with calls left. */
  predicate Admitted(limits: map<string, Entry<int>>, ip: string, up: bool)
  {
    up && (ip in limits ==> limits[ip].value > 0)
  }

  /** The client's entry in place: a new one holds the full quota for one window. */
  function Opened(limits: map<string, Entry<int>>, ip: string, quota: int): map<string, Entry<int>>
  {
    if ip in limits then limits else limits[ip := Entry(quota, Window)]
  }

  /** Every client entry expires within one window. */
  ghost predicate WindowBounded(limits: map<string, Entry<int>>)
  {
    forall k | k in limits :: 0 < limits[k].ttl <= Window
  }

  /** The rate check: a client without an entry gets one and is let through
      without consuming anything; a client whose count is not positive, or
      whose count cannot be read, is denied and nothing is written. */
  function RateCheck(limits: map<string, Entry<int>>, ip: string, quota: int, up: bool): (a: Admission)
    ensures a.Admit? <==> Admitted(limits, ip, up)
    ensures a.Admit? ==> ip in a.limits && a.limits == Opened(limits, ip, quota)
    ensures a.Deny? ==> a.resetMinutes == WholeMinutes(TtlReply(limits, ip, up))
    ensures a.Deny? && !up ==> a.resetMinutes == 0
  {
    match Lookup(limits, ip, up)
    case Nil => Admit(limits[ip := Entry(quota, Window)])
    case Fault => Deny(WholeMinutes(TtlReply(limits, ip, up)))
    case Value(v) =>
      if v <= 0 then Deny(WholeMinutes(TtlReply(limits, ip, up))) else Admit(limits)
  }

  /** The short id: the custom one verbatim when given, else the generated one. */
  function ChooseId(custom: string, generated: GeneratedId): (id: string)
    ensures custom != "" ==> id == custom
    ensures custom == "" ==> id == generated && |id| == 6
  {
    if custom == "" then generated else custom
  }

  function IdOf(call: Call): string
  {
    ChooseId(call.body.custom, call.generated)
  }

  /** The expiry in hours the mapping is stored with. */
  function EffectiveExpiry(hours: int): (h: int)
    ensures h != 0
    ensures hours != 0 ==> h == hours
    ensures hours == 0 ==> h == DefaultExpiry
  {
    if hours == 0 then DefaultExpiry else hours
  }

  /** The id holds a non-empty value; an empty stored string counts as free. */
  predicate Taken(mappings: map<string, Entry<string>>, id: string)
  {
    id in mappings && mappings[id].value != ""
  }

  /** The URL passes the validator and is not a link to the service itself. */
  predicate Acceptable(env: Env, url: string)
  {
    env.isURL(url) && env.domainOK(url)
  }

  /** What POST /shorten answers in state `s` and the state it leaves. */
  function ShortenEffect(s: State, env: Env, net: Net, call: Call): (r: Step)
    // the checks run in order and the first failing one decides the answer
    ensures r.out.RateLimited? <==> !Admitted(s.limits, call.ip, net.limitsUp)
    ensures r.out.InvalidURL? <==>
      Admitted(s.limits, call.ip, net.limitsUp) && !env.isURL(call.body.url)
    ensures r.out.Disallowed? <==>
      Admitted(s.limits, call.ip, net.limitsUp) && env.isURL(call.body.url) && !env.domainOK(call.body.url)
    ensures r.out.InUse? <==>
      Admitted(s.limits, call.ip, net.limitsUp) && Acceptable(env, call.body.url)
      && net.mappingsUp && Taken(s.mappings, IdOf(call))
    ensures r.out.StorageError? <==>
      Admitted(s.limits, call.ip, net.limitsUp) && Acceptable(env, call.body.url) && !net.mappingsUp
    ensures r.out.Shortened? <==>
      Admitted(s.limits, call.ip, net.limitsUp) && Acceptable(env, call.body.url)
      && net.mappingsUp && !Taken(s.mappings, IdOf(call))
    // a denial writes nothing and reports the minutes left on the client's entry
    ensures r.out.RateLimited? ==>
      r.after == s && r.out.resetMinutes == WholeMinutes(TtlReply(s.limits, call.ip, net.limitsUp))
    // a later failure leaves at most the new client entry behind
    ensures !r.out.RateLimited? && !r.out.Shortened? ==>
      r.after == s.(limits := Opened(s.limits, call.ip, env.quota))
    // a success adds exactly the mapping and consumes exactly one unit
    ensures r.out.Shortened? ==>
      var before := Opened(s.limits, call.ip, env.quota)[call.ip];
      var hours := EffectiveExpiry(call.body.expiry);
      && r.after.mappings == s.mappings[IdOf(call) := Entry(env.enforce(call.body.url), hours * 3600)]
      && r.after.limits == Opened(s.limits, call.ip, env.quota)[call.ip := Entry(before.value - 1, before.ttl)]
      && r.out.resp == Response(env.enforce(call.body.url), env.domain + "/" + IdOf(call), hours,
                                before.value - 1, WholeMinutes(TtlReply(r.after.limits, call.ip, true)))
    // a mapping in use is never overwritten, and the counter is never touched
    ensures forall k | Taken(s.mappings, k) :: k in r.after.mappings && r.after.mappings[k] == s.mappings[k]
    ensures r.after.counter == s.counter
    // entries keep expiring within one window, so reported resets stay within 30 minutes
    ensures WindowBounded(s.limits) ==> WindowBounded(r.after.limits)
    ensures WindowBounded(s.limits) && r.out.RateLimited? ==> 0 <= r.out.resetMinutes <= 30
    ensures WindowBounded(s.limits) && r.out.Shortened? ==> 0 <= r.out.resp.rateResetMinutes <= 30
  {
    match RateCheck(s.limits, call.ip, env.quota, net.limitsUp)
    case Deny(reset) => Step(RateLimited(reset), s)
    case Admit(limits) =>
      var admitted := s.(limits := limits);
      if !env.isURL(call.body.url) then Step(InvalidURL, admitted)
      else if !env.domainOK(call.body.url) then Step(Disallowed, admitted)
      else
        var url := env.enforce(call.body.url);
        var id := IdOf(call);
        if TextOf(Lookup(s.mappings, id, net.mappingsUp)) != "" then Step(InUse, admitted)
        else if !net.mappingsUp then Step(StorageError, admitted)
        else
          var hours := EffectiveExpiry(call.body.expiry);
          var limits' := Decremented(limits, call.ip);
          var resp := Response(url, env.domain + "/" + id, hours,
                               limits'[call.ip].value, WholeMinutes(TtlReply(limits', call.ip, true)));
          Step(Shortened(resp), State(s.mappings[id := Entry(url, hours * 3600)], limits', s.counter))
  }

  /** The handler, step by step against the store. */
  method ShortenURL(db: Store, env: Env, net: Net, call: Call) returns (out: Outcome)
    modifies db`mappings, db`limits
    ensures Step(out, db.Snapshot()) == ShortenEffect(old(db.Snapshot()), env, net, call)
  {
    var ip := call.ip;
    var body := call.body;

    // rate limiting in database 1
    var val := db.GetLimit(ip, net.limitsUp);
    if val.Nil? {
      db.SetLimit(ip, env.quota, Window, net.limitsUp);
    } else {
      val := db.GetLimit(ip, net.limitsUp);
      var valInt := NumberOf(val);
      if valInt <= 0 {
        var limit := db.TtlLimit(ip, net.limitsUp);
        return RateLimited(WholeMinutes(limit));
      }
    }

    if !env.isURL(body.url) {
      return InvalidURL;
    }
    if !env.domainOK(body.url) {
      return Disallowed;
    }
    var url := env.enforce(body.url);

    var id: string;
    if body.custom == "" {
      id := call.generated;
    } else {
      id := body.custom;
    }

    // collision check and write in database 0
    var existing := db.GetMapping(id, net.mappingsUp);
    if TextOf(existing) != "" {
      return InUse;
    }
    var expiry := body.expiry;
    if expiry == 0 {
      expiry := DefaultExpiry;
    }
    var ok := db.SetMapping(id, url, expiry * 3600, net.mappingsUp);
    if !ok {
      return StorageError;
    }

    // consume one unit and read back what is left
    db.DecrLimit(ip, net.limitsUp);
    val := db.GetLimit(ip, net.limitsUp);
    var ttl := db.TtlLimit(ip, net.limitsUp);
    out := Shortened(Response(url, env.domain + "/" + id, expiry, NumberOf(val), WholeMinutes(ttl)));
  }

  /** Total of a sequence of time gaps, in seconds. */
  function Sum(gaps: seq<nat>): nat
  {
    if gaps == [] then 0 else gaps[0] + Sum(gaps[1..])
  }

  /** Several requests handled one after another; `gaps[i]` seconds pass on
      the server before request `i` arrives. */
  function Run(s: State, env: Env, net: Net, calls: seq<Call>, gaps: seq<nat>): (steps: seq<Step>)
    requires |gaps| == |calls|
    ensures |steps| == |calls|
    ensures forall i | 0 <= i < |steps| :: steps[i].after.counter == s.counter
    decreases |calls|
  {
    if calls == [] then []
    else
      var first := ShortenEffect(Elapse(s, gaps[0]), env, net, calls[0]);
      [first] + Run(first.after, env, net, calls[1..], gaps[1..])
  }

  /** Requests from client `ip` that pass validation and ask for distinct ids
      not taken in `mappings`. */
  ghost predicate GoodCalls(env: Env, ip: string, mappings: map<string, Entry<string>>, calls: seq<Call>)
  {
    && (forall i | 0 <= i < |calls| :: calls[i].ip == ip && Acceptable(env, calls[i].body.url))
    && (forall i | 0 <= i < |calls| :: !Taken(mappings, IdOf(calls[i])))
    && (forall i, j | 0 <= i < j < |calls| :: IdOf(calls[i]) != IdOf(calls[j]))
  }

  /** What one request of a client reports: a success with `remaining` calls
      left and `reset` minutes to go, or a denial with the same `reset`. */
  ghost predicate Reports(st: Step, admitted: bool, remaining: int, reset: int)
  {
    if admitted then
      && st.out.Shortened?
      && st.out.resp.rateRemaining == remaining
      && st.out.resp.rateResetMinutes == reset
    else
      st.out == RateLimited(reset)
  }

  /** An admitted, valid request whose id is free succeeds, and the requests
      after it still ask for ids that are free. */
  lemma SuccessKeepsIdsFree(s: State, env: Env, net: Net, ip: string, calls: seq<Call>)
    requires net.limitsUp && net.mappingsUp && calls != []
    requires Admitted(s.limits, ip, true)
    requires GoodCalls(env, ip, s.mappings, calls)
    ensures var first := ShortenEffect(s, env, net, calls[0]);
      && first.out.Shortened?
      && ip in first.after.limits
      && first.after.limits[ip] == Entry(Opened(s.limits, ip, env.quota)[ip].value - 1,
                                         Opened(s.limits, ip, env.quota)[ip].ttl)
      && GoodCalls(env, ip, first.after.mappings, calls[1..])
  {
  }

  /** Expiry only frees ids: requests that found their ids free still do. */
  lemma ElapseKeepsIdsFree(s: State, env: Env, ip: string, calls: seq<Call>, dt: nat)
    requires GoodCalls(env, ip, s.mappings, calls)
    ensures GoodCalls(env, ip, Elapse(s, dt).mappings, calls)
  {
  }

  /** A run is its first request, handled after the first gap, followed by
      the run of the remaining requests from the state that request leaves. */
  lemma RunFirst(s: State, env: Env, net: Net, calls: seq<Call>, gaps: seq<nat>)
    requires |gaps| == |calls| && calls != []
    ensures var steps := Run(s, env, net, calls, gaps);
      && steps[0] == ShortenEffect(Elapse(s, gaps[0]), env, net, calls[0])
      && steps[1..] == Run(steps[0].after, env, net, calls[1..], gaps[1..])
  {
  }

  /** The first of several requests from a client whose entry outlives the
      first gap: it is admitted iff calls are left, reports the minutes left
      on the entry, and leaves the entry that much older, one unit lower
      when it succeeded. */
  lemma FirstOfMany(s: State, env: Env, net: Net, ip: string, calls: seq<Call>, dt: nat)
    requires net.limitsUp && net.mappingsUp && calls != []
    requires ip in s.limits && dt < s.limits[ip].ttl
    requires GoodCalls(env, ip, s.mappings, calls)
    ensures var e := s.limits[ip];
      var first := ShortenEffect(Elapse(s, dt), env, net, calls[0]);
      && Reports(first, 0 < e.value, e.value - 1, WholeMinutes(e.ttl - dt))
      && ip in first.after.limits
      && first.after.limits[ip] == Entry(if 0 < e.value then e.value - 1 else e.value, e.ttl - dt)
      && GoodCalls(env, ip, first.after.mappings, calls[1..])
  {
    var t := Elapse(s, dt);
    assert t.limits[ip] == Entry(s.limits[ip].value, s.limits[ip].ttl - dt);
    ElapseKeepsIdsFree(s, env, ip, calls, dt);
    if 0 < s.limits[ip].value {
      SuccessKeepsIdsFree(t, env, net, ip, calls);
    }
  }

  /** The total of the first i+1 gaps is the first gap plus the total of the
      next i. */
  lemma {:induction false} SumSplit(gaps: seq<nat>, i: nat)
    requires i < |gaps|
    ensures Sum(gaps[..i + 1]) == gaps[0] + Sum(gaps[1..][..i])
    ensures Sum(gaps) == gaps[0] + Sum(gaps[1..])
  {
    assert gaps[..i + 1][1..] == gaps[1..][..i];
  }

  /** The first request of a client without an entry is admitted with a
      30-minute window, whatever time has passed before it. */
  lemma FirstOfFresh(s: State, env: Env, net: Net, ip: string, calls: seq<Call>, dt: nat)
    requires net.limitsUp && net.mappingsUp && calls != []
    requires ip !in s.limits
    requires GoodCalls(env, ip, s.mappings, calls)
    ensures var first := ShortenEffect(Elapse(s, dt), env, net, calls[0]);
      && Reports(first, true, env.quota - 1, 30)
      && ip in first.after.limits
      && first.after.limits[ip] == Entry(env.quota - 1, Window)
      && GoodCalls(env, ip, first.after.mappings, calls[1..])
  {
    var t := Elapse(s, dt);
    assert ip !in t.limits;
    ElapseKeepsIdsFree(s, env, ip, calls, dt);
    SuccessKeepsIdsFree(t, env, net, ip, calls);
  }

  /** Requests `steps` of one client counting down from `left` calls left
      on an entry with `ttl` seconds to live: request i succeeds with
      left-1-i calls left iff i < left, and is otherwise denied; either way
      it reports the minutes left on the entry once `gaps[..i + 1]` have
      passed. */
  ghost predicate CountsDown(steps: seq<Step>, gaps: seq<nat>, left: int, ttl: int)
  {
    forall i | 0 <= i < |steps| && i < |gaps| ::
      Reports(steps[i], i < left, left - 1 - i, WholeMinutes(ttl - Sum(gaps[..i + 1])))
  }

  /** A countdown is the report of its first request followed by the
      countdown from the entry that request leaves behind. */
  lemma {:induction false} ShiftReports(steps: seq<Step>, gaps: seq<nat>, ttl: int, ttl': int, left: int, next: int)
    requires |steps| == |gaps| && steps != []
    requires ttl' == ttl - gaps[0] && next == if 0 < left then left - 1 else left
    requires Reports(steps[0], 0 < left, left - 1, WholeMinutes(ttl'))
    requires CountsDown(steps[1..], gaps[1..], next, ttl')
    ensures CountsDown(steps, gaps, left, ttl)
  {
    forall i | 0 <= i < |steps|
      ensures Reports(steps[i], i < left, left - 1 - i, WholeMinutes(ttl - Sum(gaps[..i + 1])))
    {
      SumSplit(gaps, i);
      if i == 0 {
        assert gaps[1..][..0] == [];
      } else {
        assert steps[i] == steps[1..][i - 1];
        assert Reports(steps[1..][i - 1], i - 1 < next, next - 1 - (i - 1),
                       WholeMinutes(ttl' - Sum(gaps[1..][..i - 1 + 1])));
      }
    }
  }

  /** One step of the countdown: after the first request the client's
      entry holds the next count and still outlives the remaining gaps, the
      remaining ids are still free, and a countdown of the remaining
      requests from there makes a countdown of them all. */
  lemma CountdownStep(s: State, env: Env, net: Net, ip: string, calls: seq<Call>, gaps: seq<nat>, left: int)
    requires net.limitsUp && net.mappingsUp
    requires |gaps| == |calls| && calls != []
    requires ip in s.limits && s.limits[ip].value == left
    requires Sum(gaps) < s.limits[ip].ttl
    requires GoodCalls(env, ip, s.mappings, calls)
    ensures var steps := Run(s, env, net, calls, gaps);
      var after := steps[0].after;
      && ip in after.limits
      && after.limits[ip].value == (if 0 < left then left - 1 else left)
      && Sum(gaps[1..]) < after.limits[ip].ttl
      && GoodCalls(env, ip, after.mappings, calls[1..])
      && (CountsDown(Run(after, env, net, calls[1..], gaps[1..]), gaps[1..], after.limits[ip].value, after.limits[ip].ttl)
          ==> CountsDown(steps, gaps, left, s.limits[ip].ttl))
  {
    SumSplit(gaps, 0);
    RunFirst(s, env, net, calls, gaps);
    FirstOfMany(s, env, net, ip, calls, gaps[0]);
    var steps := Run(s, env, net, calls, gaps);
    var after := steps[0].after;
    var tail := Run(after, env, net, calls[1..], gaps[1..]);
    assert steps[1..] == tail;
    if CountsDown(tail, gaps[1..], after.limits[ip].value, after.limits[ip].ttl) {
      ShiftReports(steps, gaps, s.limits[ip].ttl, after.limits[ip].ttl, left, after.limits[ip].value);
    }
  }

  /** A client with `left` calls left on an entry that still has `ttl`
      seconds to live gets exactly `left` more successes, reporting left-1
      down to 0, and is denied after that, as long as the gaps between the
      calls add up to less than `ttl`. Every answer reports the minutes left
      on the entry at that moment. */
  lemma {:induction false} Countdown(s: State, env: Env, net: Net, ip: string, calls: seq<Call>, gaps: seq<nat>, left: int)
    requires net.limitsUp && net.mappingsUp
    requires |gaps| == |calls|
    requires ip in s.limits && s.limits[ip].value == left
    requires Sum(gaps) < s.limits[ip].ttl
    requires GoodCalls(env, ip, s.mappings, calls)
    ensures CountsDown(Run(s, env, net, calls, gaps), gaps, left, s.limits[ip].ttl)
    decreases |calls|
  {
    if calls != [] {
      CountdownStep(s, env, net, ip, calls, gaps, left);
      var after := Run(s, env, net, calls, gaps)[0].after;
      Countdown(after, env, net, ip, calls[1..], gaps[1..], after.limits[ip].value);
    }
  }

  /** Requests `steps` of a client that had no entry and quota Q: the first
      and every request i < Q succeed with Q-1-i calls left, the others are
      denied, and each reports the minutes left in the window opened by the
      first once `gaps[1..i + 1]` have passed since it. */
  ghost predicate FreshCountsDown(steps: seq<Step>, gaps: seq<nat>, quota: int)
  {
    forall i | 0 <= i < |steps| && i < |gaps| ::
      Reports(steps[i], i == 0 || i < quota, quota - 1 - i, WholeMinutes(Window - Sum(gaps[1..i + 1])))
  }

  /** A client with no entry and quota Q: calls 1..Q report Q-1 down to 0
      and every later call is denied, as long as they all come less than 30
      minutes after the first one. Every answer reports the minutes left
      until the window opened by the first call closes. A quota below 1
      still admits the first call. */
  lemma FreshClient(s: State, env: Env, net: Net, ip: string, calls: seq<Call>, gaps: seq<nat>)
    requires net.limitsUp && net.mappingsUp
    requires |gaps| == |calls|
    requires ip !in s.limits
    requires calls != [] ==> Sum(gaps[1..]) < Window
    requires GoodCalls(env, ip, s.mappings, calls)
    ensures FreshCountsDown(Run(s, env, net, calls, gaps), gaps, env.quota)
  {
    if calls != [] {
      FreshStep(s, env, net, ip, calls, gaps);
      var after := Run(s, env, net, calls, gaps)[0].after;
      Countdown(after, env, net, ip, calls[1..], gaps[1..], env.quota - 1);
    }
  }

  /** The first request of a fresh client opens an entry of Q-1 for one
      window, and a countdown of the remaining requests from there makes
      the fresh client's countdown. */
  lemma FreshStep(s: State, env: Env, net: Net, ip: string, calls: seq<Call>, gaps: seq<nat>)
    requires net.limitsUp && net.mappingsUp
    requires |gaps| == |calls| && calls != []
    requires ip !in s.limits
    requires GoodCalls(env, ip, s.mappings, calls)
    ensures var steps := Run(s, env, net, calls, gaps);
      var after := steps[0].after;
      && ip in after.limits
      && after.limits[ip] == Entry(env.quota - 1, Window)
      && GoodCalls(env, ip, after.mappings, calls[1..])
      && (CountsDown(Run(after, env, net, calls[1..], gaps[1..]), gaps[1..], env.quota - 1, Window)
          ==> FreshCountsDown(steps, gaps, env.quota))
  {
    RunFirst(s, env, net, calls, gaps);
    FirstOfFresh(s, env, net, ip, calls, gaps[0]);
    var steps := Run(s, env, net, calls, gaps);
    if CountsDown(Run(steps[0].after, env, net, calls[1..], gaps[1..]), gaps[1..], env.quota - 1, Window) {
      FreshThenCountdown(steps, gaps, env.quota);
    }
  }

  /** The requests of a fresh client: the first succeeds with Q-1 left and
      a 30-minute reset, and the rest count down from Q-1 in that window. */
  lemma {:induction false} FreshThenCountdown(steps: seq<Step>, gaps: seq<nat>, quota: int)
    requires |steps| == |gaps| && steps != []
    requires Reports(steps[0], true, quota - 1, 30)
    requires CountsDown(steps[1..], gaps[1..], quota - 1, Window)
    ensures FreshCountsDown(steps, gaps, quota)
  {
    forall i | 0 <= i < |steps|
      ensures Reports(steps[i], i == 0 || i < quota, quota - 1 - i, WholeMinutes(Window - Sum(gaps[1..i + 1])))
    {
      if i == 0 {
        assert gaps[1..1] == [];
      } else {
        assert gaps[1..][..i - 1 + 1] == gaps[1..i + 1];
        assert steps[i] == steps[1..][i - 1];
      }
    }
  }

  /** Letting time pass keeps every client entry within one window. */
  lemma ElapseKeepsWindow(s: State, dt: nat)
    requires WindowBounded(s.limits)
    ensures WindowBounded(Elapse(s, dt).limits)
  {
  }

  /** Once a whole window has passed, every client entry is gone, and the
      next request is admitted with a fresh quota. */
  lemma WindowReset(s: State, env: Env, net: Net, call: Call, dt: nat)
    requires WindowBounded(s.limits) && dt >= Window && net.limitsUp
    ensures Elapse(s, dt).limits == map[]
    ensures var r := ShortenEffect(Elapse(s, dt), env, net, call);
      && !r.out.RateLimited?
      && call.ip in r.after.limits
      && r.after.limits[call.ip] == Entry(if r.out.Shortened? then env.quota - 1 else env.quota, Window)
  {
  }
}
