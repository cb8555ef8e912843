/** A short link from its creation to its resolution. */
module Lifecycle {
  import opened Database
  import opened Api
  import opened Shorten
  import opened Resolve

  /** After a successful shorten, and as long as the mapping has not expired,
      resolving its id redirects to the URL as normalised to HTTPS. */
  lemma RoundTrip(s: State, env: Env, net: Net, call: Call, dt: nat, later: Net)
    requires ShortenEffect(s, env, net, call).out.Shortened?
    requires var ttl := EffectiveExpiry(call.body.expiry) * 3600; ttl <= 0 || dt < ttl
    requires later.mappingsUp
    ensures var t := Elapse(ShortenEffect(s, env, net, call).after, dt);
      ResolveEffect(t, later, IdOf(call)).out == Redirect(env.enforce(call.body.url))
  {
  }

  /** Once the mapping's expiry has passed, resolving its id finds nothing. */
  lemma ExpiredNotFound(s: State, env: Env, net: Net, call: Call, dt: nat, later: Net)
    requires ShortenEffect(s, env, net, call).out.Shortened?
    requires var ttl := EffectiveExpiry(call.body.expiry) * 3600; 0 < ttl <= dt
    requires later.mappingsUp
    ensures var t := Elapse(ShortenEffect(s, env, net, call).after, dt);
      ResolveEffect(t, later, IdOf(call)).out == NotFound
  {
  }

  /** The same round trip through the handlers themselves, with both
      databases reachable and no time passing. */
  method ShortenThenResolve(db: Store, env: Env, call: Call) returns (created: Outcome, resolved: Outcome)
    modifies db
    ensures created.Shortened? ==> resolved == Redirect(env.enforce(call.body.url))
    ensures created.Shortened? ==> created.resp.short == env.domain + "/" + IdOf(call)
    ensures var up := Net(true, true);
      var shortened := ShortenEffect(old(db.Snapshot()), env, up, call);
      && created == shortened.out
      && Step(resolved, db.Snapshot()) == ResolveEffect(shortened.after, up, IdOf(call))
  {
    var up := Net(true, true);
    created := ShortenURL(db, env, up, call);
    resolved := ResolveURL(db, up, IdOf(call));
  }
}
