/**
  GET /:url: look the short id up in database 0 and redirect to the stored
  URL, bumping the global access counter in database 1 on a hit.
 */
module Resolve {
  import opened Database
  import opened Api

  /** What GET /:url answers in state `s` and the state it leaves. */
  function ResolveEffect(s: State, net: Net, id: string): (r: Step)
    // neither database's keys are ever written
    ensures r.after.mappings == s.mappings && r.after.limits == s.limits
    ensures r.out.StorageError? <==> !net.mappingsUp
    ensures r.out.NotFound? <==> net.mappingsUp && id !in s.mappings
    ensures r.out.Redirect? <==> net.mappingsUp && id in s.mappings
    ensures r.out.Redirect? ==> r.out.target == s.mappings[id].value
    // the status sent: 500 when database 0 fails, 404 for an unknown id, 301 otherwise
    ensures StatusCode(r.out) == if !net.mappingsUp then 500 else if id !in s.mappings then 404 else 301
    // the counter moves only on a hit, by exactly one, and only if it can be reached
    ensures r.after.counter == if r.out.Redirect? && net.limitsUp then s.counter + 1 else s.counter
  {
    match Lookup(s.mappings, id, net.mappingsUp)
    case Nil => Step(NotFound, s)
    case Fault => Step(StorageError, s)
    case Value(v) => Step(Redirect(v), s.(counter := if net.limitsUp then s.counter + 1 else s.counter))
  }

  /** The handler, step by step against the store. */
  method ResolveURL(db: Store, net: Net, id: string) returns (out: Outcome)
    modifies db`counter
    ensures Step(out, db.Snapshot()) == ResolveEffect(old(db.Snapshot()), net, id)
  {
    var value := db.GetMapping(id, net.mappingsUp);
    if value.Nil? {
      return NotFound;
    } else if value.Fault? {
      return StorageError;
    }
    // the increment's error is dropped
    db.IncrCounter(net.limitsUp);
    return Redirect(value.value);
  }
}
