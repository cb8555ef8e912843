/**
  The Redis server both handlers talk to, reduced to what they use: database 0
  holds the short-id mappings, database 1 holds one rate-limit entry per client
  IP and the global access counter. Every key may carry a time to live.
 */
module Database {

  /** A stored value with its remaining time to live in seconds; a
      non-positive `ttl` stands for a key written without an expiry. */
  datatype Entry<V> = Entry(value: V, ttl: int)

  /** What a GET answers: the stored value, `redis.Nil` for a missing key,
      or an error because the database could not be reached. */
  datatype Reply<V> = Value(value: V) | Nil | Fault

  /** The contents of both databases at one instant. `counter` is the key
      "counter" of database 1, kept apart from the client entries. */
  datatype State = State(
    mappings: map<string, Entry<string>>,
    limits: map<string, Entry<int>>,
    counter: int)

  /** GET `key` from a database that answers iff `up`. */
  function Lookup<V>(m: map<string, Entry<V>>, key: string, up: bool): Reply<V>
  {
    if !up then Fault else if key in m then Value(m[key].value) else Nil
  }

  /** The string a Go caller holds after `val, _ = r.Get(...).Result()`:
      the empty string unless the key was read. */
  function TextOf(r: Reply<string>): (t: string)
    ensures r.Value? ==> t == r.value
    ensures t != "" ==> r.Value?
  {
    if r.Value? then r.value else ""
  }

  /** `strconv.Atoi` of a value read from database 1 with its error ignored:
      a missing key or a failed read leaves the empty string, which parses as 0. */
  function NumberOf(r: Reply<int>): (n: int)
    ensures r.Value? ==> n == r.value
    ensures n != 0 ==> r.Value?
  {
    if r.Value? then r.value else 0
  }

  /** TTL `key` in seconds as go-redis reports it: the zero duration when the
      command fails, -2 for a missing key, -1 for a key without expiry. */
  function TtlReply<V>(m: map<string, Entry<V>>, key: string, up: bool): (t: int)
    ensures up && key in m && m[key].ttl > 0 ==> t == m[key].ttl
    ensures t > 0 ==> up && key in m && t == m[key].ttl
  {
    if !up then 0
    else if key !in m then -2
    else if m[key].ttl > 0 then m[key].ttl
    else -1
  }

  /** DECR `key`: the value drops by one and the expiry is kept; a missing
      key is created as -1 without expiry. */
  function Decremented(m: map<string, Entry<int>>, key: string): (r: map<string, Entry<int>>)
    ensures key in r && r.Keys == m.Keys + {key}
    ensures key in m ==> r[key] == Entry(m[key].value - 1, m[key].ttl)
    ensures forall k | k in m && k != key :: r[k] == m[k]
  {
    if key in m then m[key := m[key].(value := m[key].value - 1)]
    else m[key := Entry(-1, 0)]
  }

  /** The key has an expiry and it falls within the next `dt` seconds. */
  predicate ExpiredAfter<V>(e: Entry<V>, dt: nat)
  {
    0 < e.ttl <= dt
  }

  /** A database `dt` seconds later: keys whose expiry has passed are gone,
      the others keep their value and have `dt` seconds less to live. */
  function Tick<V>(m: map<string, Entry<V>>, dt: nat): (r: map<string, Entry<V>>)
    ensures forall k :: k in r <==> k in m && !ExpiredAfter(m[k], dt)
    ensures forall k | k in r :: r[k].value == m[k].value
    ensures forall k | k in r :: m[k].ttl > 0 ==> 0 < r[k].ttl == m[k].ttl - dt
    ensures forall k | k in r :: m[k].ttl <= 0 ==> r[k].ttl == m[k].ttl
  {
    map k | k in m && !ExpiredAfter(m[k], dt) ::
      if m[k].ttl > 0 then m[k].(ttl := m[k].ttl - dt) else m[k]
  }

  /** Both databases `dt` seconds later; the counter never expires. */
  function Elapse(s: State, dt: nat): State
  {
    State(Tick(s.mappings, dt), Tick(s.limits, dt), s.counter)
  }

  /** The Redis server, with the commands the handlers send to it. Whether a
      database answers is given per call by `up`. */
  class Store {
    var mappings: map<string, Entry<string>>
    var limits: map<string, Entry<int>>
    var counter: int

    function Snapshot(): State
      reads this
    {
      State(mappings, limits, counter)
    }

    constructor ()
      ensures Snapshot() == State(map[], map[], 0)
    {
      mappings, limits, counter := map[], map[], 0;
    }

    /** GET in database 0. */
    method GetMapping(key: string, up: bool) returns (r: Reply<string>)
      ensures r == Lookup(mappings, key, up)
    {
      if !up {
        r := Fault;
      } else if key in mappings {
        r := Value(mappings[key].value);
      } else {
        r := Nil;
      }
    }

    /** SET with expiry in database 0; reports whether it succeeded. */
    method SetMapping(key: string, value: string, ttl: int, up: bool) returns (ok: bool)
      modifies this`mappings
      ensures ok == up
      ensures mappings == if up then old(mappings)[key := Entry(value, ttl)] else old(mappings)
    {
      ok := up;
      if up {
        mappings := mappings[key := Entry(value, ttl)];
      }
    }

    /** GET in database 1. */
    method GetLimit(key: string, up: bool) returns (r: Reply<int>)
      ensures r == Lookup(limits, key, up)
    {
      if !up {
        r := Fault;
      } else if key in limits {
        r := Value(limits[key].value);
      } else {
        r := Nil;
      }
    }

    /** SET with expiry in database 1; the handler ignores its error. */
    method SetLimit(key: string, value: int, ttl: int, up: bool)
      modifies this`limits
      ensures limits == if up then old(limits)[key := Entry(value, ttl)] else old(limits)
    {
      if up {
        limits := limits[key := Entry(value, ttl)];
      }
    }

    /** DECR in database 1; the handler ignores its error. */
    method DecrLimit(key: string, up: bool)
      modifies this`limits
      ensures limits == if up then Decremented(old(limits), key) else old(limits)
    {
      if up {
        if key in limits {
          var e := limits[key];
          limits := limits[key := Entry(e.value - 1, e.ttl)];
        } else {
          limits := limits[key := Entry(-1, 0)];
        }
      }
    }

    /** TTL in database 1. */
    method TtlLimit(key: string, up: bool) returns (secs: int)
      ensures secs == TtlReply(limits, key, up)
    {
      if !up {
        secs := 0;
      } else if key !in limits {
        secs := -2;
      } else if limits[key].ttl > 0 {
        secs := limits[key].ttl;
      } else {
        secs := -1;
      }
    }

    /** INCR "counter" in database 1; the handler ignores its error. */
    method IncrCounter(up: bool)
      modifies this`counter
      ensures counter == if up then old(counter) + 1 else old(counter)
    {
      if up {
        counter := counter + 1;
      }
    }

    /** The server's clock moves on by `dt` seconds. */
    method Advance(dt: nat)
      modifies this`mappings, this`limits
      ensures Snapshot() == Elapse(old(Snapshot()), dt)
    {
      mappings := Tick(mappings, dt);
      limits := Tick(limits, dt);
    }
  }
}
