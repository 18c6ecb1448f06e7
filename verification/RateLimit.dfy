/** The request counter kept in Redis, over timed runs.

    Every hit, denied ones included, increments the key's counter and renews its expiry.  Times and
    windows are whole seconds.
  */
module RateLimit {
  import opened Wrappers

  datatype Counter = Counter(count: nat, expires: int)

  // The limit and the window of a key; both are fixed by the route the key names.
  datatype Config = Config(limit: string -> int, window: string -> int)

  datatype Hit = Hit(key: string, time: int)

  // One INCR and EXPIRE: an expired counter starts again from zero.
  function Bump(c: Option<Counter>, now: int, window: int): Counter {
    if c.Some? && now < c.value.expires then Counter(c.value.count + 1, now + window) else Counter(1, now + window)
  }

  class Limiter {
    var counters: map<string, Counter>

    constructor ()
      ensures counters == map[]
    {
      counters := map[];
    }

    function Lookup(key: string): Option<Counter>
      reads this
    {
      if key in counters then Some(counters[key]) else None
    }

    method Allow(key: string, maxRequests: int, window: int, now: int) returns (allowed: bool)
      modifies this
      ensures counters == old(counters)[key := Bump(old(Lookup(key)), now, window)]
      ensures allowed == (Bump(old(Lookup(key)), now, window).count <= maxRequests)
    {
      if key in counters && counters[key].expires <= now {
        counters := counters - {key};
      }
      var count := if key in counters then counters[key].count + 1 else 1;
      counters := counters[key := Counter(count, now + window)];
      return count <= maxRequests;
    }

    // The middleware: a route without a positive limit is not limited, and not counted.
    method Admit(cfg: Config, hit: Hit) returns (admitted: bool)
      modifies this
      ensures cfg.limit(hit.key) <= 0 ==> admitted && counters == old(counters)
      ensures cfg.limit(hit.key) > 0 ==>
                var bumped := Bump(old(Lookup(hit.key)), hit.time, cfg.window(hit.key));
                counters == old(counters)[hit.key := bumped] && admitted == (bumped.count <= cfg.limit(hit.key))
    {
      if cfg.limit(hit.key) <= 0 {
        return true;
      }
      admitted := Allow(hit.key, cfg.limit(hit.key), cfg.window(hit.key), hit.time);
    }

    // A whole run, starting from an empty table.
    method Serve(cfg: Config, hits: seq<Hit>) returns (admitted: seq<bool>)
      requires counters == map[]
      modifies this
      ensures |admitted| == |hits| && forall i :: 0 <= i < |hits| ==> admitted[i] == Admitted(cfg, hits, i)
    {
      admitted := [];
      var i := 0;
      while i < |hits|
        invariant 0 <= i <= |hits| && |admitted| == i
        invariant forall key :: cfg.limit(key) > 0 ==> Lookup(key) == After(cfg, hits, key, i)
        invariant forall j :: 0 <= j < i ==> admitted[j] == Admitted(cfg, hits, j)
      {
        var ok := Admit(cfg, hits[i]);
        admitted := admitted + [ok];
        i := i + 1;
      }
    }
  }

  // ---------------------------------------------------------------------------------------------
  // Runs
  // ---------------------------------------------------------------------------------------------

  // A key's counter after the first n hits.
  function After(cfg: Config, hits: seq<Hit>, key: string, n: nat): Option<Counter>
    requires n <= |hits|
  {
    if n == 0 then None
    else if hits[n - 1].key == key then Some(Bump(After(cfg, hits, key, n - 1), hits[n - 1].time, cfg.window(key)))
    else After(cfg, hits, key, n - 1)
  }

  predicate Admitted(cfg: Config, hits: seq<Hit>, i: nat)
    requires i < |hits|
  {
    var key := hits[i].key;
    cfg.limit(key) <= 0 || After(cfg, hits, key, i + 1).value.count <= cfg.limit(key)
  }

  ghost predicate Timed(hits: seq<Hit>) {
    forall i, j :: 0 <= i < j < |hits| ==> hits[i].time <= hits[j].time
  }

  predicate InSpan(hit: Hit, key: string, from: int, to: int) {
    hit.key == key && from <= hit.time < to
  }

  function HitsIn(hits: seq<Hit>, key: string, from: int, to: int, n: nat): nat
    requires n <= |hits|
  {
    if n == 0 then 0 else HitsIn(hits, key, from, to, n - 1) + if InSpan(hits[n - 1], key, from, to) then 1 else 0
  }

  function AdmittedIn(cfg: Config, hits: seq<Hit>, key: string, from: int, to: int, n: nat): nat
    requires n <= |hits|
  {
    if n == 0 then 0
    else AdmittedIn(cfg, hits, key, from, to, n - 1) +
         if InSpan(hits[n - 1], key, from, to) && Admitted(cfg, hits, n - 1) then 1 else 0
  }

  // Inside one window the counter never restarts, so it counts at least the hits seen there, and
  // it outlives the window once one was seen.
  lemma {:induction false} CounterCountsTheWindow(cfg: Config, hits: seq<Hit>, key: string, from: int, n: nat)
    requires Timed(hits) && n <= |hits| && cfg.window(key) > 0
    requires n > 0 ==> hits[n - 1].time < from + cfg.window(key)
    ensures var seen := HitsIn(hits, key, from, from + cfg.window(key), n);
            seen > 0 ==> After(cfg, hits, key, n).Some? && seen <= After(cfg, hits, key, n).value.count &&
                         from + cfg.window(key) <= After(cfg, hits, key, n).value.expires && from <= hits[n - 1].time
  {
    if n > 0 {
      assert n > 1 ==> hits[n - 2].time <= hits[n - 1].time;
      CounterCountsTheWindow(cfg, hits, key, from, n - 1);
    }
  }

  lemma {:induction false} WindowBound(cfg: Config, hits: seq<Hit>, key: string, from: int, n: nat)
    requires Timed(hits) && n <= |hits| && cfg.window(key) > 0 && cfg.limit(key) > 0
    ensures AdmittedIn(cfg, hits, key, from, from + cfg.window(key), n) <= cfg.limit(key)
    ensures AdmittedIn(cfg, hits, key, from, from + cfg.window(key), n) <=
            HitsIn(hits, key, from, from + cfg.window(key), n)
  {
    if n > 0 {
      WindowBound(cfg, hits, key, from, n - 1);
      if InSpan(hits[n - 1], key, from, from + cfg.window(key)) {
        CounterCountsTheWindow(cfg, hits, key, from, n);
      }
    }
  }

  // At most `limit` requests of a key are admitted in any half-open interval of its window's length.
  lemma RateIsBounded(cfg: Config, hits: seq<Hit>, key: string, from: int)
    requires Timed(hits) && cfg.window(key) > 0 && cfg.limit(key) > 0
    ensures AdmittedIn(cfg, hits, key, from, from + cfg.window(key), |hits|) <= cfg.limit(key)
  {
    WindowBound(cfg, hits, key, from, |hits|);
  }

  // ---------------------------------------------------------------------------------------------
  // Exactly which requests are admitted
  // ---------------------------------------------------------------------------------------------

  // The index of the last earlier hit of the same key.
  function Previous(hits: seq<Hit>, key: string, n: nat): (p: Option<nat>)
    requires n <= |hits|
    ensures p.Some? ==> p.value < n && hits[p.value].key == key
    ensures forall j :: (if p.Some? then p.value + 1 else 0) <= j < n ==> hits[j].key != key
  {
    if n == 0 then None else if hits[n - 1].key == key then Some(n - 1) else Previous(hits, key, n - 1)
  }

  // How many hits of the key, up to this one, follow each other at gaps shorter than the window.
  function Streak(cfg: Config, hits: seq<Hit>, i: nat): nat
    requires i < |hits|
    decreases i
  {
    var key := hits[i].key;
    var p := Previous(hits, key, i);
    if p.Some? && hits[i].time < hits[p.value].time + cfg.window(key) then 1 + Streak(cfg, hits, p.value) else 1
  }

  lemma {:induction false} AfterPrevious(cfg: Config, hits: seq<Hit>, key: string, n: nat)
    requires n <= |hits|
    ensures After(cfg, hits, key, n) ==
            match Previous(hits, key, n) case None => None case Some(p) => After(cfg, hits, key, p + 1)
  {
    if n > 0 && hits[n - 1].key != key {
      AfterPrevious(cfg, hits, key, n - 1);
    }
  }

  // The counter is the length of the streak, and expires one window after its last hit.
  lemma {:induction false} CounterIsStreak(cfg: Config, hits: seq<Hit>, i: nat)
    requires i < |hits|
    ensures var key := hits[i].key;
            After(cfg, hits, key, i + 1) == Some(Counter(Streak(cfg, hits, i), hits[i].time + cfg.window(key)))
    decreases i
  {
    var key := hits[i].key;
    AfterPrevious(cfg, hits, key, i);
    var p := Previous(hits, key, i);
    if p.Some? {
      CounterIsStreak(cfg, hits, p.value);
    }
  }

  // A request is admitted exactly when its streak, denied requests included, is within the limit.
  lemma AdmittedIffShortStreak(cfg: Config, hits: seq<Hit>, i: nat)
    requires i < |hits| && cfg.limit(hits[i].key) > 0
    ensures Admitted(cfg, hits, i) <==> Streak(cfg, hits, i) <= cfg.limit(hits[i].key)
  {
    CounterIsStreak(cfg, hits, i);
  }

  // A silence of at least one window always restores admission.
  lemma SilenceRestoresAdmission(cfg: Config, hits: seq<Hit>, i: nat)
    requires i < |hits| && cfg.limit(hits[i].key) > 0
    requires forall j :: 0 <= j < i && hits[j].key == hits[i].key ==> hits[j].time + cfg.window(hits[i].key) <= hits[i].time
    ensures Admitted(cfg, hits, i)
  {
    AdmittedIffShortStreak(cfg, hits, i);
  }

  // A client that never pauses for a window is shut out for good once it has used its limit: the
  // window is not fixed by the first hit.
  lemma {:induction false} RestlessClientIsShutOut(cfg: Config, hits: seq<Hit>, i: nat)
    requires i < |hits|
    requires forall j :: 0 <= j < |hits| ==> hits[j].key == hits[0].key
    requires forall j :: 0 < j < |hits| ==> hits[j].time < hits[j - 1].time + cfg.window(hits[0].key)
    requires cfg.limit(hits[0].key) > 0
    ensures Streak(cfg, hits, i) == i + 1
    ensures Admitted(cfg, hits, i) <==> i < cfg.limit(hits[0].key)
    decreases i
  {
    AdmittedIffShortStreak(cfg, hits, i);
    if i > 0 {
      RestlessClientIsShutOut(cfg, hits, i - 1);
      assert Previous(hits, hits[i].key, i) == Some(i - 1);
    }
  }
}
