// Model routes: candidates tried in order, skipping those whose circuit breaker is open.
module RouteBreaker {
  import opened StreamTypes

  // ----- breakers -----

  /** A breaker's Redis key: its counter, and the time it expires. */
  datatype Breaker = Breaker(failures: nat, expires: int)

  type Breakers = map<string, Breaker>

  const UPSTREAM_FAILURES: set<int> := {401, 402, 403, 404, 408, 425, 429, 500, 502, 503, 504}

  function Pow2(k: nat): (r: nat)
    ensures r > 0
  {
    if k == 0 then 1 else 2 * Pow2(k - 1)
  }

  function Min(a: nat, b: nat): nat {
    if a <= b then a else b
  }

  /** 10, 20, 40 ... seconds, capped. */
  function Cooldown(max: nat, failures: nat): nat
    requires failures > 0
  {
    Min(max, 10 * Pow2(Min(failures - 1, 8)))
  }

  predicate Open(b: Breakers, model: string, now: int) {
    model in b && now < b[model].expires
  }

  predicate Succeeds(status: int) {
    200 <= status < 400
  }

  predicate Fails(status: int) {
    status in UPSTREAM_FAILURES
  }

  /** record_model_route_result, with the increment and its expiry as one step. */
  function Recorded(b: Breakers, max: nat, model: string, status: int, now: int): Breakers {
    if Succeeds(status) then b - {model}
    else if !Fails(status) then b
    else
      var f := (if Open(b, model, now) then b[model].failures else 0) + 1;
      b[model := Breaker(f, now + Cooldown(max, f))]
  }

  /** The candidates whose breaker is closed, in their order. */
  function Healthy(b: Breakers, candidates: seq<string>, now: int): seq<string> {
    if candidates == [] then []
    else (if Open(b, candidates[0], now) then [] else [candidates[0]]) + Healthy(b, candidates[1..], now)
  }

  // ----- a route -----

  /**
   * What happens around one routed request: whether Redis answers the filter
   * and each record, when, and the status upstream gives to each attempt.
   */
  datatype World = World(start: int, filterUp: bool, statuses: nat -> int, times: nat -> int, recordUp: nat -> bool)

  datatype Routed = Routed(breakers: Breakers, attempted: seq<string>, status: int)

  /** Attempts from number `i` on; `last` is the reply so far. */
  function Tried(b: Breakers, max: nat, pool: seq<string>, w: World, i: nat, last: int): Routed
    requires i <= |pool|
    decreases |pool| - i
  {
    if i == |pool| then Routed(b, [], last)
    else
      var status := w.statuses(i);
      var next := if w.recordUp(i) then Recorded(b, max, pool[i], status, w.times(i)) else b;
      if status < 400 then Routed(next, [pool[i]], status)
      else
        var rest := Tried(next, max, pool, w, i + 1, status);
        rest.(attempted := [pool[i]] + rest.attempted)
  }

  function PoolOf(b: Breakers, candidates: seq<string>, w: World): seq<string> {
    var eligible := if w.filterUp then Healthy(b, candidates, w.start) else candidates;
    if eligible == [] then candidates else eligible
  }

  class RouteHealth {
    const max: nat
    var breakers: Breakers

    /** The cap is the configured one, at least 10 seconds. */
    constructor (configured: int)
      ensures max >= 10 && max as int >= configured && (max == 10 || max as int == configured) && breakers == map[]
    {
      max, breakers := if configured < 10 then 10 else configured, map[];
    }

    method FilterHealthy(candidates: seq<string>, now: int, up: bool) returns (eligible: seq<string>)
      ensures eligible == if up then Healthy(breakers, candidates, now) else candidates
    {
      if candidates == [] { return []; }
      if !up { return candidates; }
      eligible := [];
      for k := 0 to |candidates|
        invariant eligible + Healthy(breakers, candidates[k..], now) == Healthy(breakers, candidates, now)
      {
        var model := candidates[k];
        assert candidates[k..][0] == model && candidates[k..][1..] == candidates[k + 1..];
        Assoc(eligible, if Open(breakers, model, now) then [] else [model], Healthy(breakers, candidates[k + 1..], now));
        if !(model in breakers && now < breakers[model].expires) {
          eligible := eligible + [model];
        } else {
          assert eligible + [] == eligible;
        }
      }
      assert candidates[|candidates|..] == [];
    }

    method Record(model: string, status: int, now: int, up: bool)
      modifies this`breakers
      ensures breakers == if up then Recorded(old(breakers), max, model, status, now) else old(breakers)
    {
      if !up { return; }
      if 200 <= status < 400 {
        breakers := breakers - {model};
        return;
      }
      if status !in UPSTREAM_FAILURES { return; }
      var failures := 1;
      if model in breakers && now < breakers[model].expires {
        failures := breakers[model].failures + 1;
      }
      breakers := breakers[model := Breaker(failures, now + Cooldown(max, failures))];
    }

    method RunRoute(candidates: seq<string>, w: World) returns (attempted: seq<string>, status: int)
      modifies this`breakers
      ensures Routed(breakers, attempted, status) ==
              Tried(old(breakers), max, PoolOf(old(breakers), candidates, w), w, 0, 503)
    {
      hide Recorded, Healthy;
      var eligible := FilterHealthy(candidates, w.start, w.filterUp);
      var pool := if eligible != [] then eligible else candidates;
      ghost var whole := Tried(breakers, max, pool, w, 0, 503);
      attempted, status := [], 503;
      for i := 0 to |pool|
        invariant whole == (var rest := Tried(breakers, max, pool, w, i, status); rest.(attempted := attempted + rest.attempted))
      {
        ghost var before := attempted;
        var response := w.statuses(i);
        attempted := attempted + [pool[i]];
        Record(pool[i], response, w.times(i), w.recordUp(i));
        if response < 400 {
          return attempted, response;
        }
        status := response;
        Assoc(before, [pool[i]], Tried(breakers, max, pool, w, i + 1, status).attempted);
      }
    }
  }

  // ----- the cooldown -----

  lemma {:induction false} Pow2Grows(a: nat, b: nat)
    requires a <= b
    ensures Pow2(a) <= Pow2(b)
    decreases b
  {
    if a < b { Pow2Grows(a, b - 1); }
  }

  /** Cooldowns never shrink as failures go on, and lie between 10 seconds and the cap. */
  lemma CooldownGrows(max: nat, f: nat, g: nat)
    requires max >= 10 && 0 < f <= g
    ensures 10 <= Cooldown(max, f) <= Cooldown(max, g) <= max
  {
    Pow2Grows(Min(f - 1, 8), Min(g - 1, 8));
  }

  /** The first failure costs 10 seconds, each further one up to the ninth twice the last, all within the cap. */
  lemma CooldownDoubles(max: nat, f: nat)
    requires max >= 10 && f > 0
    ensures Cooldown(max, 1) == 10
    ensures f < 9 ==> Cooldown(max, f + 1) == if 2 * Cooldown(max, f) <= max then 2 * Cooldown(max, f) else max
    ensures f >= 9 ==> Cooldown(max, f) == Cooldown(max, 9)
  {
    if f < 9 { assert Pow2(f) == 2 * Pow2(f - 1); }
  }

  // ----- one result -----

  /**
   * A success closes the breaker, an upstream failure opens it from now on for
   * the cooldown of the failures in its running window, any other status
   * changes nothing; no other candidate is touched.
   */
  lemma RecordExactly(b: Breakers, max: nat, model: string, status: int, now: int, other: string, later: int)
    requires max >= 10
    ensures var after := Recorded(b, max, model, status, now);
            && (other != model ==> Open(after, other, later) == Open(b, other, later))
            && (200 <= status <= 399 ==> !Open(after, model, later))
            && (status in {401, 402, 403, 404, 408, 425, 429, 500, 502, 503, 504} ==>
                  model in after && after[model].failures == (if Open(b, model, now) then b[model].failures + 1 else 1)
                  && (Open(after, model, later) <==> later < now + Cooldown(max, after[model].failures)))
            && (status < 200 || status in {400, 405, 406, 407, 409, 413, 418, 422} || status > 504 ==> after == b)
  {
    hide Cooldown;
  }

  // ----- timed runs -----

  /** One recorded result; the ones Redis missed leave no trace. */
  datatype Result = Result(model: string, status: int, time: int)

  function AfterRun(max: nat, run: seq<Result>): Breakers
    decreases |run|
  {
    if run == [] then map[]
    else
      var r := run[|run| - 1];
      Recorded(AfterRun(max, run[..|run| - 1]), max, r.model, r.status, r.time)
  }

  /** The failures of `model` recorded after its last success, oldest first. */
  function FailuresOf(run: seq<Result>, model: string): seq<int>
    decreases |run|
  {
    if run == [] then []
    else
      var r, before := run[|run| - 1], FailuresOf(run[..|run| - 1], model);
      if r.model != model then before
      else if Succeeds(r.status) then []
      else if Fails(r.status) then before + [r.time]
      else before
  }

  /** Each failure within the shortest cooldown of the one before. */
  predicate Rapid(failures: seq<int>) {
    var n := |failures|;
    n <= 1 || (failures[n - 1] < failures[n - 2] + 10 && Rapid(failures[..n - 1]))
  }

  /** What the breaker's key holds, in terms of the failures since the last success. */
  ghost predicate Reflects(b: Breakers, max: nat, failures: seq<int>, model: string) {
    if failures == [] then model !in b
    else
      model in b && 1 <= b[model].failures <= |failures|
      && b[model].expires == failures[|failures| - 1] + Cooldown(max, b[model].failures)
      && (Rapid(failures) ==> b[model].failures == |failures|)
  }

  lemma {:induction false} RunReflected(max: nat, run: seq<Result>, model: string)
    requires max >= 10
    ensures Reflects(AfterRun(max, run), max, FailuresOf(run, model), model)
    decreases |run|
  {
    hide Cooldown, Succeeds, Fails;
    if run != [] {
      var r, b := run[|run| - 1], AfterRun(max, run[..|run| - 1]);
      var failures := FailuresOf(run[..|run| - 1], model);
      RunReflected(max, run[..|run| - 1], model);
      if r.model == model && !Succeeds(r.status) && Fails(r.status) {
        FailureReflected(b, max, failures, model, r.status, r.time);
      }
    }
  }

  lemma FailureReflected(b: Breakers, max: nat, failures: seq<int>, model: string, status: int, time: int)
    requires max >= 10 && Reflects(b, max, failures, model) && Fails(status) && !Succeeds(status)
    ensures Reflects(Recorded(b, max, model, status, time), max, failures + [time], model)
  {
    hide Cooldown, Succeeds, Fails, Rapid;
    RapidSnoc(failures, time);
    if failures != [] { CooldownGrows(max, b[model].failures, b[model].failures); }
  }

  lemma RapidSnoc(failures: seq<int>, time: int)
    ensures Rapid(failures + [time]) <==> Rapid(failures) && (failures != [] ==> time < failures[|failures| - 1] + 10)
  {
    assert (failures + [time])[..|failures|] == failures;
  }

  /**
   * After any timed run: a candidate without a failure since its last success
   * is never skipped; otherwise it is skipped for at least 10 seconds after
   * its last failure and at most for the cooldown of its failures since then,
   * which is at most the cap; when the failures came less than 10 seconds
   * apart, for exactly that cooldown.
   */
  lemma SkipBound(max: nat, run: seq<Result>, model: string, now: int)
    requires max >= 10
    ensures var open, f := Open(AfterRun(max, run), model, now), FailuresOf(run, model);
            && (f == [] ==> !open)
            && (f != [] ==>
                  var last := f[|f| - 1];
                  && (open ==> now < last + Cooldown(max, |f|) <= last + max)
                  && (now < last + 10 ==> open)
                  && (Rapid(f) ==> (open <==> now < last + Cooldown(max, |f|))))
  {
    hide Cooldown, Rapid;
    RunReflected(max, run, model);
    var f, b := FailuresOf(run, model), AfterRun(max, run);
    if f != [] {
      CooldownGrows(max, b[model].failures, |f|);
    }
  }

  // ----- what a route tries -----

  /** The filter keeps exactly the candidates whose breaker is closed, in their order. */
  lemma {:induction false} HealthyExactly(b: Breakers, some: seq<string>, more: seq<string>, now: int)
    ensures Healthy(b, some + more, now) == Healthy(b, some, now) + Healthy(b, more, now)
    ensures forall c :: c in Healthy(b, some, now) <==> c in some && !Open(b, c, now)
  {
    hide Open;
    if some == [] {
      assert some + more == more && [] + Healthy(b, more, now) == Healthy(b, more, now);
    } else {
      HealthyExactly(b, some[1..], more, now);
      assert (some + more)[1..] == some[1..] + more;
      Assoc(if Open(b, some[0], now) then [] else [some[0]], Healthy(b, some[1..], now), Healthy(b, more, now));
    }
  }

  lemma {:induction false} TriedPrefix(b: Breakers, max: nat, pool: seq<string>, w: World, i: nat, last: int)
    requires i <= |pool|
    ensures var r := Tried(b, max, pool, w, i, last);
            var end := i + |r.attempted|;
            && end <= |pool| && r.attempted == pool[i..end]
            && (forall j | i <= j < end - 1 :: w.statuses(j) >= 400)
            && (if end == i then i == |pool| && r.status == last
                else r.status == w.statuses(end - 1) && (r.status < 400 || end == |pool|))
    decreases |pool| - i
  {
    hide Recorded;
    if i < |pool| && w.statuses(i) >= 400 {
      var next := if w.recordUp(i) then Recorded(b, max, pool[i], w.statuses(i), w.times(i)) else b;
      TriedPrefix(next, max, pool, w, i + 1, w.statuses(i));
      var end := i + 1 + |Tried(next, max, pool, w, i + 1, w.statuses(i)).attempted|;
      assert pool[i..end] == [pool[i]] + pool[i + 1..end];
    } else if i < |pool| {
      assert pool[i..i + 1] == [pool[i]];
    } else {
      assert pool[i..i] == [];
    }
  }

  lemma {:induction false} TriedEffects(b: Breakers, max: nat, pool: seq<string>, w: World, i: nat, last: int)
    requires i <= |pool|
    ensures var r := Tried(b, max, pool, w, i, last);
            i + |r.attempted| <= |pool| && r.breakers == Effects(b, max, pool, w, i, i + |r.attempted|)
    decreases |pool| - i
  {
    hide Recorded;
    if i < |pool| && w.statuses(i) >= 400 {
      TriedEffects(if w.recordUp(i) then Recorded(b, max, pool[i], w.statuses(i), w.times(i)) else b,
                   max, pool, w, i + 1, w.statuses(i));
    }
  }

  /** The results of attempts `i` to `end`, each recorded once, in order. */
  function Effects(b: Breakers, max: nat, pool: seq<string>, w: World, i: nat, end: nat): Breakers
    requires i <= end <= |pool|
    decreases end - i
  {
    if i == end then b
    else Effects(if w.recordUp(i) then Recorded(b, max, pool[i], w.statuses(i), w.times(i)) else b, max, pool, w, i + 1, end)
  }

  /**
   * A routed request attempts a prefix of the healthy candidates -- of all
   * candidates when none is healthy or Redis is down -- and ends at the first
   * status below 400; otherwise it has attempted all of them and the last
   * status is the reply. It replies 503 by itself only without candidates.
   * Every attempt's result, and nothing else, is recorded.
   */
  lemma AttemptsExactly(b: Breakers, max: nat, candidates: seq<string>, w: World)
    ensures var pool := PoolOf(b, candidates, w);
            var r := Tried(b, max, pool, w, 0, 503);
            && (pool == [] <==> candidates == [])
            && (forall c :: c in pool <==>
                  c in candidates && (!w.filterUp || !Open(b, c, w.start) || forall d | d in candidates :: Open(b, d, w.start)))
            && r.attempted <= pool
            && (forall j | 0 <= j < |r.attempted| - 1 :: w.statuses(j) >= 400)
            && (if candidates == [] then r.attempted == [] && r.status == 503
                else r.attempted != [] && r.status == w.statuses(|r.attempted| - 1)
                     && (r.status < 400 || r.attempted == pool))
            && r.breakers == Effects(b, max, pool, w, 0, |r.attempted|)
  {
    hide Open, Healthy, Recorded, Tried, Effects;
    var pool := PoolOf(b, candidates, w);
    HealthyExactly(b, candidates, [], w.start);
    TriedPrefix(b, max, pool, w, 0, 503);
    TriedEffects(b, max, pool, w, 0, 503);
    if w.filterUp && Healthy(b, candidates, w.start) == [] {
      assert forall d | d in candidates :: d in Healthy(b, candidates, w.start) || Open(b, d, w.start);
    }
    if w.filterUp && Healthy(b, candidates, w.start) != [] {
      var d := Healthy(b, candidates, w.start)[0];
      assert d in Healthy(b, candidates, w.start);
    }
  }

  /** A candidate whose last failure is at least the cap ago is back in the pool of every route naming it. */
  lemma Recovers(max: nat, run: seq<Result>, candidates: seq<string>, c: string, w: World)
    requires max >= 10 && c in candidates
    requires var f := FailuresOf(run, c); f == [] || f[|f| - 1] + max <= w.start
    ensures c in PoolOf(AfterRun(max, run), candidates, w)
  {
    hide Open, Healthy, FailuresOf, AfterRun;
    SkipBound(max, run, c, w.start);
    HealthyExactly(AfterRun(max, run), candidates, [], w.start);
  }
}
