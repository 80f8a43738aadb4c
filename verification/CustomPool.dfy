// Key pools of admin-added providers: a shared rotating cursor and the
// dispatch loop that walks a snapshot of the pool.
module CustomPool {
  import opened StreamTypes
  import opened QcKeys

  datatype Pools = Pools(keys: map<string, seq<string>>, cursor: map<string, nat>, statuses: map<string, string>, hops: nat)

  function KeysOf(p: Pools, prefix: string): seq<string> {
    if prefix in p.keys then p.keys[prefix] else []
  }

  function IndexOf(p: Pools, prefix: string): (i: nat)
    requires KeysOf(p, prefix) != []
    ensures i < |KeysOf(p, prefix)|
  {
    (if prefix in p.cursor then p.cursor[prefix] else 0) % |KeysOf(p, prefix)|
  }

  function CurrentKey(p: Pools, prefix: string): string {
    if KeysOf(p, prefix) == [] then "" else KeysOf(p, prefix)[IndexOf(p, prefix)]
  }

  /** rotate_custom_key: pools of one key stay as they are. */
  function Turned(p: Pools, prefix: string): Pools {
    var keys := KeysOf(p, prefix);
    if |keys| <= 1 then p
    else
      var i := ((if prefix in p.cursor then p.cursor[prefix] else 0) + 1) % |keys|;
      p.(cursor := p.cursor[prefix := i], statuses := p.statuses[keys[i] := "Active"], hops := p.hops + 1)
  }

  function TurnedTimes(p: Pools, prefix: string, k: nat): Pools
    decreases k
  {
    if k == 0 then p else TurnedTimes(Turned(p, prefix), prefix, k - 1)
  }

  /** The snapshot a request walks: the pool from its current key around. */
  function Ring(p: Pools, prefix: string): (ring: seq<string>) {
    var keys, first := KeysOf(p, prefix), CurrentKey(p, prefix);
    var s := if first in keys then Position(keys, first) else 0;
    keys[s..] + keys[..s]
  }

  /** An attempt's outcome after the loop's own corrections: exceptions, bodies
      that cannot be read and errors inside a 200 stream carry their error status. */
  datatype Outcome = Outcome(status: int, detail: string)

  const SPENT_TERMS: seq<string> :=
    ["out of credit", "out_of_credit", "out of credits", "insufficient credit", "insufficient balance",
     "credits exhausted", "credit exhausted", "no credits left", "quota exceeded", "quota_exceeded",
     "insufficient_quota", "billing limit", "\U{4F59}\U{989D}\U{4E0D}\U{8DB3}", "\U{79EF}\U{5206}\U{4E0D}\U{8DB3}"]

  /** `_should_retry_custom_key`; `detail` is the lower-cased body. */
  predicate RetryKey(o: Outcome) {
    o.status in RETRYABLE ||
    (o.status == 400 && var head := if |o.detail| <= 4096 then o.detail else o.detail[..4096];
                        exists k | 0 <= k < |SPENT_TERMS| :: Contains(head, SPENT_TERMS[k]))
  }

  /** One request sent: the key it used and, for the record, the shared cursor's key at that moment. */
  datatype Sent = Sent(key: string, cursor: string)

  datatype Report = Report(pools: Pools, sent: seq<Sent>, status: int, key: Option<string>)

  /**
   * The loop from `attempt` on. `noise(i)` is how often other requests rotate
   * this pool while attempt `i` waits for its answer.
   */
  function Walk(p: Pools, prefix: string, ring: seq<string>, answers: nat -> Outcome, noise: nat -> nat, attempt: nat): Report
    requires attempt < |ring|
    decreases |ring| - attempt
  {
    var sent := Sent(ring[attempt], CurrentKey(p, prefix));
    var q := TurnedTimes(p, prefix, noise(attempt));
    var o := answers(attempt);
    if o.status == 200 then Report(q, [sent], 200, Some(ring[attempt]))
    else if RetryKey(o) && attempt < |ring| - 1 then
      var rest := Walk(Turned(q, prefix), prefix, ring, answers, noise, attempt + 1);
      rest.(sent := [sent] + rest.sent)
    else Report(q, [sent], o.status, None)
  }

  function Dispatched(p: Pools, prefix: string, answers: nat -> Outcome, noise: nat -> nat): Report {
    var ring := Ring(p, prefix);
    if ring == [] then Report(p, [], 500, None) else Walk(p, prefix, ring, answers, noise, 0)
  }

  class CustomKeys {
    var keys: map<string, seq<string>>
    var cursor: map<string, nat>
    var statuses: map<string, string>
    var hops: nat

    ghost function State(): Pools
      reads this
    {
      Pools(keys, cursor, statuses, hops)
    }

    constructor (keys: map<string, seq<string>>)
      ensures State() == Pools(keys, map[], map[], 0)
    {
      this.keys, cursor, statuses, hops := keys, map[], map[], 0;
    }

    method GetCurrent(prefix: string) returns (key: string)
      ensures key == CurrentKey(State(), prefix)
    {
      var pool := if prefix in keys then keys[prefix] else [];
      if pool == [] { return ""; }
      var i := (if prefix in cursor then cursor[prefix] else 0) % |pool|;
      return pool[i];
    }

    method Rotate(prefix: string) returns (key: string)
      modifies this`cursor, this`statuses, this`hops
      ensures State() == Turned(old(State()), prefix) && key == CurrentKey(State(), prefix)
    {
      var pool := if prefix in keys then keys[prefix] else [];
      if |pool| <= 1 {
        key := GetCurrent(prefix);
        return;
      }
      var i := ((if prefix in cursor then cursor[prefix] else 0) + 1) % |pool|;
      cursor := cursor[prefix := i];
      key := pool[i];
      statuses := statuses[key := "Active"];
      hops := hops + 1;
      assert i % |pool| == i;
    }

    /** Other requests rotating the same pool meanwhile. */
    method Disturb(prefix: string, times: nat)
      modifies this`cursor, this`statuses, this`hops
      ensures State() == TurnedTimes(old(State()), prefix, times)
    {
      var left := times;
      while left > 0
        invariant TurnedTimes(State(), prefix, left) == TurnedTimes(old(State()), prefix, times)
      {
        var _ := Rotate(prefix);
        left := left - 1;
      }
    }

    method Dispatch(prefix: string, answers: nat -> Outcome, noise: nat -> nat)
      returns (sent: seq<Sent>, status: int, key: Option<string>)
      modifies this`cursor, this`statuses, this`hops
      ensures Report(State(), sent, status, key) == Dispatched(old(State()), prefix, answers, noise)
    {
      hide Turned, TurnedTimes, CurrentKey, Position, RetryKey;
      sent, status, key := [], 502, None;
      var pool := if prefix in keys then keys[prefix] else [];
      if pool == [] {
        EmptyRing(State(), prefix);
        return [], 500, None;
      }
      var first := GetCurrent(prefix);
      var start := if first in pool then Position(pool, first) else 0;
      var ring := pool[start..] + pool[..start];
      ghost var p := State();
      assert ring == Ring(p, prefix) && |ring| == |pool|;
      var attempt := 0;
      while attempt < |ring|
        invariant attempt < |ring|
        invariant Dispatched(p, prefix, answers, noise) ==
                  (var rest := Walk(State(), prefix, ring, answers, noise, attempt); rest.(sent := sent + rest.sent))
        decreases |ring| - attempt
      {
        ghost var before := sent;
        var now := GetCurrent(prefix);
        sent := sent + [Sent(ring[attempt], now)];
        Disturb(prefix, noise(attempt));
        var o := answers(attempt);
        if o.status == 200 {
          return sent, 200, Some(ring[attempt]);
        }
        if RetryKey(o) && attempt < |ring| - 1 {
          var _ := Rotate(prefix);
        } else {
          return sent, o.status, None;
        }
        Assoc(before, [Sent(ring[attempt], now)], Walk(State(), prefix, ring, answers, noise, attempt + 1).sent);
        attempt := attempt + 1;
      }
    }
  }

  lemma EmptyRing(p: Pools, prefix: string)
    requires KeysOf(p, prefix) == []
    ensures Ring(p, prefix) == []
  {
  }

  // ----- which keys are tried -----

  /**
   * Whatever others do to the cursor: the keys tried are a prefix of the
   * snapshot; every attempt but the last was refused with a retryable answer;
   * the last was a success, a final refusal, or the end of the snapshot, and
   * it decides the reply.
   */
  lemma TriesAPrefix(p: Pools, prefix: string, answers: nat -> Outcome, noise: nat -> nat)
    requires KeysOf(p, prefix) != []
    ensures var r, ring := Dispatched(p, prefix, answers, noise), Ring(p, prefix);
            && 1 <= |r.sent| <= |ring|
            && (forall i | 0 <= i < |r.sent| :: r.sent[i].key == ring[i])
            && (forall j | 0 <= j < |r.sent| - 1 :: answers(j).status != 200 && RetryKey(answers(j)))
            && var last := |r.sent| - 1;
               && (answers(last).status == 200 || !RetryKey(answers(last)) || last == |ring| - 1)
               && r.status == answers(last).status
               && r.key == if r.status == 200 then Some(ring[last]) else None
  {
    hide RetryKey, Walk, Ring;
    var ring := Ring(p, prefix);
    RingLength(p, prefix);
    WalkPrefix(p, prefix, ring, answers, noise, 0);
  }

  lemma RingLength(p: Pools, prefix: string)
    ensures |Ring(p, prefix)| == |KeysOf(p, prefix)|
  {
  }

  lemma {:induction false} WalkPrefix(p: Pools, prefix: string, ring: seq<string>, answers: nat -> Outcome, noise: nat -> nat,
                                      attempt: nat)
    requires attempt < |ring|
    ensures var r := Walk(p, prefix, ring, answers, noise, attempt);
            var last := attempt + |r.sent| - 1;
            && attempt <= last < |ring|
            && (forall i | 0 <= i < |r.sent| :: r.sent[i].key == ring[attempt + i])
            && (forall j | attempt <= j < last :: answers(j).status != 200 && RetryKey(answers(j)))
            && (answers(last).status == 200 || !RetryKey(answers(last)) || last == |ring| - 1)
            && r.status == answers(last).status
            && r.key == if r.status == 200 then Some(ring[last]) else None
    decreases |ring| - attempt
  {
    hide RetryKey, CurrentKey, Turned, TurnedTimes;
    var o := answers(attempt);
    if o.status != 200 && RetryKey(o) && attempt < |ring| - 1 {
      WalkPrefix(Turned(TurnedTimes(p, prefix, noise(attempt)), prefix), prefix, ring, answers, noise, attempt + 1);
    }
  }

  /** The snapshot is the pool, once around from the current key. */
  lemma RingGoesAround(p: Pools, prefix: string, i: nat)
    requires prefix in p.keys && Distinct(p.keys[prefix]) && i < |p.keys[prefix]|
    ensures |Ring(p, prefix)| == |p.keys[prefix]|
    ensures var from := (if prefix in p.cursor then p.cursor[prefix] else 0) % |p.keys[prefix]|;
            from == IndexOf(p, prefix) && Ring(p, prefix)[i] == p.keys[prefix][(from + i) % |p.keys[prefix]|]
  {
    var keys := KeysOf(p, prefix);
    var s := IndexOf(p, prefix);
    assert keys[s] in keys;
    PositionOf(keys, s);
    hide IndexOf;
    assert Ring(p, prefix) == keys[s..] + keys[..s];
    WrapIsModulo(s + i, |keys|);
  }

  /** A provider without keys sends nothing and gets a 500. */
  lemma NoKeys(p: Pools, prefix: string, answers: nat -> Outcome, noise: nat -> nat)
    requires prefix !in p.keys || p.keys[prefix] == []
    ensures CurrentKey(p, prefix) == "" && Turned(p, prefix) == p
    ensures Dispatched(p, prefix, answers, noise) == Report(p, [], 500, None)
  {
    EmptyRing(p, prefix);
  }

  /** Each key at most once per request, however often others rotate the pool meanwhile. */
  lemma NoKeyTwice(p: Pools, prefix: string, answers: nat -> Outcome, noise: nat -> nat)
    requires Distinct(KeysOf(p, prefix))
    ensures var sent := Dispatched(p, prefix, answers, noise).sent;
            forall i, j | 0 <= i < j < |sent| :: sent[i].key != sent[j].key
  {
    hide Dispatched, Distinct;
    var sent := Dispatched(p, prefix, answers, noise).sent;
    forall i, j | 0 <= i < j < |sent| ensures sent[i].key != sent[j].key {
      KeysDiffer(p, prefix, answers, noise, i, j);
    }
  }

  lemma KeysDiffer(p: Pools, prefix: string, answers: nat -> Outcome, noise: nat -> nat, i: nat, j: nat)
    requires Distinct(KeysOf(p, prefix)) && i < j < |Dispatched(p, prefix, answers, noise).sent|
    ensures var sent := Dispatched(p, prefix, answers, noise).sent; sent[i].key != sent[j].key
  {
    hide IndexOf, Walk, Position;
    if KeysOf(p, prefix) != [] {
      TriesAPrefix(p, prefix, answers, noise);
      RingLength(p, prefix);
      var n, s := |KeysOf(p, prefix)|, IndexOf(p, prefix);
      RingGoesAround(p, prefix, i);
      RingGoesAround(p, prefix, j);
      WrapIsModulo(s + i, n);
      WrapIsModulo(s + j, n);
    } else {
      EmptyRing(p, prefix);
    }
  }

  /** Another key is tried for these statuses, and for a 400 whose first 4096 characters name a spent quota. */
  lemma RetriesExactly(o: Outcome)
    ensures RetryKey(o) <==>
            || o.status in {401, 402, 403, 404, 429, 500, 502, 503, 504}
            || (o.status == 400 && exists k, i | 0 <= k < |SPENT_TERMS| && 0 <= i <= |o.detail| ::
                  Mentions(o.detail, SPENT_TERMS[k], i) && i + |SPENT_TERMS[k]| <= 4096)
  {
    var head := if |o.detail| <= 4096 then o.detail else o.detail[..4096];
    hide Mentions, OccursAt;
    forall term: string, i | 0 <= i <= |head|
      ensures OccursAt(head, term, i) <==> Mentions(o.detail, term, i) && i + |term| <= 4096
    {
      InHead(o.detail, |head|, term, i);
    }
    forall k, i | 0 <= k < |SPENT_TERMS| && 0 <= i <= |o.detail| && Mentions(o.detail, SPENT_TERMS[k], i)
      ensures i + |SPENT_TERMS[k]| <= 4096 ==> Contains(head, SPENT_TERMS[k])
    {
      MentionFits(o.detail, SPENT_TERMS[k], i);
      assert i + |SPENT_TERMS[k]| <= 4096 ==> OccursAt(head, SPENT_TERMS[k], i);
    }
  }

  /** A rotation marks the key it lands on as active and counts; nothing else changes, and nothing at all in a pool of one key. */
  lemma TurnedRecords(p: Pools, prefix: string)
    requires prefix in p.keys
    ensures var q := Turned(p, prefix); var key := CurrentKey(q, prefix);
            if |p.keys[prefix]| < 2 then q == p else
              && q.keys == p.keys && q.hops == p.hops + 1
              && q.statuses == p.statuses[key := "Active"] && q.cursor == p.cursor[prefix := IndexOf(q, prefix)]
  {
    var n := |KeysOf(p, prefix)|;
    if n > 1 { ModUnique((Raw(p, prefix) + 1) % n, 0, (Raw(p, prefix) + 1) % n, n); }
  }

  // ----- where the cursor is -----

  lemma MulMonotone(a: int, b: int, n: nat)
    requires a <= b
    ensures a * n <= b * n
  {
  }

  lemma ModUnique(y: nat, q: nat, r: nat, n: nat)
    requires 0 < n && y == q * n + r && r < n
    ensures y % n == r
  {
    var d := y / n;
    assert y == d * n + y % n;
    assert (d + 1) * n == d * n + n && (q + 1) * n == q * n + n;
    if d < q { MulMonotone(d + 1, q, n); }
    if q < d { MulMonotone(q + 1, d, n); }
  }

  lemma ModStep(x: nat, n: nat)
    requires 0 < n
    ensures (x + 1) % n == if x % n + 1 == n then 0 else x % n + 1
  {
    var q, r := x / n, x % n;
    assert x == q * n + r;
    if r + 1 == n {
      assert x + 1 == (q + 1) * n + 0;
      ModUnique(x + 1, q + 1, 0, n);
    } else {
      ModUnique(x + 1, q, r + 1, n);
    }
  }

  /** `m` more steps end where fewer did exactly when `m` is a number of full turns. */
  lemma {:induction false} FullTurns(a: nat, m: nat, n: nat)
    requires 0 < n
    ensures (a + m) % n == a % n <==> m % n == 0
  {
    if a == 0 {
      assert 0 % n == 0;
    } else {
      FullTurns(a - 1, m, n);
      ModStep(a - 1 + m, n);
      ModStep(a - 1, n);
    }
  }

  function Raw(p: Pools, prefix: string): nat {
    if prefix in p.cursor then p.cursor[prefix] else 0
  }

  lemma TurnedIndex(p: Pools, prefix: string)
    requires KeysOf(p, prefix) != []
    ensures var q, n := Turned(p, prefix), |KeysOf(p, prefix)|;
            KeysOf(q, prefix) == KeysOf(p, prefix) && IndexOf(q, prefix) == Rem(IndexOf(p, prefix) + 1, n)
  {
    hide Rem;
    NextIndex(Raw(p, prefix), |KeysOf(p, prefix)|);
  }

  lemma NextIndex(raw: nat, n: nat)
    requires 0 < n
    ensures Rem(raw % n + 1, n) == (raw + 1) % n && ((raw + 1) % n) % n == (raw + 1) % n
    ensures n == 1 ==> raw % n == (raw + 1) % n
  {
    ModLeft(raw, 1, n);
    ModUnique((raw + 1) % n, 0, (raw + 1) % n, n);
  }

  lemma {:induction false} ModLeft(a: nat, b: nat, n: nat)
    requires 0 < n
    ensures (a % n + b) % n == (a + b) % n
  {
    if b == 0 {
      ModUnique(a % n, 0, a % n, n);
    } else {
      ModLeft(a, b - 1, n);
      ModStep(a % n + (b - 1), n);
      ModStep(a + (b - 1), n);
    }
  }

  function Rem(a: nat, n: nat): nat
    requires 0 < n
  {
    a % n
  }

  lemma RemFacts(i: nat, k: nat, n: nat)
    requires 0 < n
    ensures i < n ==> Rem(i, n) == i
    ensures Rem(Rem(i + 1, n) + k, n) == Rem(i + (k + 1), n)
  {
    if i < n { ModUnique(i, 0, i, n); }
    ModLeft(i + 1, k, n);
  }

  lemma {:induction false} TurnedTimesIndex(p: Pools, prefix: string, k: nat)
    requires KeysOf(p, prefix) != []
    ensures var q, n := TurnedTimes(p, prefix, k), |KeysOf(p, prefix)|;
            KeysOf(q, prefix) == KeysOf(p, prefix) && IndexOf(q, prefix) == Rem(IndexOf(p, prefix) + k, n)
    decreases k
  {
    hide IndexOf, Turned, Rem;
    var n, i := |KeysOf(p, prefix)|, IndexOf(p, prefix);
    if k == 0 {
      RemFacts(i, 0, n);
    } else {
      TurnedIndex(p, prefix);
      RemFacts(i, k - 1, n);
      TurnedTimesIndex(Turned(p, prefix), prefix, k - 1);
    }
  }

  /** Rotations by others during attempts before `i`. */
  function NoiseUpTo(noise: nat -> nat, i: nat): nat {
    if i == 0 then 0 else NoiseUpTo(noise, i - 1) + noise(i - 1)
  }

  /** The cursor is where `k` single steps from position 0 end. */
  predicate CursorAt(p: Pools, prefix: string, k: nat) {
    KeysOf(p, prefix) != [] && IndexOf(p, prefix) == k % |KeysOf(p, prefix)|
  }

  function Seat(keys: seq<string>, k: nat): string
    requires keys != []
  {
    keys[k % |keys|]
  }

  lemma CurrentSeat(p: Pools, prefix: string, k: nat)
    requires CursorAt(p, prefix, k)
    ensures KeysOf(p, prefix) != [] && CurrentKey(p, prefix) == Seat(KeysOf(p, prefix), k)
  {
  }

  lemma CursorTurned(p: Pools, prefix: string, k: nat, times: nat)
    requires CursorAt(p, prefix, k)
    ensures var q := TurnedTimes(p, prefix, times); CursorAt(q, prefix, k + times) && KeysOf(q, prefix) == KeysOf(p, prefix)
    ensures var q := Turned(p, prefix); CursorAt(q, prefix, k + 1) && KeysOf(q, prefix) == KeysOf(p, prefix)
  {
    hide IndexOf, Turned, TurnedTimes;
    TurnedTimesIndex(p, prefix, times);
    TurnedIndex(p, prefix);
    ModLeft(k, times, |KeysOf(p, prefix)|);
    ModLeft(k, 1, |KeysOf(p, prefix)|);
  }

  lemma {:induction false} WalkCursor(p: Pools, prefix: string, ring: seq<string>, answers: nat -> Outcome, noise: nat -> nat,
                                      attempt: nat, start: nat, i: nat)
    requires attempt < |ring| && CursorAt(p, prefix, start + attempt + NoiseUpTo(noise, attempt))
    requires i <= |Walk(p, prefix, ring, answers, noise, attempt).sent|
    ensures var r, keys := Walk(p, prefix, ring, answers, noise, attempt), KeysOf(p, prefix);
            var sent := attempt + |r.sent|;
            && keys != [] && sent > 0
            && (i < |r.sent| ==> r.sent[i].cursor == Seat(keys, start + (attempt + i) + NoiseUpTo(noise, attempt + i)))
            && CurrentKey(r.pools, prefix) == Seat(keys, start + (sent - 1) + NoiseUpTo(noise, sent))
    decreases |ring| - attempt
  {
    hide CursorAt, Seat, CurrentKey, KeysOf, Turned, TurnedTimes, RetryKey, NoiseUpTo;
    var k := start + attempt + NoiseUpTo(noise, attempt);
    var q := TurnedTimes(p, prefix, noise(attempt));
    NoiseStep(noise, attempt);
    CurrentSeat(p, prefix, k);
    CursorTurned(p, prefix, k, noise(attempt));
    CurrentSeat(q, prefix, k + noise(attempt));
    var o := answers(attempt);
    if o.status != 200 && RetryKey(o) && attempt < |ring| - 1 {
      CursorTurned(q, prefix, k + noise(attempt), 0);
      WalkCursor(Turned(q, prefix), prefix, ring, answers, noise, attempt + 1, start, if i == 0 then 0 else i - 1);
    }
  }

  lemma NoiseStep(noise: nat -> nat, i: nat)
    ensures NoiseUpTo(noise, i + 1) == NoiseUpTo(noise, i) + noise(i) && NoiseUpTo(noise, 0) == 0
  {
  }

  lemma DistinctIndex(keys: seq<string>, i: nat, j: nat)
    requires Distinct(keys) && i < |keys| && j < |keys|
    ensures keys[i] == keys[j] <==> i == j
  {
  }

  /**
   * The shared cursor is on the key in use at attempt `i` exactly when the
   * others' rotations so far are a number of full turns; likewise it ends on
   * the last key tried. Without others it always is.
   */
  lemma CursorExactly(p: Pools, prefix: string, answers: nat -> Outcome, noise: nat -> nat)
    requires Distinct(KeysOf(p, prefix)) && KeysOf(p, prefix) != []
    ensures var r, n := Dispatched(p, prefix, answers, noise), |KeysOf(p, prefix)|;
            && r.sent != []
            && (forall i | 0 <= i < |r.sent| :: r.sent[i].cursor == r.sent[i].key <==> NoiseUpTo(noise, i) % n == 0)
            && (CurrentKey(r.pools, prefix) == r.sent[|r.sent| - 1].key <==> NoiseUpTo(noise, |r.sent|) % n == 0)
  {
    hide Dispatched, Distinct, KeysOf, CurrentKey, NoiseUpTo, RetryKey, Ring;
    TriesAPrefix(p, prefix, answers, noise);
    var r := Dispatched(p, prefix, answers, noise);
    forall i | 0 <= i < |r.sent|
      ensures r.sent[i].cursor == r.sent[i].key <==> NoiseUpTo(noise, i) % |KeysOf(p, prefix)| == 0
    {
      CursorAtAttempt(p, prefix, answers, noise, i);
    }
    CursorAtAttempt(p, prefix, answers, noise, 0);
  }

  lemma CursorAtAttempt(p: Pools, prefix: string, answers: nat -> Outcome, noise: nat -> nat, i: nat)
    requires Distinct(KeysOf(p, prefix)) && i < |Dispatched(p, prefix, answers, noise).sent|
    ensures var r, n := Dispatched(p, prefix, answers, noise), |KeysOf(p, prefix)|;
            && n > 0 && (r.sent[i].cursor == r.sent[i].key <==> NoiseUpTo(noise, i) % n == 0)
            && (CurrentKey(r.pools, prefix) == r.sent[|r.sent| - 1].key <==> NoiseUpTo(noise, |r.sent|) % n == 0)
  {
    hide IndexOf, Walk, Distinct, Position, RetryKey, CurrentKey, NoiseUpTo, Ring;
    RingLength(p, prefix);
    var keys, ring, s := KeysOf(p, prefix), Ring(p, prefix), IndexOf(p, prefix);
    var n, r := |keys|, Dispatched(p, prefix, answers, noise);
    var last := |r.sent| - 1;
    TriesAPrefix(p, prefix, answers, noise);
    RingGoesAround(p, prefix, i);
    RingGoesAround(p, prefix, last);
    NoiseStep(noise, 0);
    ModUnique(s, 0, s, n);
    WalkCursor(p, prefix, ring, answers, noise, 0, s, i);
    FullTurns(s + i, NoiseUpTo(noise, i), n);
    FullTurns(s + last, NoiseUpTo(noise, |r.sent|), n);
    DistinctIndex(keys, (s + i) % n, (s + i + NoiseUpTo(noise, i)) % n);
    DistinctIndex(keys, (s + last) % n, (s + last + NoiseUpTo(noise, |r.sent|)) % n);
  }
}
