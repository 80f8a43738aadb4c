// Per-model key selection and failover for the Qwen Cloud pool.
module QcKeys {
  import opened StreamTypes

  // ----- pool state -----

  /** `index` is each model's cursor; `failures` the quota marks by key and model. */
  datatype Pool = Pool(keys: seq<string>, index: map<string, nat>, failures: map<string, map<string, bool>>,
                       statuses: map<string, string>, failovers: nat)

  predicate Exhausted(p: Pool, key: string, model: string) {
    key in p.failures && model in p.failures[key] && p.failures[key][model]
  }

  predicate Usable(p: Pool, key: string, model: string) {
    !(key in p.statuses && p.statuses[key] == "Invalid") && !Exhausted(p, key, model)
  }

  /** A key is out for a model when it is quarantined or marked for that model; a mark for another model or a cleared one does not count. */
  lemma UsableExactly(p: Pool, key: string, model: string)
    ensures key in p.statuses && p.statuses[key] == "Invalid" ==> !Usable(p, key, model)
    ensures !(key in p.statuses && p.statuses[key] == "Invalid") ==>
              (Usable(p, key, model) <==> key in p.failures && model in p.failures[key] ==> p.failures[key][model] == false)
  {
  }

  /** `i % n`, for the sums that occur. */
  function Wrap(i: nat, n: nat): (r: nat)
    requires 0 < n && i < 2 * n
    ensures r < n
  {
    if i < n then i else i - n
  }

  lemma WrapIsModulo(i: nat, n: nat)
    requires 0 < n && i < 2 * n
    ensures Wrap(i, n) == i % n
  {
    if i >= n {
      assert i == n + (i - n);
      assert (i - n) % n == i - n;
    }
  }

  /** The key `offset` places after position `start`, around the ring. */
  function At(p: Pool, start: nat, offset: nat): string
    requires start < |p.keys| && offset <= |p.keys|
  {
    p.keys[Wrap(start + offset, |p.keys|)]
  }

  /** `qc_model_key_index.get(model, 0) % len(QC_API_KEYS)` */
  function StartOf(index: map<string, nat>, model: string, n: nat): (c: nat)
    requires 0 < n
    ensures c < n
  {
    (if model in index then index[model] else 0) % n
  }

  function Cursor(p: Pool, model: string): (c: nat)
    requires p.keys != []
    ensures c < |p.keys|
  {
    StartOf(p.index, model, |p.keys|)
  }

  /** The first offset in [from, end) whose key is usable, else `end`. */
  function Scan(p: Pool, model: string, start: nat, from: nat, end: nat): (o: nat)
    requires start < |p.keys| && from <= end <= |p.keys| + 1
    ensures from <= o <= end
    decreases end - from
  {
    if from == end || Usable(p, At(p, start, from), model) then from else Scan(p, model, start, from + 1, end)
  }

  /** Its result is usable, and nothing before it is. */
  lemma {:induction false} ScanFirst(p: Pool, model: string, start: nat, from: nat, end: nat)
    requires start < |p.keys| && from <= end <= |p.keys| + 1
    ensures var o := Scan(p, model, start, from, end);
            && (o < end ==> Usable(p, At(p, start, o), model))
            && forall k | from <= k < o :: !Usable(p, At(p, start, k), model)
    decreases end - from
  {
    if from < end && !Usable(p, At(p, start, from), model) {
      ScanFirst(p, model, start, from + 1, end);
    }
  }

  /** The model's cursor put on position `i`, after `hops` rotations. */
  function Moved(p: Pool, model: string, i: nat, hops: nat): Pool {
    p.(index := p.index[model := i], failovers := p.failovers + hops)
  }

  /** get_current_qc_key_for_model: the key, and the pool with its cursor moved onto it. */
  function Current(p: Pool, model: string): (string, Pool) {
    if p.keys == [] then ("", p)
    else
      var start, n := Cursor(p, model), |p.keys|;
      var o := Scan(p, model, start, 0, n);
      if o == n then ("", p) else (At(p, start, o), Moved(p, model, Wrap(start + o, n), 0))
  }

  function Position(keys: seq<string>, key: string): (i: nat)
    requires key in keys
    ensures i < |keys| && keys[i] == key
  {
    if keys[0] == key then 0 else 1 + Position(keys[1..], key)
  }

  predicate Distinct(keys: seq<string>) {
    forall i, j | 0 <= i < j < |keys| :: keys[i] != keys[j]
  }

  lemma {:induction false} PositionOf(keys: seq<string>, i: nat)
    requires Distinct(keys) && i < |keys|
    ensures Position(keys, keys[i]) == i
  {
    if i > 0 {
      assert keys[0] != keys[i] && keys[1..][i - 1] == keys[i];
      PositionOf(keys[1..], i - 1);
    }
  }

  function RotateFrom(p: Pool, model: string, after: Option<string>): (s: nat)
    requires p.keys != []
    ensures s < |p.keys|
  {
    if after.Some? && after.value in p.keys then Position(p.keys, after.value) else Cursor(p, model)
  }

  /** rotate_qc_key_for_model: whether a usable key was found, and the new pool. */
  function Rotated(p: Pool, model: string, after: Option<string>): (bool, Pool) {
    if p.keys == [] then (false, p)
    else
      var start, n := RotateFrom(p, model, after), |p.keys|;
      var o := Scan(p, model, start, 1, n + 1);
      if o == n + 1 then (false, p)
      else (true, Moved(p, model, Wrap(start + o, n), 1))
  }

  lemma AtIs(p: Pool, start: nat, offset: nat)
    requires start < |p.keys| && offset <= |p.keys|
    ensures At(p, start, offset) == p.keys[Wrap(start + offset, |p.keys|)]
  {
  }

  lemma RotatedIs(p: Pool, model: string, after: Option<string>)
    requires p.keys != []
    ensures var start, n := RotateFrom(p, model, after), |p.keys|;
            var o := Scan(p, model, start, 1, n + 1);
            Rotated(p, model, after) ==
              if o == n + 1 then (false, p)
              else (true, Moved(p, model, Wrap(start + o, n), 1))
  {
  }

  function MarkedExhausted(p: Pool, key: string, model: string): Pool {
    p.(failures := p.failures[key := (if key in p.failures then p.failures[key] else map[])[model := true]])
  }

  function MarkedInvalid(p: Pool, key: string): Pool {
    if key in p.keys then p.(statuses := p.statuses[key := "Invalid"]) else p
  }

  predicate PointsAt(keys: seq<string>, i: nat, key: string) {
    keys != [] && keys[i % |keys|] == key
  }

  /** reset_qc_model_failures: marks gone, cursors on the key back to 0. */
  function ResetKey(p: Pool, key: string): Pool {
    p.(failures := p.failures - {key},
       index := map m | m in p.index :: if PointsAt(p.keys, p.index[m], key) then 0 else p.index[m])
  }

  // ----- upstream answers -----

  /** An upstream answer: status and lower-cased JSON body, or an exception. */
  datatype Answer = Reply(status: int, detail: string) | Raised

  predicate OccursAt(text: string, term: string, i: nat)
    requires i <= |text|
  {
    term <= text[i..]
  }

  predicate Contains(text: string, term: string) {
    exists i | 0 <= i <= |text| :: OccursAt(text, term, i)
  }

  const RETRYABLE: set<int> := {401, 402, 403, 404, 429, 500, 502, 503, 504}
  const QUOTA_TERMS: seq<string> := ["quota", "rate limit", "rate_limit", "insufficient balance",
                                     "resource exhausted", "allocation exhausted"]
  const INVALID_TERMS: seq<string> := ["invalid_api_key", "invalid api key", "incorrect api key",
                                       "api key is invalid", "apikey-error"]

  predicate IsQuota(status: int, detail: string) {
    status in {402, 429} || exists k | 0 <= k < |QUOTA_TERMS| :: Contains(detail, QUOTA_TERMS[k])
  }

  predicate IsInvalid(status: int, detail: string) {
    status in {401, 403} && exists k | 0 <= k < |INVALID_TERMS| :: Contains(detail, INVALID_TERMS[k])
  }

  /** `term` stands at position `i` of `text`. */
  predicate Mentions(text: string, term: string, i: nat) {
    i + |term| <= |text| && text[i..i + |term|] == term
  }

  lemma MentionFits(text: string, term: string, i: nat)
    requires Mentions(text, term, i)
    ensures i + |term| <= |text|
  {
  }

  lemma InHead(text: string, n: nat, term: string, i: nat)
    requires i <= n <= |text|
    ensures OccursAt(text[..n], term, i) <==> Mentions(text, term, i) && i + |term| <= n
  {
    var head := text[..n];
    if i + |term| <= n {
      assert head[i..i + |term|] == text[i..i + |term|] && head[i..][..|term|] == head[i..i + |term|];
    }
  }

  /** A quota refusal: by its status, or by a quota term somewhere in the body. */
  lemma QuotaExactly(status: int, detail: string)
    ensures IsQuota(status, detail) <==>
            status == 402 || status == 429
            || exists k, i | 0 <= k < |QUOTA_TERMS| && 0 <= i <= |detail| :: Mentions(detail, QUOTA_TERMS[k], i)
  {
    hide Mentions, OccursAt;
    forall k, i | 0 <= k < |QUOTA_TERMS| && 0 <= i <= |detail|
      ensures OccursAt(detail, QUOTA_TERMS[k], i) <==> Mentions(detail, QUOTA_TERMS[k], i)
    {
      Occurs(detail, QUOTA_TERMS[k], i);
    }
  }

  /** A rejected credential: a 401 or 403 whose body says that the key is invalid. */
  lemma InvalidExactly(status: int, detail: string)
    ensures IsInvalid(status, detail) <==>
            (status == 401 || status == 403)
            && exists k, i | 0 <= k < |INVALID_TERMS| && 0 <= i <= |detail| :: Mentions(detail, INVALID_TERMS[k], i)
  {
    hide Mentions, OccursAt;
    forall k, i | 0 <= k < |INVALID_TERMS| && 0 <= i <= |detail|
      ensures OccursAt(detail, INVALID_TERMS[k], i) <==> Mentions(detail, INVALID_TERMS[k], i)
    {
      Occurs(detail, INVALID_TERMS[k], i);
    }
  }

  lemma Occurs(text: string, term: string, i: nat)
    requires i <= |text|
    ensures OccursAt(text, term, i) <==> Mentions(text, term, i)
  {
    hide Mentions;
    assert text[..|text|] == text;
    InHead(text, |text|, term, i);
    if Mentions(text, term, i) { MentionFits(text, term, i); }
  }

  /** The marks `_rotate_qc_after_failure` leaves before it rotates. */
  function Marked(p: Pool, model: string, key: string, a: Answer): Pool {
    if a.Raised? then p
    else
      var q := if IsInvalid(a.status, a.detail) then MarkedInvalid(p, key) else p;
      if IsQuota(a.status, a.detail) then MarkedExhausted(q, key, model) else q
  }

  // ----- the retry loop -----

  datatype Verdict = Answered(status: int) | NoKey

  datatype Trace = Trace(pool: Pool, tried: seq<string>, verdict: Verdict)

  predicate Retries(a: Answer) {
    a.Raised? || (a.status != 200 && a.status in RETRYABLE)
  }

  function StatusOf(a: Answer): int {
    if a.Raised? then 500 else a.status
  }

  /** The loop from attempt number `attempt` on. */
  function Attempts(p: Pool, model: string, answers: nat -> Answer, attempt: nat): Trace
    requires attempt < |p.keys|
    decreases |p.keys| - attempt
  {
    var (key, q) := Current(p, model);
    if key == "" then Trace(q, [], NoKey)
    else
      var a := answers(attempt);
      if Retries(a) && attempt < |p.keys| - 1 then
        var rest := Attempts(Rotated(Marked(q, model, key, a), model, Some(key)).1, model, answers, attempt + 1);
        rest.(tried := [key] + rest.tried)
      else Trace(q, [key], Answered(StatusOf(a)))
  }

  /** What other requests do to the pool while attempt number k waits for its answer. */
  type Others = (nat, Pool) -> Pool

  /** They move cursors, set and reset marks; the keys stay. */
  ghost predicate KeysStay(others: Others) {
    forall k: nat, p: Pool :: others(k, p).keys == p.keys
  }

  /**
   * The loop among other requests. Between an answer and the next selection
   * nothing else runs: the source does not await there.
   */
  ghost function Raced(p: Pool, model: string, answers: nat -> Answer, others: Others, attempt: nat): Trace
    requires attempt < |p.keys| && KeysStay(others)
    decreases |p.keys| - attempt
  {
    var (key, q) := Current(p, model);
    if key == "" then Trace(q, [], NoKey)
    else
      var a, w := answers(attempt), others(attempt, q);
      if Retries(a) && attempt < |p.keys| - 1 then
        var rest := Raced(Rotated(Marked(w, model, key, a), model, Some(key)).1, model, answers, others, attempt + 1);
        rest.(tried := [key] + rest.tried)
      else Trace(w, [key], Answered(StatusOf(a)))
  }

  class QcPool {
    var keys: seq<string>
    var index: map<string, nat>
    var failures: map<string, map<string, bool>>
    var statuses: map<string, string>
    var failovers: nat

    ghost function State(): Pool
      reads this
    {
      Pool(keys, index, failures, statuses, failovers)
    }

    constructor (keys: seq<string>, statuses: map<string, string>)
      ensures State() == Pool(keys, map[], map[], statuses, 0)
    {
      this.keys, this.statuses := keys, statuses;
      index, failures, failovers := map[], map[], 0;
    }

    method IsExhausted(key: string, model: string) returns (b: bool)
      ensures b == Exhausted(State(), key, model)
    {
      b := key in failures && model in failures[key] && failures[key][model];
    }

    method GetCurrent(model: string) returns (key: string)
      modifies this`index
      ensures (key, State()) == Current(old(State()), model)
    {
      if keys == [] { return ""; }
      hide StartOf;
      ghost var p := State();
      var n := |keys|;
      var start := StartOf(index, model, n);
      for offset := 0 to n
        invariant State() == p
        invariant Scan(p, model, start, offset, n) == Scan(p, model, start, 0, n)
      {
        var i := Wrap(start + offset, n);
        var candidate := keys[i];
        var exhausted := IsExhausted(candidate, model);
        if !(candidate in statuses && statuses[candidate] == "Invalid") && !exhausted {
          index := index[model := i];
          return candidate;
        }
      }
      return "";
    }

    method Rotate(model: string, after: Option<string>) returns (found: bool)
      modifies this`index, this`failovers
      ensures (found, State()) == Rotated(old(State()), model, after)
    {
      hide StartOf, Position, At;
      if keys == [] { return false; }
      ghost var p := State();
      var n := |keys|;
      var start;
      if after.Some? && after.value in keys {
        start := Position(keys, after.value);
      } else {
        start := StartOf(index, model, n);
      }
      assert start == RotateFrom(p, model, after);
      hide RotateFrom, Rotated;
      for offset := 1 to n + 1
        invariant State() == p
        invariant Scan(p, model, start, offset, n + 1) == Scan(p, model, start, 1, n + 1)
      {
        var i := Wrap(start + offset, n);
        var candidate := keys[i];
        AtIs(p, start, offset);
        hide Wrap;
        var exhausted := IsExhausted(candidate, model);
        if !(candidate in statuses && statuses[candidate] == "Invalid") && !exhausted {
          RotatedIs(p, model, after);
          index := index[model := i];
          failovers := failovers + 1;
          return true;
        }
      }
      RotatedIs(p, model, after);
      return false;
    }

    method MarkExhausted(key: string, model: string)
      modifies this`failures
      ensures State() == MarkedExhausted(old(State()), key, model)
    {
      if key !in failures {
        failures := failures[key := map[]];
      }
      failures := failures[key := failures[key][model := true]];
    }

    method MarkInvalid(key: string)
      modifies this`statuses
      ensures State() == MarkedInvalid(old(State()), key)
    {
      if key !in keys { return; }
      statuses := statuses[key := "Invalid"];
    }

    method Reset(key: string)
      modifies this`failures, this`index
      ensures State() == ResetKey(old(State()), key)
    {
      hide PointsAt;
      failures := failures - {key};
      var todo := index.Keys;
      ghost var p := old(State());
      while todo != {}
        invariant todo <= p.index.Keys == index.Keys && State() == p.(index := index, failures := p.failures - {key})
        invariant forall m | m in index :: index[m] == if m in todo then p.index[m] else ResetKey(p, key).index[m]
        decreases todo
      {
        var m :| m in todo;
        if PointsAt(keys, index[m], key) {
          index := index[m := 0];
        }
        todo := todo - {m};
      }
      assert index == ResetKey(p, key).index;
    }

    method RotateAfterFailure(model: string, key: string, status: int, detail: string) returns (found: bool)
      modifies this`index, this`failovers, this`failures, this`statuses
      ensures (found, State()) == Rotated(Marked(old(State()), model, key, Reply(status, detail)), model, Some(key))
    {
      if IsInvalid(status, detail) {
        MarkInvalid(key);
      }
      if IsQuota(status, detail) {
        MarkExhausted(key, model);
      }
      found := Rotate(model, Some(key));
    }

    /** The retry loop of a chat completion; `answers` is what upstream says to each attempt, `others` what happens meanwhile. */
    method Serve(model: string, answers: nat -> Answer, others: Others) returns (tried: seq<string>, verdict: Verdict)
      requires keys != [] && KeysStay(others)
      modifies this`index, this`failovers, this`failures, this`statuses
      ensures Trace(State(), tried, verdict) == Raced(old(State()), model, answers, others, 0)
    {
      hide Current, Rotated, Marked, Usable, Raced;
      tried, verdict := [], Answered(429);
      var n := |keys|;
      ghost var whole := Raced(State(), model, answers, others, 0);
      var attempt := 0;
      while attempt < n
        invariant attempt < n && keys == old(keys)
        invariant whole == (var rest := Raced(State(), model, answers, others, attempt); rest.(tried := tried + rest.tried))
        decreases n - attempt
      {
        ghost var p := State();
        ghost var before := tried;
        var key := GetCurrent(model);
        CurrentFrame(p, model);
        RacedIs(p, model, answers, others, attempt);
        if key == "" {
          assert tried + [] == tried;
          return tried, NoKey;
        }
        tried := tried + [key];
        var now := others(attempt, Pool(keys, index, failures, statuses, failovers));
        index, failures, statuses, failovers := now.index, now.failures, now.statuses, now.failovers;
        assert State() == now;
        var a := answers(attempt);
        match a {
          case Raised =>
            if attempt < n - 1 {
              RotatedFrame(State(), model, key, a);
              var _ := Rotate(model, Some(key));
            } else {
              return tried, Answered(500);
            }
          case Reply(status, detail) =>
            if status != 200 && status in RETRYABLE && attempt < n - 1 {
              RotatedFrame(State(), model, key, a);
              var _ := RotateAfterFailure(model, key, status, detail);
            } else {
              return tried, Answered(status);
            }
        }
        Assoc(before, [key], Raced(State(), model, answers, others, attempt + 1).tried);
        attempt := attempt + 1;
      }
    }
  }

  lemma CurrentFrame(p: Pool, model: string)
    ensures Current(p, model).1 == p.(index := Current(p, model).1.index)
  {
  }

  /** Marking and rotating leave the keys and the other models' cursors alone. */
  lemma RotatedFrame(p: Pool, model: string, key: string, a: Answer)
    ensures Marked(p, model, key, a) == p.(failures := Marked(p, model, key, a).failures,
                                           statuses := Marked(p, model, key, a).statuses)
    ensures Rotated(Marked(p, model, key, a), model, Some(key)).1.keys == p.keys
    ensures Marked(p, model, key, Raised) == p
  {
    hide IsInvalid, IsQuota, Usable;
  }

  lemma RacedIs(p: Pool, model: string, answers: nat -> Answer, others: Others, attempt: nat)
    requires attempt < |p.keys| && KeysStay(others)
    ensures var (key, q) := Current(p, model);
            var a, w := answers(attempt), others(attempt, q);
            if key == "" then Raced(p, model, answers, others, attempt) == Trace(q, [], NoKey)
              else if Retries(a) && attempt < |p.keys| - 1 then
                var r := Rotated(Marked(w, model, key, a), model, Some(key)).1;
                |r.keys| == |p.keys| &&
                var rest := Raced(r, model, answers, others, attempt + 1);
                Raced(p, model, answers, others, attempt) == rest.(tried := [key] + rest.tried)
              else Raced(p, model, answers, others, attempt) == Trace(w, [key], Answered(StatusOf(a)))
  {
    hide Current, Rotated, Marked, Retries;
    CurrentFrame(p, model);
    var (key, q) := Current(p, model);
    RotatedFrame(others(attempt, q), model, key, answers(attempt));
  }
}
