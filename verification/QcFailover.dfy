// What the Qwen Cloud key pool guarantees: selection, rotation and failover.
module QcFailover {
  import opened StreamTypes
  import opened QcKeys

  // ----- the ring -----

  lemma AtShift(p: Pool, start: nat, e: nat, k: nat)
    requires start < |p.keys| && e < |p.keys| && e + k < |p.keys|
    ensures At(p, Wrap(start + e, |p.keys|), k) == At(p, start, e + k)
    ensures Wrap(Wrap(start + e, |p.keys|) + k, |p.keys|) == Wrap(start + e + k, |p.keys|)
  {
  }

  /** Every position is at some offset. */
  function OffsetOf(start: nat, i: nat, n: nat): (d: nat)
    requires start < n && i < n
    ensures d < n && Wrap(start + d, n) == i
  {
    if start <= i then i - start else i + n - start
  }

  lemma ScanIs(p: Pool, model: string, start: nat, from: nat, end: nat, o: nat)
    requires start < |p.keys| && from <= o <= end <= |p.keys| + 1
    requires o < end ==> Usable(p, At(p, start, o), model)
    requires forall k | from <= k < o :: !Usable(p, At(p, start, k), model)
    ensures Scan(p, model, start, from, end) == o
  {
    hide Usable, At;
    ScanFirst(p, model, start, from, end);
  }

  predicate NamedKeys(keys: seq<string>) {
    keys != [] && "" !in keys
  }

  predicate NoneUsable(p: Pool, model: string) {
    forall i | 0 <= i < |p.keys| :: !Usable(p, p.keys[i], model)
  }

  lemma ScanMisses(p: Pool, model: string, start: nat, from: nat)
    requires start < |p.keys| && from <= 1
    ensures NoneUsable(p, model) <==> Scan(p, model, start, from, |p.keys| + from) == |p.keys| + from
  {
    hide Usable;
    var n := |p.keys|;
    ScanFirst(p, model, start, from, n + from);
    if Scan(p, model, start, from, n + from) == n + from {
      forall i | 0 <= i < n ensures !Usable(p, p.keys[i], model) {
        var d := OffsetOf(start, i, n);
        assert At(p, start, d) == p.keys[i];
        assert At(p, start, n) == At(p, start, 0);
      }
    }
  }

  // ----- moving a cursor -----

  lemma MovedFacts(p: Pool, model: string, i: nat, hops: nat)
    requires i < |p.keys|
    ensures var q := Moved(p, model, i, hops);
            && q.keys == p.keys && q.failures == p.failures && q.statuses == p.statuses
            && Cursor(q, model) == i && (forall m | m != model :: Cursor(q, m) == Cursor(p, m))
            && Moved(q, model, i, 0) == q
  {
    assert i % |p.keys| == i;
    assert p.index[model := i][model := i] == p.index[model := i];
  }

  lemma UsableSame(p: Pool, q: Pool)
    requires q.failures == p.failures && q.statuses == p.statuses
    ensures forall key, m :: Usable(q, key, m) == Usable(p, key, m)
  {
  }

  lemma WrapEnds(i: nat, n: nat)
    requires i < n
    ensures Wrap(i + 0, n) == i
  {
  }

  /** A cursor on a usable key is where selection stays. */
  lemma Sticky(q: Pool, model: string)
    requires q.keys != [] && Usable(q, q.keys[Cursor(q, model)], model)
    ensures Current(q, model) == (q.keys[Cursor(q, model)], Moved(q, model, Cursor(q, model), 0))
  {
    hide Usable, Cursor, Moved;
    WrapEnds(Cursor(q, model), |q.keys|);
    ScanIs(q, model, Cursor(q, model), 0, |q.keys|, 0);
  }

  // ----- selection -----

  /**
   * Selection returns "" exactly when no key is usable; otherwise the first
   * usable key at or after the model's cursor, where the cursor then stays,
   * so asking again gives the same key. Other cursors do not move.
   */
  lemma SelectionIsFirst(p: Pool, model: string)
    requires NamedKeys(p.keys)
    ensures var (key, q) := Current(p, model);
            && (key == "" <==> NoneUsable(p, model))
            && (key != "" ==> exists d | 0 <= d < |p.keys| ::
                  && key == At(p, Cursor(p, model), d) && Usable(p, key, model)
                  && forall e | 0 <= e < d :: !Usable(p, At(p, Cursor(p, model), e), model))
            && Current(q, model) == (key, q)
            && q == p.(index := q.index) && forall m | m != model :: Cursor(q, m) == Cursor(p, m)
  {
    hide Usable, Cursor, NoneUsable, Scan;
    var start, n := Cursor(p, model), |p.keys|;
    var o := Scan(p, model, start, 0, n);
    ScanMisses(p, model, start, 0);
    ScanFirst(p, model, start, 0, n);
    if o < n {
      var i := Wrap(start + o, n);
      assert At(p, start, o) == p.keys[i] && p.keys[i] in p.keys;
      MovedFacts(p, model, i, 0);
      UsableSame(p, Moved(p, model, i, 0));
      Sticky(Moved(p, model, i, 0), model);
    }
  }

  // ----- rotation -----

  predicate AtMostOneUsable(p: Pool, model: string) {
    forall i, j | 0 <= i < |p.keys| && 0 <= j < |p.keys| && Usable(p, p.keys[i], model) && Usable(p, p.keys[j], model) :: i == j
  }

  /** Where a rotation from `start` lands: the next usable key, `start` itself last. */
  lemma RotationLands(p: Pool, model: string, after: Option<string>)
    ensures var (found, q) := Rotated(p, model, after);
            && (found <==> !NoneUsable(p, model))
            && (if !found then q == p else
                  p.keys != [] &&
                  var o := Scan(p, model, RotateFrom(p, model, after), 1, |p.keys| + 1);
                  1 <= o <= |p.keys| && q == Moved(p, model, Wrap(RotateFrom(p, model, after) + o, |p.keys|), 1)
                  && Usable(p, p.keys[Cursor(q, model)], model)
                  && Cursor(q, model) == Wrap(RotateFrom(p, model, after) + o, |p.keys|))
  {
    hide Usable, RotateFrom, Cursor, Rotated, NoneUsable, Scan, Moved, Wrap;
    if p.keys == [] {
      NothingToRotate(p, model, after);
    } else {
      RotationReturns(p, model, after);
    }
  }

  lemma NothingToRotate(p: Pool, model: string, after: Option<string>)
    requires p.keys == []
    ensures Rotated(p, model, after) == (false, p) && NoneUsable(p, model)
  {
  }

  lemma RotationReturns(p: Pool, model: string, after: Option<string>)
    requires p.keys != []
    ensures var (found, q) := Rotated(p, model, after);
            var start, n := RotateFrom(p, model, after), |p.keys|;
            var o := Scan(p, model, start, 1, n + 1);
            && (found <==> !NoneUsable(p, model))
            && (if !found then q == p else
                  && 1 <= o <= n && q == Moved(p, model, Wrap(start + o, n), 1)
                  && Usable(p, p.keys[Cursor(q, model)], model) && Cursor(q, model) == Wrap(start + o, n))
  {
    hide Usable, RotateFrom, Cursor, NoneUsable, Moved, Wrap, Scan, Rotated;
    var start, n := RotateFrom(p, model, after), |p.keys|;
    ScanMisses(p, model, start, 1);
    ScanFirst(p, model, start, 1, n + 1);
    RotatedIs(p, model, after);
    var o := Scan(p, model, start, 1, n + 1);
    if o <= n {
      AtIs(p, start, o);
      MovedFacts(p, model, Wrap(start + o, n), 1);
    }
  }

  lemma {:induction false} ScanSame(p: Pool, q: Pool, model: string, start: nat, from: nat, end: nat)
    requires q.keys == p.keys && start < |p.keys| && from <= end <= |p.keys| + 1
    requires forall k | from <= k < end :: Usable(q, At(p, start, k), model) == Usable(p, At(p, start, k), model)
    ensures Scan(q, model, start, from, end) == Scan(p, model, start, from, end)
    decreases end - from
  {
    hide Usable, Wrap;
    if from < end { ScanSame(p, q, model, start, from + 1, end); }
  }

  lemma SameRotation(p: Pool, model: string, after: Option<string>)
    requires p.keys != [] && after.Some? && after.value in p.keys
    ensures var once := Rotated(p, model, after).1; Rotated(once, model, after).1.index == once.index
  {
    hide Usable, Position, Wrap;
    var once := Rotated(p, model, after).1;
    UsableSame(p, once);
    ScanSame(p, once, model, RotateFrom(p, model, after), 1, |p.keys| + 1);
  }

  /** From a usable key, the scan comes all the way round exactly when it is the only one. */
  lemma FullCircle(p: Pool, model: string, i: nat)
    requires i < |p.keys| && Usable(p, p.keys[i], model)
    ensures var o := Scan(p, model, i, 1, |p.keys| + 1);
            1 <= o <= |p.keys| && (Wrap(i + o, |p.keys|) == i <==> AtMostOneUsable(p, model))
  {
    hide Usable, Scan;
    var n := |p.keys|;
    ScanFirst(p, model, i, 1, n + 1);
    var o := Scan(p, model, i, 1, n + 1);
    assert At(p, i, n) == p.keys[i];
    forall j | 0 <= j < n && j != i && Usable(p, p.keys[j], model) ensures o < n {
      var d := OffsetOf(i, j, n);
      assert At(p, i, d) == p.keys[j];
    }
    assert o < n ==> Usable(p, p.keys[Wrap(i + o, n)], model);
  }

  lemma FromCursorTwice(p: Pool, model: string, after: Option<string>)
    requires p.keys != [] && (after.None? || after.value !in p.keys)
    ensures var once := Rotated(p, model, after).1;
            Rotated(once, model, after).1.index == once.index <==> AtMostOneUsable(p, model)
  {
    hide Usable, Cursor, Rotated, Scan, Wrap, AtMostOneUsable, NoneUsable;
    RotationLands(p, model, after);
    var (found, once) := Rotated(p, model, after);
    if !found {
      NoneIsAtMostOne(p, model);
    } else {
      UsableSame(p, once);
      AtMostOneSame(p, once, model);
      NoneIsAtMostOne(once, model);
      FullCircle(once, model, Cursor(once, model));
      RotationLands(once, model, after);
      MovedAgain(p, once, Rotated(once, model, after).1, model);
    }
  }

  lemma MovedAgain(p: Pool, once: Pool, twice: Pool, model: string)
    requires p.keys != [] && once.keys == p.keys && twice.keys == p.keys
    requires once == Moved(p, model, Cursor(once, model), 1) && twice == Moved(once, model, Cursor(twice, model), 1)
    ensures twice.index == once.index <==> Cursor(twice, model) == Cursor(once, model)
  {
    var i := Cursor(once, model);
    assert p.index[model := i][model := i] == p.index[model := i];
  }

  lemma AtMostOneSame(p: Pool, q: Pool, model: string)
    requires q.keys == p.keys && q.failures == p.failures && q.statuses == p.statuses
    ensures AtMostOneUsable(q, model) == AtMostOneUsable(p, model)
    ensures NoneUsable(q, model) == NoneUsable(p, model)
  {
    UsableSame(p, q);
    hide Usable;
  }

  lemma NoneIsAtMostOne(p: Pool, model: string)
    ensures NoneUsable(p, model) ==> AtMostOneUsable(p, model)
  {
  }

  /**
   * Reporting the same failed key twice moves the cursor no further than
   * reporting it once -- exactly when the key is in the pool, or at most one
   * key is usable anyway.
   */
  lemma RotateTwiceExactly(p: Pool, model: string, after: Option<string>)
    ensures var once := Rotated(p, model, after).1;
            Rotated(once, model, after).1.index == once.index <==>
            (after.Some? && after.value in p.keys) || AtMostOneUsable(p, model)
  {
    hide AtMostOneUsable;
    if p.keys == [] {
      assert AtMostOneUsable(p, model) by { EmptyPool(p, model); }
    } else {
      hide Rotated;
      if after.Some? && after.value in p.keys {
        SameRotation(p, model, after);
      } else {
        FromCursorTwice(p, model, after);
      }
    }
  }

  lemma EmptyPool(p: Pool, model: string)
    requires p.keys == []
    ensures AtMostOneUsable(p, model)
  {
  }

  // ----- the retry loop -----

  /** The usable keys from offset `from` on, in the order of the ring. */
  function Order(p: Pool, model: string, start: nat, from: nat): seq<string>
    requires start < |p.keys| && from <= |p.keys|
    decreases |p.keys| - from
  {
    if from == |p.keys| then []
    else (if Usable(p, At(p, start, from), model) then [At(p, start, from)] else []) + Order(p, model, start, from + 1)
  }

  lemma {:induction false} OrderHas(p: Pool, model: string, start: nat, from: nat, key: string)
    requires start < |p.keys| && from <= |p.keys|
    ensures key in Order(p, model, start, from) <==>
            Usable(p, key, model) && exists d | from <= d < |p.keys| :: At(p, start, d) == key
    decreases |p.keys| - from
  {
    hide Usable, At;
    if from < |p.keys| { OrderHas(p, model, start, from + 1, key); }
  }

  lemma {:induction false} OrderScan(p: Pool, model: string, start: nat, from: nat)
    requires start < |p.keys| && from <= |p.keys|
    ensures var f := Scan(p, model, start, from, |p.keys|);
            && Order(p, model, start, from) == Order(p, model, start, f)
            && (f < |p.keys| ==> Order(p, model, start, f) == [At(p, start, f)] + Order(p, model, start, f + 1))
    decreases |p.keys| - from
  {
    hide Usable, At;
    if from < |p.keys| && !Usable(p, At(p, start, from), model) {
      OrderScan(p, model, start, from + 1);
      assert [] + Order(p, model, start, from + 1) == Order(p, model, start, from + 1);
    }
  }

  /** From offset `from` on, the same keys are usable in `p` and in `q`. */
  ghost predicate Agree(p: Pool, q: Pool, model: string, start: nat, from: nat)
    requires start < |p.keys|
  {
    q.keys == p.keys && forall d | from <= d < |p.keys| :: Usable(q, At(p, start, d), model) == Usable(p, At(p, start, d), model)
  }

  /** A marked key is the only one whose usability may change. */
  lemma MarkedOnly(p: Pool, model: string, key: string, a: Answer, other: string, m: string)
    requires other != key
    ensures Usable(Marked(p, model, key, a), other, m) == Usable(p, other, m)
  {
    hide Contains;
  }

  lemma DistinctAt(p: Pool, start: nat, d: nat, e: nat)
    requires Distinct(p.keys) && start < |p.keys| && d < |p.keys| && e < |p.keys| && d != e
    ensures At(p, start, d) != At(p, start, e)
  {
    var i, j := Wrap(start + d, |p.keys|), Wrap(start + e, |p.keys|);
    assert i != j;
    assert if i < j then p.keys[i] != p.keys[j] else p.keys[j] != p.keys[i];
  }

  lemma MarkedAgree(p: Pool, q: Pool, model: string, start: nat, e: nat, a: Answer)
    requires Distinct(p.keys) && start < |p.keys| && e < |p.keys| && Agree(p, q, model, start, e)
    ensures Agree(p, Marked(q, model, At(p, start, e), a), model, start, e + 1)
  {
    hide Usable, At, Marked, Distinct;
    RotatedFrame(q, model, At(p, start, e), a);
    forall d | e + 1 <= d < |p.keys|
      ensures Usable(Marked(q, model, At(p, start, e), a), At(p, start, d), model) == Usable(p, At(p, start, d), model)
    {
      DistinctAt(p, start, d, e);
      MarkedOnly(q, model, At(p, start, e), a, At(p, start, d), model);
    }
  }

  /** Rotating after the key at offset `e` reaches the next usable offset, if there is one. */
  lemma RotationReaches(q: Pool, model: string, start: nat, e: nat)
    requires Distinct(q.keys) && start < |q.keys| && e < |q.keys|
    requires Scan(q, model, start, e + 1, |q.keys|) < |q.keys|
    ensures var f := Scan(q, model, start, e + 1, |q.keys|);
            Rotated(q, model, Some(At(q, start, e))) == (true, Moved(q, model, Wrap(start + f, |q.keys|), 1))
  {
    hide Usable, Scan, Distinct, Position, Moved;
    var n := |q.keys|;
    var f, x := Scan(q, model, start, e + 1, n), Wrap(start + e, n);
    PositionOf(q.keys, x);
    assert q.keys[x] in q.keys;
    ScanFirst(q, model, start, e + 1, n);
    AtShift(q, start, e, f - e);
    forall k | 1 <= k < f - e ensures !Usable(q, At(q, x, k), model) {
      AtShift(q, start, e, k);
      assert !Usable(q, At(q, start, e + k), model);
    }
    ScanIs(q, model, x, 1, n + 1, f - e);
  }

  lemma KeyNamed(p: Pool, start: nat, e: nat)
    requires NamedKeys(p.keys) && start < |p.keys| && e < |p.keys|
    ensures At(p, start, e) != "" && At(p, start, e) in p.keys
  {
    assert p.keys[Wrap(start + e, |p.keys|)] in p.keys;
  }

  lemma MovedAgree(p: Pool, q: Pool, model: string, start: nat, from: nat, i: nat)
    requires start < |p.keys| && Agree(p, q, model, start, from)
    ensures forall hops: nat :: Agree(p, Moved(q, model, i, hops), model, start, from)
  {
    forall hops: nat ensures Agree(p, Moved(q, model, i, hops), model, start, from) {
      UsableSame(q, Moved(q, model, i, hops));
    }
  }

  lemma AgreeScan(p: Pool, q: Pool, model: string, start: nat, from: nat)
    requires start < |p.keys| && from <= |p.keys| && Agree(p, q, model, start, from)
    ensures q.keys == p.keys && Scan(q, model, start, from, |p.keys|) == Scan(p, model, start, from, |p.keys|)
  {
    hide Usable, At;
    ScanSame(p, q, model, start, from, |p.keys|);
  }

  lemma AtSame(p: Pool, q: Pool, start: nat, e: nat)
    requires q.keys == p.keys && start < |p.keys| && e <= |p.keys|
    ensures At(q, start, e) == At(p, start, e)
  {
  }

  /** With the cursor moved to a usable offset `f`, the next selection takes it. */
  lemma Landed(p: Pool, q: Pool, model: string, start: nat, f: nat)
    requires start < |p.keys| && f < |p.keys| && Agree(p, q, model, start, f) && Usable(p, At(p, start, f), model)
    ensures var r := Moved(q, model, Wrap(start + f, |p.keys|), 1);
            && Agree(p, r, model, start, f)
            && Current(r, model) == (At(p, start, f), Moved(r, model, Wrap(start + f, |p.keys|), 0))
  {
    hide Usable, Current, Cursor, Wrap;
    var i := Wrap(start + f, |p.keys|);
    MovedAgree(p, q, model, start, f, i);
    MovedFacts(q, model, i, 1);
    Sticky(Moved(q, model, i, 1), model);
  }

  /** The pool after the key at offset `e` failed and was rotated away from. */
  function Failed(q: Pool, model: string, key: string, i: nat, a: Answer): Pool {
    Rotated(Marked(Moved(q, model, i, 0), model, key, a), model, Some(key)).1
  }

  lemma FailureStep(p: Pool, q: Pool, model: string, start: nat, e: nat, a: Answer)
    requires Distinct(p.keys) && start < |p.keys| && e < |p.keys| && Agree(p, q, model, start, e)
    ensures var f := Scan(p, model, start, e + 1, |p.keys|);
            f < |p.keys| ==>
              var r := Failed(q, model, At(p, start, e), Wrap(start + e, |p.keys|), a);
              && Usable(p, At(p, start, f), model) && Agree(p, r, model, start, f)
              && Current(r, model) == (At(p, start, f), Moved(r, model, Wrap(start + f, |p.keys|), 0))
  {
    hide Usable, Distinct, Current, Rotated, Marked, At, Moved, Agree, Scan;
    var n, key, i := |p.keys|, At(p, start, e), Wrap(start + e, |p.keys|);
    var c := Moved(q, model, i, 0);
    var m := Marked(c, model, key, a);
    MovedAgree(p, q, model, start, e, i);
    MarkedAgree(p, c, model, start, e, a);
    AgreeScan(p, m, model, start, e + 1);
    var f := Scan(p, model, start, e + 1, n);
    if f < n {
      ScanFirst(p, model, start, e + 1, n);
      AtSame(p, m, start, e);
      RotationReaches(m, model, start, e);
      AgreeLater(p, m, model, start, e + 1, f);
      Landed(p, m, model, start, f);
    }
  }

  lemma AgreeLater(p: Pool, q: Pool, model: string, start: nat, from: nat, later: nat)
    requires start < |p.keys| && from <= later && Agree(p, q, model, start, from)
    ensures Agree(p, q, model, start, later)
  {
    hide Usable, At;
  }

  /** `a` and `b` agree as far as both go. */
  predicate InStep<T(==)>(a: seq<T>, b: seq<T>) {
    a <= b || b <= a
  }

  lemma InStepCons<T>(x: T, a: seq<T>, b: seq<T>)
    requires InStep(a, b)
    ensures InStep([x] + a, [x] + b) && (b <= a ==> [x] + b <= [x] + a)
  {
  }

  lemma {:induction false} TriedInOrder(p: Pool, q: Pool, model: string, start: nat, e: nat, answers: nat -> Answer, attempt: nat)
    requires NamedKeys(p.keys) && Distinct(p.keys) && start < |p.keys| && attempt <= e < |p.keys| && Agree(p, q, model, start, e)
    requires Usable(p, At(p, start, e), model)
    requires Current(q, model) == (At(p, start, e), Moved(q, model, Wrap(start + e, |p.keys|), 0))
    ensures var t, o := Attempts(q, model, answers, attempt), Order(p, model, start, e);
            InStep(t.tried, o) && (t.verdict.NoKey? || |t.tried| == |p.keys| - attempt ==> o <= t.tried)
    decreases |p.keys| - attempt
  {
    hide Usable, Distinct, Current, Rotated, Marked, At, Moved, Agree, Scan, Retries, NamedKeys, Wrap;
    var n, key, a := |p.keys|, At(p, start, e), answers(attempt);
    KeyNamed(p, start, e);
    OrderScan(p, model, start, e);
    ScanIs(p, model, start, e, n, e);
    OrderScan(p, model, start, e + 1);
    AgreeKeys(p, q, model, start, e);
    var f := Scan(p, model, start, e + 1, n);
    var o := Order(p, model, start, f);
    assert Order(p, model, start, e) == [key] + o;
    if Retries(a) && attempt < n - 1 {
      var r := Failed(q, model, key, Wrap(start + e, n), a);
      FailedKeys(q, model, key, Wrap(start + e, n), a);
      var rest := Attempts(r, model, answers, attempt + 1);
      if f < n {
        FailureStep(p, q, model, start, e, a);
        TriedInOrder(p, r, model, start, f, answers, attempt + 1);
        InStepCons(key, rest.tried, o);
      }
    }
  }

  lemma FailedKeys(q: Pool, model: string, key: string, i: nat, a: Answer)
    ensures Failed(q, model, key, i, a).keys == q.keys
  {
    RotatedFrame(Moved(q, model, i, 0), model, key, a);
  }

  lemma AgreeKeys(p: Pool, q: Pool, model: string, start: nat, from: nat)
    requires start < |p.keys| && Agree(p, q, model, start, from)
    ensures q.keys == p.keys
  {
  }

  /**
   * Failover in the order of the ring: whatever upstream answers, the keys
   * tried are the ones usable at the start, from the cursor on, each once
   * before any is tried again; and the loop does not run out of keys or
   * attempts before all of them were tried.
   */
  lemma FailoverInOrder(p: Pool, model: string, answers: nat -> Answer)
    requires NamedKeys(p.keys) && Distinct(p.keys)
    ensures var t, o := Attempts(p, model, answers, 0), Order(p, model, Cursor(p, model), 0);
            InStep(t.tried, o) && (t.verdict.NoKey? || |t.tried| == |p.keys| ==> o <= t.tried)
  {
    hide Usable, Distinct, Cursor, At, Moved, Order, Scan, Rotated, Marked;
    var start, n := Cursor(p, model), |p.keys|;
    OrderScan(p, model, start, 0);
    ScanFirst(p, model, start, 0, n);
    var e := Scan(p, model, start, 0, n);
    if e < n {
      TriedInOrder(p, p, model, start, e, answers, 0);
    } else {
      OrderEnds(p, model, start);
    }
  }

  lemma OrderEnds(p: Pool, model: string, start: nat)
    requires start < |p.keys|
    ensures Order(p, model, start, |p.keys|) == []
  {
  }

  /** If the loop gives up, every key usable at the start was tried. */
  lemma EveryKeyTried(p: Pool, model: string, answers: nat -> Answer)
    requires NamedKeys(p.keys) && Distinct(p.keys)
    ensures var t := Attempts(p, model, answers, 0);
            t.verdict.NoKey? || |t.tried| == |p.keys| ==>
              forall key | key in p.keys && Usable(p, key, model) :: key in t.tried
  {
    hide Usable, Distinct, Cursor, Attempts;
    var start := Cursor(p, model);
    FailoverInOrder(p, model, answers);
    forall key | key in p.keys && Usable(p, key, model) ensures key in Order(p, model, start, 0) {
      OrderHas(p, model, start, 0, key);
      assert At(p, start, OffsetOf(start, Position(p.keys, key), |p.keys|)) == key;
    }
  }

  /** Another key is tried after an exception or one of these statuses. */
  predicate Refused(a: Answer) {
    a.Raised? || a.status in {401, 402, 403, 404, 429, 500, 502, 503, 504}
  }

  /**
   * The reply is that of the last attempt, 500 for an exception; all attempts
   * before were refused, and so was the last one if any key was left to try.
   */
  lemma {:induction false} LastAnswerReplies(p: Pool, model: string, answers: nat -> Answer, attempt: nat)
    requires attempt < |p.keys|
    ensures var t := Attempts(p, model, answers, attempt);
            var end := attempt + |t.tried|;
            && end <= |p.keys| && (forall j | attempt <= j < end - 1 :: Refused(answers(j)))
            && (t.verdict.Answered? ==>
                  && end > attempt && (Refused(answers(end - 1)) ==> end == |p.keys|)
                  && t.verdict.status == if answers(end - 1).Raised? then 500 else answers(end - 1).status)
            && (t.verdict.NoKey? && end > attempt ==> Refused(answers(end - 1)) && end < |p.keys|)
    decreases |p.keys| - attempt
  {
    hide Current, Rotated, Marked;
    PickedIsKey(p, model);
    var (key, q) := Current(p, model);
    var a := answers(attempt);
    if key != "" && Retries(a) && attempt < |p.keys| - 1 {
      RotatedFrame(q, model, key, a);
      LastAnswerReplies(Rotated(Marked(q, model, key, a), model, Some(key)).1, model, answers, attempt + 1);
    }
  }

  /** Reporting a key that is not in the pool as invalid changes nothing. */
  lemma StrangerIgnored(p: Pool, stranger: string, key: string, m: string)
    ensures stranger !in p.keys ==> Usable(MarkedInvalid(p, stranger), key, m) == Usable(p, key, m)
    ensures key != stranger ==> Usable(MarkedInvalid(p, stranger), key, m) == Usable(p, key, m)
  {
  }

  // ----- what failover leaves behind -----

  predicate Invalidates(a: Answer) {
    a.Reply? && IsInvalid(a.status, a.detail)
  }

  predicate Exhausts(a: Answer) {
    a.Reply? && IsQuota(a.status, a.detail)
  }

  /** Some retried attempt of `tried`, numbered from `attempt`, disqualified `key` for model `m`. */
  predicate Disqualified(tried: seq<string>, answers: nat -> Answer, attempt: nat, n: nat, key: string, same: bool) {
    exists i | 0 <= i < |tried| :: tried[i] == key && attempt + i < n - 1 && Retries(answers(attempt + i))
      && (Invalidates(answers(attempt + i)) || (same && Exhausts(answers(attempt + i))))
  }

  lemma MarkedUsable(p: Pool, model: string, tried: string, a: Answer, key: string, m: string)
    requires tried in p.keys
    ensures Usable(Marked(p, model, tried, a), key, m) <==>
            Usable(p, key, m) && !(key == tried && (Invalidates(a) || (m == model && Exhausts(a))))
  {
    hide IsInvalid, IsQuota;
  }

  lemma DisqualifiedCons(first: string, rest: seq<string>, answers: nat -> Answer, attempt: nat, n: nat, key: string, same: bool)
    requires attempt < n - 1 && Retries(answers(attempt))
    ensures Disqualified([first] + rest, answers, attempt, n, key, same) <==>
            (first == key && (Invalidates(answers(attempt)) || (same && Exhausts(answers(attempt)))))
            || Disqualified(rest, answers, attempt + 1, n, key, same)
  {
    hide Invalidates, Exhausts, Retries;
    var all := [first] + rest;
    if Disqualified(rest, answers, attempt + 1, n, key, same) {
      var i :| 0 <= i < |rest| && rest[i] == key && attempt + 1 + i < n - 1 && Retries(answers(attempt + 1 + i))
               && (Invalidates(answers(attempt + 1 + i)) || (same && Exhausts(answers(attempt + 1 + i))));
      assert all[i + 1] == key && attempt + (i + 1) == attempt + 1 + i;
    }
    if Disqualified(all, answers, attempt, n, key, same) {
      var i :| 0 <= i < |all| && all[i] == key && attempt + i < n - 1 && Retries(answers(attempt + i))
               && (Invalidates(answers(attempt + i)) || (same && Exhausts(answers(attempt + i))));
      if i > 0 { assert rest[i - 1] == key && attempt + 1 + (i - 1) == attempt + i; }
    }
    assert all[0] == first;
  }

  lemma PickedIsKey(p: Pool, model: string)
    ensures var (key, q) := Current(p, model);
            q.keys == p.keys && q.failures == p.failures && q.statuses == p.statuses && (key != "" ==> key in p.keys)
  {
    hide Usable;
  }

  /**
   * What a request leaves behind, exactly: a key stays usable for model `m`
   * unless a retried attempt with it was refused as an invalid key, or -- for
   * the requested model only -- for quota.
   */
  lemma {:induction false} MarksExactly(p: Pool, model: string, answers: nat -> Answer, attempt: nat, key: string, m: string)
    requires attempt < |p.keys|
    ensures var t := Attempts(p, model, answers, attempt);
            && t.pool.keys == p.keys
            && (Usable(t.pool, key, m) <==>
                  Usable(p, key, m) && !Disqualified(t.tried, answers, attempt, |p.keys|, key, m == model))
    decreases |p.keys| - attempt
  {
    hide Usable, Current, Rotated, Marked, Retries, Invalidates, Exhausts;
    PickedIsKey(p, model);
    var (picked, q) := Current(p, model);
    UsableSame(p, q);
    var a := answers(attempt);
    if picked != "" && Retries(a) && attempt < |p.keys| - 1 {
      MarkedUsable(q, model, picked, a, key, m);
      RotatedMarks(Marked(q, model, picked, a), model, Some(picked));
      RotatedFrame(q, model, picked, a);
      var r := Rotated(Marked(q, model, picked, a), model, Some(picked)).1;
      UsableSame(Marked(q, model, picked, a), r);
      MarksExactly(r, model, answers, attempt + 1, key, m);
      DisqualifiedCons(picked, Attempts(r, model, answers, attempt + 1).tried, answers, attempt, |p.keys|, key, m == model);
    }
  }

  lemma RotatedMarks(p: Pool, model: string, after: Option<string>)
    ensures var q := Rotated(p, model, after).1;
            q.keys == p.keys && q.failures == p.failures && q.statuses == p.statuses
            && forall m | m != model :: (m in q.index <==> m in p.index) && (m in p.index ==> q.index[m] == p.index[m])
  {
    hide Usable, RotateFrom;
  }

  /** The cursor of another model does not move. */
  lemma {:induction false} OtherCursor(p: Pool, model: string, answers: nat -> Answer, attempt: nat, other: string)
    requires attempt < |p.keys| && other != model
    ensures var q := Attempts(p, model, answers, attempt).pool; q.keys == p.keys && Cursor(q, other) == Cursor(p, other)
    decreases |p.keys| - attempt
  {
    hide Usable, Rotated, Marked, Retries;
    var (picked, q) := Current(p, model);
    var a := answers(attempt);
    if picked != "" && Retries(a) && attempt < |p.keys| - 1 {
      RotatedMarks(Marked(q, model, picked, a), model, Some(picked));
      RotatedFrame(q, model, picked, a);
      OtherCursor(Rotated(Marked(q, model, picked, a), model, Some(picked)).1, model, answers, attempt + 1, other);
    }
  }

  /** Unless upstream called a key invalid, a request leaves every other model's selection as it was. */
  lemma FailoverStaysLocal(p: Pool, model: string, answers: nat -> Answer, other: string)
    requires p.keys != [] && other != model && forall i: nat :: !Invalidates(answers(i))
    ensures Current(Attempts(p, model, answers, 0).pool, other).0 == Current(p, other).0
  {
    hide Usable, Cursor, Attempts, Invalidates, Exhausts, Retries;
    var q := Attempts(p, model, answers, 0).pool;
    OtherCursor(p, model, answers, 0, other);
    var start, n := Cursor(p, other), |p.keys|;
    forall k | 0 <= k < n ensures Usable(q, At(p, start, k), other) == Usable(p, At(p, start, k), other) {
      MarksExactly(p, model, answers, 0, At(p, start, k), other);
    }
    ScanSame(p, q, other, start, 0, n);
  }

  /**
   * A reset makes the key usable again for every model unless it is
   * quarantined, changes no other key, and restarts at the head of the pool
   * exactly the models whose cursor was on the key.
   */
  lemma ResetRestores(p: Pool, key: string, other: string, m: string)
    requires p.keys != []
    ensures var q := ResetKey(p, key);
            && (Usable(q, key, m) <==> !(key in p.statuses && p.statuses[key] == "Invalid"))
            && (other != key ==> Usable(q, other, m) == Usable(p, other, m))
            && Cursor(q, m) == if p.keys[Cursor(p, m)] == key then 0 else Cursor(p, m)
  {
    hide Cursor, PointsAt;
    ResetCursor(p, key, m);
  }

  lemma ResetCursor(p: Pool, key: string, m: string)
    requires p.keys != []
    ensures Cursor(ResetKey(p, key), m) == if p.keys[Cursor(p, m)] == key then 0 else Cursor(p, m)
  {
    var n := |p.keys|;
    assert 0 % n == 0;
    if m in p.index {
      var i := p.index[m];
      assert Cursor(p, m) == i % n;
      assert ResetKey(p, key).index[m] == if p.keys[i % n] == key then 0 else i;
    }
  }
}
