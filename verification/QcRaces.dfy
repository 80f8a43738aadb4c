// Several requests failing over on one model of the Qwen Cloud pool at once.
module QcRaces {
  import opened StreamTypes
  import opened QcKeys
  import opened QcFailover

  // ----- a request alone -----

  /** Nobody else does anything. */
  function Nobody(k: nat, p: Pool): Pool {
    p
  }

  /** Alone, the loop is the one of `Attempts`. */
  lemma {:induction false} AloneIsAttempts(p: Pool, model: string, answers: nat -> Answer, attempt: nat)
    requires attempt < |p.keys|
    ensures KeysStay(Nobody) && Raced(p, model, answers, Nobody, attempt) == Attempts(p, model, answers, attempt)
    decreases |p.keys| - attempt
  {
    hide Current, Rotated, Marked, Retries;
    PickedIsKey(p, model);
    var (key, q) := Current(p, model);
    if key != "" && Retries(answers(attempt)) && attempt < |p.keys| - 1 {
      FailedFacts(q, model, key, answers(attempt));
      AloneIsAttempts(Rotated(Marked(q, model, key, answers(attempt)), model, Some(key)).1, model, answers, attempt + 1);
    }
  }

  lemma FailedFacts(w: Pool, model: string, key: string, a: Answer)
    ensures var m := Marked(w, model, key, a); var r := Rotated(m, model, Some(key)).1;
            m.keys == r.keys == w.keys && r.failures == m.failures && r.statuses == m.statuses
  {
    hide Marked, Rotated;
    RotatedFrame(w, model, key, a);
    RotatedMarks(Marked(w, model, key, a), model, Some(key));
  }

  // ----- other requests that only rotate -----

  /** Pools that differ in their cursors and the counter at most. */
  predicate SameMarks(p: Pool, q: Pool) {
    p.keys == q.keys && p.failures == q.failures && p.statuses == q.statuses
  }

  ghost predicate OnlyRotate(others: Others) {
    forall k: nat, p: Pool :: SameMarks(others(k, p), p)
  }

  /** Where a failed key of the pool is left, the next one is chosen whatever the cursors are. */
  lemma NextIgnoresCursors(p: Pool, q: Pool, model: string, key: string, a: Answer)
    requires SameMarks(p, q) && key in p.keys
    ensures var r, s := Rotated(Marked(p, model, key, a), model, Some(key)).1, Rotated(Marked(q, model, key, a), model, Some(key)).1;
            SameMarks(r, s) && Current(r, model).0 == Current(s, model).0
  {
    hide Usable, Current, Rotated, Cursor, Position;
    var m, n := Marked(p, model, key, a), Marked(q, model, key, a);
    MarkedAlike(p, q, model, key, a);
    FailedFacts(p, model, key, a);
    FailedFacts(q, model, key, a);
    NextPicked(m, model, key);
    NextPicked(n, model, key);
    UsableSame(m, n);
    ScanSame(m, n, model, Position(p.keys, key), 1, |p.keys| + 1);
  }

  lemma MarkedAlike(p: Pool, q: Pool, model: string, key: string, a: Answer)
    requires SameMarks(p, q)
    ensures SameMarks(Marked(p, model, key, a), Marked(q, model, key, a))
  {
    hide IsInvalid, IsQuota, MarkedInvalid, MarkedExhausted, SameMarks;
    InvalidAlike(p, q, key);
    ExhaustedAlike(p, q, key, model);
    ExhaustedAlike(MarkedInvalid(p, key), MarkedInvalid(q, key), key, model);
  }

  lemma InvalidAlike(p: Pool, q: Pool, key: string)
    requires SameMarks(p, q)
    ensures SameMarks(MarkedInvalid(p, key), MarkedInvalid(q, key))
  {
  }

  lemma ExhaustedAlike(p: Pool, q: Pool, key: string, model: string)
    requires SameMarks(p, q)
    ensures SameMarks(MarkedExhausted(p, key, model), MarkedExhausted(q, key, model))
  {
  }

  /** After a rotation away from `key`, selection gives the next usable key of the ring; "" if there is none. */
  lemma NextPicked(m: Pool, model: string, key: string)
    requires key in m.keys
    ensures var r, c, n := Rotated(m, model, Some(key)).1, Position(m.keys, key), |m.keys|;
            var o := Scan(m, model, c, 1, n + 1);
            && r.keys == m.keys
            && (o <= n ==> Current(r, model) == (At(m, c, o), Moved(r, model, Wrap(c + o, n), 0)) && Cursor(r, model) == Wrap(c + o, n))
            && (o == n + 1 ==> Current(r, model).0 == "" && NoneUsable(m, model))
  {
    hide Usable, Cursor, Position, NoneUsable, Scan, Moved, Wrap;
    var r, c, n := Rotated(m, model, Some(key)).1, Position(m.keys, key), |m.keys|;
    var o := Scan(m, model, c, 1, n + 1);
    RotatedMarks(m, model, Some(key));
    ScanMisses(m, model, c, 1);
    ScanFirst(m, model, c, 1, n + 1);
    if o <= n {
      MovedFacts(m, model, Wrap(c + o, n), 1);
      UsableSame(m, r);
      Sticky(r, model);
    } else {
      ScanMisses(m, model, Cursor(m, model), 0);
    }
  }

  /**
   * However often other requests move the cursors meanwhile, a request tries
   * the keys it would try alone, leaves the same marks and gives the same
   * answer.
   */
  lemma {:induction false} RotationsHarmless(p: Pool, q: Pool, model: string, answers: nat -> Answer, others: Others, attempt: nat)
    requires NamedKeys(p.keys) && attempt < |p.keys| && OnlyRotate(others) && KeysStay(others)
    requires SameMarks(p, q) && Current(p, model).0 == Current(q, model).0
    ensures var t, u := Raced(p, model, answers, others, attempt), Attempts(q, model, answers, attempt);
            t.tried == u.tried && t.verdict == u.verdict && SameMarks(t.pool, u.pool)
    decreases |p.keys| - attempt
  {
    hide Usable, Current, Rotated, Marked, Retries, NamedKeys;
    PickedIsKey(p, model);
    PickedIsKey(q, model);
    var (key, c) := Current(p, model);
    var d := Current(q, model).1;
    var a := answers(attempt);
    if key != "" {
      var w := others(attempt, c);
      assert SameMarks(w, d);
      if Retries(a) && attempt < |p.keys| - 1 {
        FailedFacts(w, model, key, a);
        FailedFacts(d, model, key, a);
        NextIgnoresCursors(w, d, model, key, a);
        RotationsHarmless(Rotated(Marked(w, model, key, a), model, Some(key)).1, Rotated(Marked(d, model, key, a), model, Some(key)).1,
                          model, answers, others, attempt + 1);
      }
    }
  }

  // ----- other requests that also set and reset marks -----

  /** The key is usable at every selection the request makes. */
  ghost predicate AlwaysUsable(p: Pool, model: string, answers: nat -> Answer, others: Others, attempt: nat, key: string)
    requires attempt < |p.keys| && KeysStay(others)
    decreases |p.keys| - attempt
  {
    var (picked, q) := Current(p, model);
    PickedIsKey(p, model);
    var a := answers(attempt);
    Usable(p, key, model) &&
    (picked != "" && Retries(a) && attempt < |p.keys| - 1 ==>
       var w := others(attempt, q);
       FailedFacts(w, model, picked, a);
       AlwaysUsable(Rotated(Marked(w, model, picked, a), model, Some(picked)).1, model, answers, others, attempt + 1, key))
  }

  /** The request ran out of keys or of attempts. */
  predicate GaveUp(t: Trace, left: nat) {
    t.verdict.NoKey? || |t.tried| == left
  }

  /** A key that is usable keeps selection from coming up empty, and the cursor is on the key selected. */
  lemma Picked(p: Pool, model: string, key: string)
    requires NamedKeys(p.keys) && key in p.keys && Usable(p, key, model)
    ensures var (picked, q) := Current(p, model);
            picked != "" && q.keys == p.keys && q.keys[Cursor(q, model)] == picked
  {
    hide Usable, Cursor, Moved, Wrap, Scan;
    var start, n := Cursor(p, model), |p.keys|;
    ScanMisses(p, model, start, 0);
    var o := Scan(p, model, start, 0, n);
    assert Usable(p, p.keys[Position(p.keys, key)], model);
    ScanFirst(p, model, start, 0, n);
    MovedFacts(p, model, Wrap(start + o, n), 0);
    assert p.keys[Wrap(start + o, n)] in p.keys;
  }

  /** How far the key is ahead of the one selected. */
  function Ahead(p: Pool, model: string, key: string): (d: nat)
    requires key in p.keys
    ensures d < |p.keys|
  {
    var q := Current(p, model).1;
    PickedIsKey(p, model);
    OffsetOf(Cursor(q, model), Position(q.keys, key), |q.keys|)
  }

  lemma RingStep(c: nat, o: nat, i: nat, n: nat)
    requires c < n && i < n && 1 <= o <= OffsetOf(c, i, n)
    ensures Wrap(c + o, n) < n && OffsetOf(Wrap(c + o, n), i, n) == OffsetOf(c, i, n) - o
  {
  }

  /** Rotating away from another key comes closer to `key`, and never past it. */
  lemma Closer(w: Pool, model: string, key: string, c: nat, a: Answer)
    requires Distinct(w.keys) && key in w.keys && c < |w.keys| && w.keys[c] != key
    requires var r := Rotated(Marked(w, model, w.keys[c], a), model, Some(w.keys[c])).1; Usable(r, key, model)
    ensures var r := Rotated(Marked(w, model, w.keys[c], a), model, Some(w.keys[c])).1;
            r.keys == w.keys && Ahead(r, model, key) < OffsetOf(c, Position(w.keys, key), |w.keys|)
  {
    hide Usable, Cursor, Position, Moved, Wrap, Scan, Current, Rotated, Marked, Distinct, OffsetOf;
    var failed, n := w.keys[c], |w.keys|;
    var m := Marked(w, model, failed, a);
    FailedFacts(w, model, failed, a);
    var r := Rotated(m, model, Some(failed)).1;
    UsableSame(m, r);
    PositionOf(w.keys, c);
    NextPicked(m, model, failed);
    var i := Position(w.keys, key);
    var d, o := OffsetOf(c, i, n), Scan(m, model, c, 1, n + 1);
    KeyAtOffset(m, c, d, i);
    Nearest(m, model, c, d, o);
    RingStep(c, o, i, n);
    MovedFacts(r, model, Wrap(c + o, n), 0);
  }

  lemma KeyAtOffset(m: Pool, c: nat, d: nat, i: nat)
    requires c < |m.keys| && i < |m.keys| && d == OffsetOf(c, i, |m.keys|)
    ensures At(m, c, d) == m.keys[i] && (d == 0 ==> c == i)
  {
  }

  lemma Nearest(m: Pool, model: string, c: nat, d: nat, o: nat)
    requires c < |m.keys| && 1 <= d < |m.keys| && Usable(m, At(m, c, d), model) && o == Scan(m, model, c, 1, |m.keys| + 1)
    ensures 1 <= o <= d
  {
    hide Usable, At;
    ScanFirst(m, model, c, 1, |m.keys| + 1);
  }

  lemma {:induction false} ReachedInTime(p: Pool, model: string, answers: nat -> Answer, others: Others, attempt: nat, key: string)
    requires NamedKeys(p.keys) && Distinct(p.keys) && key in p.keys && attempt < |p.keys| && KeysStay(others)
    requires AlwaysUsable(p, model, answers, others, attempt, key) && attempt + Ahead(p, model, key) < |p.keys|
    ensures var t := Raced(p, model, answers, others, attempt); GaveUp(t, |p.keys| - attempt) ==> key in t.tried
    decreases |p.keys| - attempt
  {
    hide Usable, Cursor, Position, Current, Rotated, Marked, Retries, Distinct, NamedKeys, OffsetOf;
    Picked(p, model, key);
    var (picked, q) := Current(p, model);
    var c, a, w := Cursor(q, model), answers(attempt), others(attempt, q);
    OnIt(q.keys, c, key);
    if picked != key && Retries(a) && attempt < |p.keys| - 1 {
      FailedFacts(w, model, picked, a);
      var r := Rotated(Marked(w, model, picked, a), model, Some(picked)).1;
      UsableNow(r, model, answers, others, attempt + 1, key);
      Closer(w, model, key, c, a);
      ReachedInTime(r, model, answers, others, attempt + 1, key);
    }
  }

  lemma OnIt(keys: seq<string>, c: nat, key: string)
    requires key in keys && c < |keys|
    ensures OffsetOf(c, Position(keys, key), |keys|) == 0 ==> keys[c] == key
  {
  }

  lemma UsableNow(p: Pool, model: string, answers: nat -> Answer, others: Others, attempt: nat, key: string)
    requires attempt < |p.keys| && KeysStay(others) && AlwaysUsable(p, model, answers, others, attempt, key)
    ensures Usable(p, key, model)
  {
    hide Usable;
  }

  /**
   * Among other requests that rotate, mark and reset on the same model as
   * they like, a request that gives up has missed a key only if the key was
   * unusable at one of its selections.
   */
  lemma MissedWasUnusable(p: Pool, model: string, answers: nat -> Answer, others: Others, key: string)
    requires NamedKeys(p.keys) && Distinct(p.keys) && key in p.keys && KeysStay(others)
    requires var t := Raced(p, model, answers, others, 0); GaveUp(t, |p.keys|) && key !in t.tried
    ensures !AlwaysUsable(p, model, answers, others, 0, key)
  {
    hide Raced, AlwaysUsable, Ahead, Distinct, NamedKeys;
    if AlwaysUsable(p, model, answers, others, 0, key) { ReachedInTime(p, model, answers, others, 0, key); }
  }

  const TWO: Pool := Pool(["A", "B"], map[], map[], map[], 0)

  /** Another request exhausts "B" while the first attempt waits, and an administrator resets it later. */
  function ExhaustAndReset(k: nat, p: Pool): Pool {
    if k == 0 then MarkedExhausted(p, "B", "m") else ResetKey(p, "B")
  }

  function AlwaysRaises(k: nat): Answer {
    Raised
  }

  const HIT: Pool := MarkedExhausted(TWO.(index := map["m" := 0]), "B", "m")
  const BACK: Pool := HIT.(failovers := 1)

  lemma FirstPick()
    ensures Current(TWO, "m") == ("A", TWO.(index := map["m" := 0])) && Usable(TWO, "B", "m")
  {
    assert At(TWO, 0, 0) == "A" && Cursor(TWO, "m") == 0;
  }

  lemma HitFacts()
    ensures HIT.keys == ["A", "B"] && HIT.index == map["m" := 0] && !Usable(HIT, "B", "m") && Usable(HIT, "A", "m")
    ensures HIT.failovers == 0 && Usable(BACK, "A", "m")
  {
  }

  /** With "B" exhausted the rotation away from "A" comes back to "A". */
  lemma BackToFirst()
    ensures Rotated(HIT, "m", Some("A")) == (true, BACK)
  {
    HitFacts();
    hide Usable, HIT;
    assert Position(HIT.keys, "A") == 0 && At(HIT, 0, 1) == "B" && At(HIT, 0, 2) == "A";
    ScanIs(HIT, "m", 0, 1, 3, 2);
    assert HIT.index["m" := 0] == HIT.index;
  }

  lemma SecondPick()
    ensures Current(BACK, "m") == ("A", BACK)
  {
    HitFacts();
    hide Usable, HIT;
    assert Cursor(BACK, "m") == 0 && BACK.keys[0] == "A";
    Sticky(BACK, "m");
    assert BACK.index["m" := 0] == BACK.index;
  }

  lemma ResetUsable()
    ensures Usable(ResetKey(BACK, "B"), "B", "m")
  {
  }

  /** Such a key can be missed, though it was usable before and is usable after. */
  lemma RaceMisses()
    ensures KeysStay(ExhaustAndReset) && Usable(TWO, "B", "m")
    ensures var t := Raced(TWO, "m", AlwaysRaises, ExhaustAndReset, 0);
            t.tried == ["A", "A"] && GaveUp(t, 2) && Usable(t.pool, "B", "m")
  {
    hide Raced, Usable, Current, Rotated, HIT, BACK, ResetKey, MarkedExhausted;
    ResetKeeps();
    FirstPick();
    HitIs();
    BackToFirst();
    SecondPick();
    ResetUsable();
    RacedIs(TWO, "m", AlwaysRaises, ExhaustAndReset, 0);
    RacedIs(BACK, "m", AlwaysRaises, ExhaustAndReset, 1);
    assert Marked(HIT, "m", "A", Raised) == HIT;
    assert Raced(BACK, "m", AlwaysRaises, ExhaustAndReset, 1) == Trace(ResetKey(BACK, "B"), ["A"], Answered(500));
    assert Raced(TWO, "m", AlwaysRaises, ExhaustAndReset, 0).tried == ["A"] + ["A"];
  }

  lemma ResetKeeps()
    ensures KeysStay(ExhaustAndReset)
  {
  }

  lemma HitIs()
    ensures ExhaustAndReset(0, TWO.(index := map["m" := 0])) == HIT && BACK.keys == TWO.keys && |TWO.keys| == 2
  {
  }
}
